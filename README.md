# Inventory and production-suggestion backend — a Dafny model

This project models the Quarkus backend of a small inventory system in
Dafny, and proves the rules that backend keeps.

The backend manages three tables:

- **products**, each with a name and a unit value;
- **raw materials**, each with a name and a stock quantity;
- **bill-of-materials lines**, each saying how much of one raw material one
  unit of one product needs.

It also lists **production suggestions**: rows of the read-only relation
`production_suggestions`. Each row carries a suggested quantity, a total
value and a priority rank.

The backend does not compute the suggestions. `production_suggestions` is
a database relation that the service only reads, filters, orders, pages
and maps. So the model takes the suggestion rows as input and proves what
the backend does with them.

What is modelled, file by file:

- `entity.dfy`, `persistence.dfy`: the tables are rows, given as datatypes.
  - Class `Database` holds the tables and their IDENTITY counters.
  - Predicate `Consistent` states the integrity the services keep:
    - ids are unique and below the counter;
    - names are unique, ignoring case;
    - there is at most one line per (product, raw material) pair;
    - every line's foreign keys name existing rows;
    - stored amounts respect the request bounds.
  - One lemma per kind of write shows that the write keeps this integrity.
- `repository.dfy`: the four Panache repositories, as queries over those
  tables.
  - This includes the JPQL text, the parameters and the ORDER BY that
    `ProductionSuggestionRepository.findAllOrderedByPriority` builds.
- `product_service.dfy`, `raw_material_service.dfy`,
  `product_raw_material_service.dfy`: the three CRUD services, as classes.
  - Their methods change the shared `Database`.
  - Their contracts state every error case, the new state, and that
    nothing else changes.
- `production_suggestion_service.dfy`: `getProductionSuggestions`.
- `filter.dfy`: `SortFilter` and `SearchFilter`.
  - `SortFilter` sorts an array in place with an insertion sort. The sort
    is proved equal to a stable-sort specification, whose permutation,
    order, stability and idempotence are proved.
- `listing.dfy`: the `findAll` pipeline shared by the product and
  raw-material services: search, count, page, then sort the page.
- `mapper.dfy`: the four mappers.
- `dto.dfy`: the bean-validation constraints of the three request DTOs.
- `exception.dfy`: the two exception mappers.
- `config.dfy`: `DatabaseInitializer.extractSchemaName`.
- `table.dfy`, `text.dfy`, `wrappers.dfy`: general facts about
  filtering and paging rows, about ASCII text (case, trimming, substring
  search, decimal rendering), and `Option`/`Result`.

Modelling choices:

- `BigDecimal` is an exact `real`. `Long` ids are `int`.
- A Java `null` is `None`.
- The comparisons behind SQL `LOWER(...)` and `String.toLowerCase` use one
  ASCII lower-casing function.
- A LIKE pattern `'%' || v || '%'` is a case-insensitive substring test.
- `Page.of(n, s)` is the slice `[n*s, n*s+s)` of the rows, clipped to
  their length.

## Model

| member | source | states |
|---|---|---|
| ProductService.ProductService.FindAll | teste-api/src/main/java/com/example/service/ProductService.java:33-55 | The content is the page of the name-searched products, sorted only when sortBy is "value" and the direction is non-empty, mapped one-to-one. totalElements counts the search result before paging. pageNumber and pageSize are echoed. |
| ProductService.ProductService.FindById | teste-api/src/main/java/com/example/service/ProductService.java:57-61 | The result is an error exactly when no product has the id, and then it is ResourceNotFound("Product", id). Otherwise it is the response of the row with that id. |
| ProductService.ProductService.Create | teste-api/src/main/java/com/example/service/ProductService.java:63-71 | A name that clashes ignoring case gives DuplicateResource and leaves the tables unchanged. Otherwise exactly one row is appended, with the next IDENTITY id and the DTO's name and value, and its response is returned. Integrity is kept. |
| ProductService.ProductService.Update | teste-api/src/main/java/com/example/service/ProductService.java:73-84 | An unknown id gives ResourceNotFound, and a name held by another product gives DuplicateResource, both with no change. Otherwise only the row with that id gets the DTO's name and value; its id and every other row stay. Keeping or re-casing its own name is allowed. |
| ProductService.ProductService.Delete | teste-api/src/main/java/com/example/service/ProductService.java:86-96 | An unknown id gives ResourceNotFound. A product that still has BOM lines gives ReferentialIntegrity with the source's message. Neither changes anything. Otherwise exactly that row is removed, and the id no longer exists. |
| RawMaterialService.RawMaterialService.FindAll | teste-api/src/main/java/com/example/service/RawMaterialService.java:33-55 | As for products: the page of the searched rows, sorted only for sortBy "stockQuantity" with a non-empty direction. totalElements is counted before paging. |
| RawMaterialService.RawMaterialService.FindById | teste-api/src/main/java/com/example/service/RawMaterialService.java:57-61 | An error exactly when the id is unknown, then ResourceNotFound("Raw Material", id). Otherwise the response of that row. |
| RawMaterialService.RawMaterialService.Create | teste-api/src/main/java/com/example/service/RawMaterialService.java:63-72 | A case-insensitive name clash gives DuplicateResource with no change. Otherwise exactly one row is appended, with the next id, the name and the stock. Integrity is kept. |
| RawMaterialService.RawMaterialService.Update | teste-api/src/main/java/com/example/service/RawMaterialService.java:74-85 | An unknown id gives ResourceNotFound and another row's name gives DuplicateResource, both with no change. Otherwise only that row's name and stock change. |
| RawMaterialService.RawMaterialService.Delete | teste-api/src/main/java/com/example/service/RawMaterialService.java:87-97 | An unknown id gives ResourceNotFound. A raw material still used by BOM lines gives ReferentialIntegrity. Neither changes anything. Otherwise exactly that row is removed. |
| ProductRawMaterialService.ProductRawMaterialService.FindByProductId | teste-api/src/main/java/com/example/service/ProductRawMaterialService.java:36-49 | An unknown product gives ResourceNotFound. Otherwise totalElements is the product's line count, and the content renders the requested page of that product's lines, at most pageSize of them. |
| ProductRawMaterialService.ProductRawMaterialService.FindByProductIdAndRawMaterialId | teste-api/src/main/java/com/example/service/ProductRawMaterialService.java:51-58 | An error exactly when the pair has no line, with the "Association between Product %d and Raw Material %d not found" text. Otherwise the rendering of that pair's line. |
| ProductRawMaterialService.ProductRawMaterialService.AddRawMaterialToProduct | teste-api/src/main/java/com/example/service/ProductRawMaterialService.java:60-82 | Checks run in source order: a missing product, then a missing raw material, each gives ResourceNotFound. An existing pair gives DuplicateResource naming the raw material and the product. None of these changes anything. Otherwise exactly one line is appended, with the next id and the quantity, and at most one line per pair remains. |
| ProductRawMaterialService.ProductRawMaterialService.UpdateQuantity | teste-api/src/main/java/com/example/service/ProductRawMaterialService.java:84-94 | A missing pair gives ResourceNotFound with no change. Otherwise only that pair's quantityNeeded becomes the DTO's; the DTO's rawMaterialId is ignored. The response renders the updated line. |
| ProductRawMaterialService.ProductRawMaterialService.RemoveRawMaterialFromProduct | teste-api/src/main/java/com/example/service/ProductRawMaterialService.java:96-105 | A missing pair gives ResourceNotFound with no change. Otherwise the repository delete removes exactly the one line of that pair. |
| ProductRawMaterialService.AssociationNotFoundInjective | teste-api/src/main/java/com/example/service/ProductRawMaterialService.java:54-55 | Two pairs with the same not-found text are the same pair: the `%d` rendering names its ids unambiguously. |
| ProductRawMaterialService.LineResponses | teste-api/src/main/java/com/example/service/ProductRawMaterialService.java:42-46 | A list of stored lines maps one-to-one into responses, each rendering its line with the names of the rows its keys point to. |
| ProductRawMaterialService.LineResponse | teste-api/src/main/java/com/example/mapper/ProductRawMaterialMapper.java:8-17 | For a line whose product and raw material exist, the response carries the line's id, keys and quantity. It also carries the names of the rows those keys name. |
| ProductRawMaterialService.RenderingIsUnique | teste-api/src/main/java/com/example/mapper/ProductRawMaterialMapper.java:8-17 | With unique ids, a BOM line has exactly one response rendering. |
| ProductRawMaterialService.StoredLinesResolve | teste-api/src/main/java/com/example/entity/ProductRawMaterial.java:15-21 | Every stored line's product and raw material exist, so its response can always be rendered. |
| ProductRawMaterialService.PagedLines | teste-api/src/main/java/com/example/service/ProductRawMaterialService.java:42-43 | Every line on a page of findByProductId is a stored line of that product. |
| ProductionSuggestionService.GetProductionSuggestions | teste-api/src/main/java/com/example/service/ProductionSuggestionService.java:21-42 | totalElements is the repository count, whatever the page. pageNumber and pageSize are echoed. The content is at most pageSize and at most the count. Each item is the mapping of a view row that matches the search. The content is exactly the repository's page, mapped one-to-one: same length, same order. |
| ProductionSuggestionService.PageOrder | teste-api/src/main/java/com/example/service/ProductionSuggestionService.java:29-34 | The content keeps the repository's order: priorityRank ascending by default. For "asc"/"desc", productValue in that direction, with ties by priorityRank ascending. |
| ProductionSuggestionService.ServiceExamples | teste-api/src/test/java/com/example/service/ProductionSuggestionServiceTest.java:56-95 | Two rows with page size 10 give both rows, a total of 2, and the first row's fields copied. An empty view gives empty content and a total of 0. |
| ProductionSuggestionRepository.FindAllOrderedByPriority | teste-api/src/main/java/com/example/repository/ProductionSuggestionRepository.java:15-34 | The query is "1=1", plus the LIKE clause exactly for a non-blank search name. The parameter map binds "%"+searchName+"%" then, and is empty otherwise. Then " ORDER BY ", then the ordering text. The rows are that page of the matching rows in that order. |
| ProductionSuggestionRepository.OrderingOf | teste-api/src/main/java/com/example/repository/ProductionSuggestionRepository.java:25-29 | The value ordering is chosen exactly when the direction equals "asc" or "desc" ignoring case, and it is descending exactly for "desc". |
| ProductionSuggestionRepository.UpperDirection | teste-api/src/main/java/com/example/repository/ProductionSuggestionRepository.java:26 | For a direction accepted by the test, `toUpperCase()` yields exactly "DESC" or "ASC". |
| ProductionSuggestionRepository.OrderingExamples | teste-api/src/main/java/com/example/repository/ProductionSuggestionRepository.java:24-29 | "DESC" and "Asc" give "productValue DESC/ASC, priorityRank ASC". "up", "" and null give "priorityRank ASC". |
| ProductionSuggestionRepository.Matching | teste-api/src/main/java/com/example/repository/ProductionSuggestionRepository.java:19-21 | A blank search keeps every row. Otherwise a view row is kept exactly when its product name contains the search name, ignoring case. |
| ProductionSuggestionRepository.Count | teste-api/src/main/java/com/example/repository/ProductionSuggestionRepository.java:36-41 | The count is the number of matching rows, and the number of all rows for a blank or null search. |
| ProductionSuggestionRepository.OrderedByPriority | teste-api/src/main/java/com/example/repository/ProductionSuggestionRepository.java:28 | ORDER BY priorityRank ASC gives a permutation of the rows with ranks non-decreasing. |
| ProductionSuggestionRepository.OrderedByValue | teste-api/src/main/java/com/example/repository/ProductionSuggestionRepository.java:26 | ORDER BY productValue DIR, priorityRank ASC gives a permutation ordered by value in that direction, with equal values by rank. |
| ProductionSuggestionRepository.OrderedPermutes | teste-api/src/main/java/com/example/repository/ProductionSuggestionRepository.java:31 | Either ordering is a permutation of the rows it orders. |
| ProductionSuggestionRepository.PageInOrder | teste-api/src/main/java/com/example/repository/ProductionSuggestionRepository.java:31-33 | Any two rows of a returned page are in the requested order. |
| ProductionSuggestionRepository.PageWithinCount | teste-api/src/main/java/com/example/repository/ProductionSuggestionRepository.java:31-33 | A page never holds more rows than count(searchName) nor more than the page size. |
| ProductionSuggestionRepository.PageRowsMatch | teste-api/src/main/java/com/example/repository/ProductionSuggestionRepository.java:19-33 | Every row of a page is a view row, and matches the search when one is given. |
| ProductRepository.FindByIdOptional | teste-api/src/main/java/com/example/repository/ProductRepository.java:12-14 | Present exactly when existsById holds, and then a stored row carrying that id. |
| ProductRepository.ExistsById | teste-api/src/main/java/com/example/repository/ProductRepository.java:16-18 | True exactly when some row has the id. |
| ProductRepository.ExistsByName | teste-api/src/main/java/com/example/repository/ProductRepository.java:20-22 | True exactly when some row's name equals the given name, ignoring case. |
| ProductRepository.ExistsByNameAndIdNot | teste-api/src/main/java/com/example/repository/ProductRepository.java:24-26 | True exactly when a row with another id has that name, ignoring case. |
| ProductRepository.ClashWithOtherIsClash | teste-api/src/main/java/com/example/repository/ProductRepository.java:20-26 | existsByNameAndIdNot implies existsByName. |
| ProductRepository.ExistsByNameIgnoresCase | teste-api/src/main/java/com/example/repository/ProductRepository.java:20-22 | Names that differ only in case collide: they give the same answer. |
| ProductRepository.OwnNameIsNoClash | teste-api/src/main/java/com/example/repository/ProductRepository.java:24-26 | With unique names, a row's own name, in any case, is not a clash for its own id. |
| RawMaterialRepository.FindByIdOptional | teste-api/src/main/java/com/example/repository/RawMaterialRepository.java:12-14 | Present exactly when existsById holds, and then a stored row with that id. |
| RawMaterialRepository.ExistsById | teste-api/src/main/java/com/example/repository/RawMaterialRepository.java:16-18 | True exactly when some row has the id. |
| RawMaterialRepository.FindByName | teste-api/src/main/java/com/example/repository/RawMaterialRepository.java:20-22 | Present exactly when existsByName holds, and then a stored row whose name matches, ignoring case. |
| RawMaterialRepository.ExistsByName | teste-api/src/main/java/com/example/repository/RawMaterialRepository.java:24-26 | True exactly when some row's name matches, ignoring case. |
| RawMaterialRepository.ExistsByNameAndIdNot | teste-api/src/main/java/com/example/repository/RawMaterialRepository.java:28-30 | True exactly when a row with another id has that name, ignoring case. |
| RawMaterialRepository.ClashWithOtherIsClash | teste-api/src/main/java/com/example/repository/RawMaterialRepository.java:24-30 | existsByNameAndIdNot implies existsByName. |
| RawMaterialRepository.ExistsByNameIgnoresCase | teste-api/src/main/java/com/example/repository/RawMaterialRepository.java:20-26 | Names differing only in case give the same existsByName and findByName answers. |
| RawMaterialRepository.OwnNameIsNoClash | teste-api/src/main/java/com/example/repository/RawMaterialRepository.java:28-30 | With unique names, a row's own name is not a clash for its own id. |
| ProductRawMaterialRepository.FindByProductId | teste-api/src/main/java/com/example/repository/ProductRawMaterialRepository.java:13-15 | Exactly the stored lines of that product. |
| ProductRawMaterialRepository.CountByProductId | teste-api/src/main/java/com/example/repository/ProductRawMaterialRepository.java:17-19 | Equals the number of lines findByProductId returns. |
| ProductRawMaterialRepository.FindByProductIdAndRawMaterialId | teste-api/src/main/java/com/example/repository/ProductRawMaterialRepository.java:21-23 | Present exactly when the pair exists, and then a stored line of that pair. |
| ProductRawMaterialRepository.ExistsByProductIdAndRawMaterialId | teste-api/src/main/java/com/example/repository/ProductRawMaterialRepository.java:25-27 | True exactly when some line has both the product and the raw material. |
| ProductRawMaterialRepository.DeleteByProductIdAndRawMaterialId | teste-api/src/main/java/com/example/repository/ProductRawMaterialRepository.java:29-31 | Afterwards the pair no longer exists. Every line of another pair is kept, and no line is added. |
| ProductRawMaterialRepository.DeleteRemovesOne | teste-api/src/main/java/com/example/repository/ProductRawMaterialRepository.java:29-31 | With unique pairs, the delete removes exactly one line if the pair exists, and none otherwise. |
| ProductRawMaterialRepository.HasProductLinks | teste-api/src/main/java/com/example/repository/ProductRawMaterialRepository.java:33-35 | True exactly when countByProductId > 0, that is, when some line references the product. |
| ProductRawMaterialRepository.HasRawMaterialLinks | teste-api/src/main/java/com/example/repository/ProductRawMaterialRepository.java:37-39 | True exactly when some line references the raw material. |
| Filter.SortFilter.Apply | teste-api/src/main/java/com/example/filter/SortFilter.java:16-22 | The array, sorted in place, becomes the stable sort of its old contents by the key. The order is reversed exactly when the direction is "desc" ignoring case. |
| Filter.SortFilter.By | teste-api/src/main/java/com/example/filter/SortFilter.java:24-26 | A fresh filter holding the given key extractor and direction. |
| Filter.ListSort | teste-api/src/main/java/com/example/filter/SortFilter.java:21 | `List.sort`: the array's new contents are the stable sort of its old contents. |
| Filter.InsertAt | teste-api/src/main/java/com/example/filter/SortFilter.java:21 | One insertion step: the prefix up to i becomes the sorted insertion of a[i] into the sorted prefix, and the rest is untouched. |
| Filter.SortFilterContract | teste-api/src/main/java/com/example/filter/SortFilter.java:16-22 | The sorted list is a permutation of the original. It is non-increasing by key for "desc" and non-decreasing otherwise. Equal keys keep their relative order. |
| Filter.StableSortPermutes | teste-api/src/main/java/com/example/filter/SortFilter.java:21 | The sort is a permutation: same length, same multiplicities. |
| Filter.StableSortSorted | teste-api/src/main/java/com/example/filter/SortFilter.java:21 | The sort's result is ordered by the comparator. |
| Filter.StableSortStable | teste-api/src/main/java/com/example/filter/SortFilter.java:21 | The sort is stable: the elements of each key appear in their original order. |
| Filter.StableSortIdempotent | teste-api/src/main/java/com/example/filter/SortFilter.java:16-22 | Applying the same filter twice gives what applying it once gives. |
| Filter.SortThenSortIsLexicographic | teste-api/src/main/java/com/example/filter/SortFilter.java:21 | Because the sort is stable, sorting by a secondary key and then by a primary key orders lexicographically. |
| Filter.DirectionIgnoresCase | teste-api/src/main/java/com/example/filter/SortFilter.java:18 | "desc", "DESC" and "Desc" reverse the order. "asc", "", null and "descending" do not. |
| Filter.SearchFilter.Apply | teste-api/src/main/java/com/example/filter/SearchFilter.java:17-24 | A null or blank search value returns the incoming query. Otherwise it returns a new query on the field, with the text "LOWER(field) LIKE LOWER(?1)" and the untrimmed pattern "%"+value+"%". |
| Filter.SearchFilterRows | teste-api/src/main/java/com/example/filter/SearchFilter.java:18-24 | The rows of the applied query are those of the incoming query for a blank search. Otherwise they are exactly the table rows whose field contains the untrimmed value, ignoring case. |
| Listing.PageRowsContract | teste-api/src/main/java/com/example/service/ProductService.java:36-48 | A findAll page is a permutation of the page of the searched rows, and no longer than the page size. It is left in page order unless the sort applies, and then it is ordered by the key in the requested direction. |
| Listing.PageRowsMatch | teste-api/src/main/java/com/example/service/RawMaterialService.java:36-48 | Every row on a findAll page is a stored row, and matches the search when one is given. |
| Listing.TotalCountsSearch | teste-api/src/main/java/com/example/service/ProductService.java:36-39 | totalElements counts the searched rows, at most all rows, and exactly all rows for a blank search. |
| Listing.SearchedRows | teste-api/src/main/java/com/example/service/ProductService.java:36-37 | Every row the name search selects is a stored row. For a non-blank search, its name contains the search value, ignoring case. |
| ProductMapper.ToEntity | teste-api/src/main/java/com/example/mapper/ProductMapper.java:9-14 | The new entity has the DTO's name and value and no id. |
| ProductMapper.ToResponseDto | teste-api/src/main/java/com/example/mapper/ProductMapper.java:16-22 | The response copies id, name and value. |
| ProductMapper.UpdateEntityFromDto | teste-api/src/main/java/com/example/mapper/ProductMapper.java:24-27 | The name and value are overwritten from the DTO, and the id is kept. |
| ProductMapper.RoundTrip | teste-api/src/main/java/com/example/mapper/ProductMapper.java:9-22 | toResponseDTO(toEntity(dto)) carries the DTO's name and value, with no id. |
| ProductMapper.UpdateIdempotent | teste-api/src/main/java/com/example/mapper/ProductMapper.java:24-27 | Updating twice from the same DTO equals updating once. |
| RawMaterialMapper.ToEntity | teste-api/src/main/java/com/example/mapper/RawMaterialMapper.java:9-14 | The new entity has the DTO's name and stock and no id. |
| RawMaterialMapper.ToResponseDto | teste-api/src/main/java/com/example/mapper/RawMaterialMapper.java:16-22 | The response copies id, name and stockQuantity. |
| RawMaterialMapper.UpdateEntityFromDto | teste-api/src/main/java/com/example/mapper/RawMaterialMapper.java:24-27 | The name and stock are overwritten, and the id is kept. |
| RawMaterialMapper.RoundTrip | teste-api/src/main/java/com/example/mapper/RawMaterialMapper.java:9-22 | toResponseDTO(toEntity(dto)) carries the DTO's name and stock, with no id. |
| RawMaterialMapper.UpdateIdempotent | teste-api/src/main/java/com/example/mapper/RawMaterialMapper.java:24-27 | Updating twice from the same DTO equals updating once. |
| ProductRawMaterialMapper.ToResponseDto | teste-api/src/main/java/com/example/mapper/ProductRawMaterialMapper.java:8-17 | The response has the line's id and quantity, the product's id and name, and the raw material's id and name. |
| ProductionSuggestionMapper.ToResponseDto | teste-api/src/main/java/com/example/mapper/ProductionSuggestionMapper.java:8-17 | All six fields are copied unchanged; suggestedQuantity and totalValue are not recomputed. |
| ProductionSuggestionMapper.ToResponseDtoInjective | teste-api/src/main/java/com/example/mapper/ProductionSuggestionMapper.java:8-17 | The projection loses nothing: equal responses come from equal rows. |
| Dto.ProductRequestViolations | teste-api/src/main/java/com/example/dto/product/ProductRequestDTO.java:9-16 | No violation exactly when the name is non-null and not blank and the value is non-null and at least 0.01. |
| Dto.RawMaterialRequestViolations | teste-api/src/main/java/com/example/dto/rawmaterial/RawMaterialRequestDTO.java:9-16 | No violation exactly when the name is not blank and the stock is non-null and at least 0.0. |
| Dto.ProductRawMaterialRequestViolations | teste-api/src/main/java/com/example/dto/productrawmaterial/ProductRawMaterialRequestDTO.java:8-15 | No violation exactly when rawMaterialId is present and quantityNeeded is present and at least 0.01. |
| Dto.RequestBoundsAreInclusive | teste-api/src/main/java/com/example/dto/product/ProductRequestDTO.java:14 | The decimal bounds are inclusive: 0.01 is a valid value and 0.0 is not; a stock of 0.0 is valid and -0.01 is not; a quantity of 0.01 is valid and 0.009 is not. |
| Dto.InvalidCreateRequests | teste-api/src/test/java/com/example/resource/ProductResourceTest.java:66-81 | An empty name with -10 gives both messages of its constraints, in declaration order. A blank name alone gives one message. Null fields give the NotNull and NotBlank messages. |
| GlobalExceptionHandler.ToResponse | teste-api/src/main/java/com/example/exception/GlobalExceptionHandler.java:18-62 | ResourceNotFound gives 404 with its message. DuplicateResource and ReferentialIntegrity give 409 with their message. A JSON-processing WebApplicationException gives 400 "Invalid JSON format". Every body has the single key "error". |
| GlobalExceptionHandler.Classification | teste-api/src/main/java/com/example/exception/GlobalExceptionHandler.java:57-61 | 500 "Internal server error" is returned exactly for the exceptions no earlier case handles, including other WebApplicationExceptions. |
| Exceptions.ErrorBody | teste-api/src/main/java/com/example/exception/GlobalExceptionHandler.java:64-68 | The body has exactly one key, "error", holding the message. |
| ValidationExceptionHandler.ToResponse | teste-api/src/main/java/com/example/exception/ValidationExceptionHandler.java:16-30 | The status is always 400, and the body has the single key "error". The error text is every violation message joined with ", ". Zero violations give "", and one violation gives its message alone. |
| ValidationExceptionHandler.JoinShape | teste-api/src/main/java/com/example/exception/ValidationExceptionHandler.java:18-21 | The joined text starts with the first message and ends with the last. Its length is the messages' lengths plus n-1 separators, so there is no leading or trailing separator. |
| ValidationExceptionHandler.JoinSeparatorCount | teste-api/src/main/java/com/example/exception/ValidationExceptionHandler.java:18-21 | n comma-free messages, joined by ", ", hold exactly n-1 commas. |
| ValidationExceptionHandler.JoinPair | teste-api/src/main/java/com/example/exception/ValidationExceptionHandler.java:21 | Two messages join as first + ", " + second. |
| ExceptionMapping.Dispatch | teste-api/src/main/java/com/example/exception/ValidationExceptionHandler.java:14 | A ConstraintViolationException goes to the validation mapper (400). A ConstraintViolationException gets exactly the validation mapper's response. Every other exception goes to the global mapper. Every body has the single key "error". |
| ExceptionMapping.InvalidCreateIsBadRequest | teste-api/src/test/java/com/example/resource/RawMaterialResourceTest.java:78-93 | Creating with an empty name and -10 answers 400, with both violation messages joined by ", ". |
| Config.ExtractSchemaName | teste-api/src/main/java/com/example/config/DatabaseInitializer.java:64-78 | null exactly when the URL has no "currentSchema=". Otherwise the text right after its first occurrence, up to but not including the first following '&', or to the end; it never contains '&'. |
| Config.ExtractSchemaNameRoundTrip | teste-api/src/main/java/com/example/config/DatabaseInitializer.java:66-77 | prefix + "currentSchema=" + schema + rest yields schema, when the key does not occur earlier, schema has no '&', and rest is empty or starts with '&'. |
| Config.ProjectUrl | teste-api/src/main/java/com/example/config/DatabaseInitializer.java:65 | "jdbc:postgresql://localhost:5432/projedata?currentSchema=inventory_db" yields "inventory_db". |
| Config.EmptySchema | teste-api/src/main/java/com/example/config/DatabaseInitializer.java:71-77 | A URL that ends in "currentSchema=" yields "" rather than null. |
| Persistence.Database.constructor | teste-api/src/main/java/com/example/entity/ProductRawMaterial.java:11-13 | Empty tables whose IDENTITY counters start at 1 satisfy the integrity predicate. |
| Persistence.ProductSaved | teste-api/src/main/java/com/example/service/ProductService.java:65-69 | Persisting a valid product under a name that no row holds, ignoring case, with the next id, keeps all integrity. |
| Persistence.ProductUpdated | teste-api/src/main/java/com/example/service/ProductService.java:78-82 | Overwriting a row with a valid row of the same id, whose name clashes with no other row, keeps all integrity; no other row has that id. |
| Persistence.ProductDeleted | teste-api/src/main/java/com/example/service/ProductService.java:91-95 | Removing a product no line references keeps all integrity, including the foreign keys, and its id is gone. |
| Persistence.MaterialSaved | teste-api/src/main/java/com/example/service/RawMaterialService.java:65-70 | Persisting a valid raw material under a fresh name keeps all integrity. |
| Persistence.MaterialUpdated | teste-api/src/main/java/com/example/service/RawMaterialService.java:79-83 | Overwriting a row with a valid, non-clashing row of the same id keeps all integrity. |
| Persistence.MaterialDeleted | teste-api/src/main/java/com/example/service/RawMaterialService.java:92-96 | Removing a raw material no line references keeps all integrity, and its id is gone. |
| Persistence.LineSaved | teste-api/src/main/java/com/example/service/ProductRawMaterialService.java:71-79 | Appending a line for a new pair of existing rows, with a quantity of at least 0.01, keeps at most one line per pair and all integrity. |
| Persistence.LineQuantitySet | teste-api/src/main/java/com/example/service/ProductRawMaterialService.java:91 | Setting a line's quantity to a valid amount keeps all integrity. |
| Persistence.LineDeleted | teste-api/src/main/java/com/example/service/ProductRawMaterialService.java:104 | Removing a line keeps all integrity. |
| Persistence.ProductRow | teste-api/src/main/java/com/example/repository/ProductRepository.java:12-14 | For an existing id, the position of the row carrying it: the entity the persistence context manages. |
| Persistence.LineRow | teste-api/src/main/java/com/example/repository/ProductRawMaterialRepository.java:21-23 | With unique pairs, the one position whose line has the pair. |
| Table.FirstOfWhere | teste-api/src/main/java/com/example/repository/ProductRepository.java:13 | `find(...).firstResultOptional()` is present exactly when some row satisfies the condition, and then it is the first such row. |
| Table.CountIfIsWhereLength | teste-api/src/main/java/com/example/repository/ProductRawMaterialRepository.java:17-19 | `count(cond)` equals the number of rows `find(cond)` lists. |
| Table.PageOf | teste-api/src/main/java/com/example/service/ProductRawMaterialService.java:43 | `page(Page.of(n, s))` holds at most s rows: rows n*s onward, in order, or none when n*s is past the end. |
| Text.HasTextIff | teste-api/src/main/java/com/example/filter/SearchFilter.java:19 | `!s.trim().isEmpty()` holds exactly when s has a character above the space. |
| Text.IndexOf | teste-api/src/main/java/com/example/config/DatabaseInitializer.java:66 | `indexOf(pattern)` gives the first occurrence at or after the start, or -1 when there is none. |
| Text.IndexOfChar | teste-api/src/main/java/com/example/config/DatabaseInitializer.java:72 | `indexOf(c, from)` gives the first position of c at or after from, or -1. |
| Text.DecimalInjective | teste-api/src/main/java/com/example/service/ProductRawMaterialService.java:55 | `%d` renders different numbers as different texts. |

## Left out

- I/O: logging, the JDBC schema creation in `DatabaseInitializer.onStart`/`createSchemaIfNotExists`, and HTTP. Only `extractSchemaName` is modelled.
- The JAX-RS resource classes and `CorsFilter`: they only delegate to the services.
- `@Transactional` rollback and concurrency. Each service method is one atomic step on the database.
- The stock-allocation computation behind `production_suggestions`. No backend code computes the suggested quantity, total value or rank; the rows are input.
- `PageResponse.totalPages`: its source is not part of this model, so the two-rows, one-page example of the service test is not stated.
- `Page.of` argument checks: page numbers and sizes are naturals. The model accepts a page size of 0 and returns an empty page, whereas `Page.of` rejects a size of 0 with IllegalArgumentException.
- The rendered texts of `ResourceNotFoundException(resource, id)` and `DuplicateResourceException(resource, field, value)`. Their classes are not part of this model, so the model keeps their arguments.
- The `Product` and `RawMaterial` entity classes and their column definitions are not part of this model.
  - Rows carry the fields the mappers and services use.
  - The column precision and scale (`precision = 10, scale = 2`) are not modelled: amounts are exact reals.
- LIKE wildcards (`%`, `_`) inside the user's search text: the search is a plain substring test.
- Locale-dependent casing: lower- and upper-casing are ASCII only, and `trim()` removes characters up to the space.
- Result order: SQL results without ORDER BY are taken in table order. Rows tied under an ORDER BY keep table order too; the database does not promise that.
- The order of constraint violations: Hibernate Validator returns a `Set` in no fixed order. The model lists them in field declaration order.
- The `@Valid` check on service parameters is a precondition of each service method. A request that fails it reaches the validation mapper instead; `ExceptionMapping.Dispatch` covers that path.
- ProductMapper.UpdateEntityFromDto, RawMaterialMapper.UpdateEntityFromDto: each returns the updated row rather than mutating a managed entity. The service writes the row back into its table, so aliasing of managed entities is not modelled.
- Filter.ListSort: `List.sort` is a merge sort (TimSort). The model sorts with an insertion sort, proved equal to the same stable-sort specification.
- Filter.SortFilter.Apply: the key is a real-valued extractor. `Comparable` keys other than decimals are not modelled.
