/**
 * ProductService: listing, lookup, create, update and delete of products
 * over the shared database. Failures are returned as the exception the
 * service throws, and leave every table as it was.
 */
module ProductService {
  import opened Wrappers
  import opened Text
  import opened Table
  import opened Filter
  import opened Entity
  import opened Dto
  import opened Exceptions
  import opened ProductMapper
  import opened Persistence
  import Listing
  import PR = ProductRepository
  import LR = ProductRawMaterialRepository

  function Name(p: Product): string {
    p.name
  }

  function Value(p: Product): real {
    p.value
  }

  class ProductService {
    const db: Database

    constructor(db: Database)
      ensures this.db == db
    {
      this.db := db;
    }

    /**
     * findAll: the page of products whose name contains the search, the
     * total found before paging, and the page sorted by value only when
     * sortBy is "value" and a direction is given.
     */
    method FindAll(pageNumber: nat, pageSize: nat, search: Option<string>,
                   sortBy: Option<string>, sortDirection: Option<string>)
      returns (r: PageResponse<ProductResponseDto>)
      ensures var rows := Listing.PageRows(db.products, Name, search, pageNumber, pageSize,
                                           Value, "value", sortBy, sortDirection);
        && |r.content| == |rows|
        && (forall i :: 0 <= i < |rows| ==> r.content[i] == ToResponseDto(rows[i]))
      ensures r.totalElements == |Listing.Searched(db.products, Name, search)|
      ensures r.pageNumber == pageNumber && r.pageSize == pageSize
    {
      ghost var rows := Listing.PageRows(db.products, Name, search, pageNumber, pageSize,
                                         Value, "value", sortBy, sortDirection);
      var query := SearchFilter("name", search).Apply(Query.FindAll);
      var found := Select(query, db.products, Name);
      var totalElements := |found|;
      var page := PageOf(found, pageNumber, pageSize);
      var products := new Product[|page|](i requires 0 <= i < |page| => page[i]);
      assert products[..] == page;
      if sortBy == Some("value") && sortDirection.Some? && sortDirection.value != "" {
        var filter := SortFilter.By(Value, sortDirection);
        filter.Apply(products);
      }
      var listed := products[..];
      assert listed == rows;
      var content := seq(|listed|, i requires 0 <= i < |listed| => ToResponseDto(listed[i]));
      r := PageResponse(content, pageNumber, pageSize, totalElements);
    }

    /** findById: the product with that id, or ResourceNotFound. */
    function FindById(id: int): (r: Result<ProductResponseDto, AppException>)
      reads db
      ensures r.Err? <==> !PR.ExistsById(db.products, id)
      ensures r.Err? ==> r.error == ResourceNotFound(NotFoundById("Product", id))
      ensures r.Ok? ==> exists i :: 0 <= i < |db.products| && db.products[i].id == Some(id)
                                    && r.value == ToResponseDto(db.products[i])
    {
      match PR.FindByIdOptional(db.products, id)
      case None => Err(ResourceNotFound(NotFoundById("Product", id)))
      case Some(product) => Ok(ToResponseDto(product))
    }

    /**
     * create: refused as a duplicate when a product of that name exists in
     * any letter case; otherwise exactly one product is added, carrying the
     * request's name and value and the next id.
     */
    method Create(dto: ProductRequestDto) returns (r: Result<ProductResponseDto, AppException>)
      requires db.Valid() && ValidProductRequest(dto)
      modifies db
      ensures db.Valid()
      ensures db.rawMaterials == old(db.rawMaterials) && db.links == old(db.links)
      ensures db.nextRawMaterialId == old(db.nextRawMaterialId) && db.nextLinkId == old(db.nextLinkId)
      ensures PR.ExistsByName(old(db.products), dto.name.value) ==>
        && r == Err(DuplicateResource(DuplicateValue("Product", "name", dto.name.value)))
        && db.products == old(db.products) && db.nextProductId == old(db.nextProductId)
      ensures !PR.ExistsByName(old(db.products), dto.name.value) ==>
        var saved := Product(Some(old(db.nextProductId)), dto.name.value, dto.value.value);
        && db.products == old(db.products) + [saved]
        && db.nextProductId == old(db.nextProductId) + 1
        && r == Ok(ToResponseDto(saved))
    {
      if PR.ExistsByName(db.products, dto.name.value) {
        return Err(DuplicateResource(DuplicateValue("Product", "name", dto.name.value)));
      }
      var product := ToEntity(dto);
      ProductSaved(db.products, db.rawMaterials, db.links, db.nextProductId, db.nextRawMaterialId, db.nextLinkId, product);
      // persist: the IDENTITY column hands out the next id
      product := product.(id := Some(db.nextProductId));
      db.products := db.products + [product];
      db.nextProductId := db.nextProductId + 1;
      r := Ok(ToResponseDto(product));
    }

    /**
     * update: ResourceNotFound for an unknown id; a duplicate when another
     * product holds the name in any letter case; otherwise that product
     * alone takes the request's name and value and keeps its id.
     */
    method Update(id: int, dto: ProductRequestDto) returns (r: Result<ProductResponseDto, AppException>)
      requires db.Valid() && ValidProductRequest(dto)
      modifies db
      ensures db.Valid()
      ensures db.rawMaterials == old(db.rawMaterials) && db.links == old(db.links)
      ensures db.nextProductId == old(db.nextProductId)
      ensures db.nextRawMaterialId == old(db.nextRawMaterialId) && db.nextLinkId == old(db.nextLinkId)
      ensures !PR.ExistsById(old(db.products), id) ==>
        r == Err(ResourceNotFound(NotFoundById("Product", id))) && db.products == old(db.products)
      ensures PR.ExistsById(old(db.products), id) && PR.ExistsByNameAndIdNot(old(db.products), dto.name.value, id) ==>
        r == Err(DuplicateResource(DuplicateValue("Product", "name", dto.name.value))) && db.products == old(db.products)
      ensures PR.ExistsById(old(db.products), id) && !PR.ExistsByNameAndIdNot(old(db.products), dto.name.value, id) ==>
        && r == Ok(ProductResponseDto(Some(id), dto.name.value, dto.value.value))
        && |db.products| == |old(db.products)|
        && forall k :: 0 <= k < |db.products| ==>
             db.products[k] == if old(db.products)[k].id == Some(id) then UpdateEntityFromDto(old(db.products)[k], dto)
                               else old(db.products)[k]
    {
      var found := PR.FindByIdOptional(db.products, id);
      if found.None? {
        return Err(ResourceNotFound(NotFoundById("Product", id)));
      }
      if PR.ExistsByNameAndIdNot(db.products, dto.name.value, id) {
        return Err(DuplicateResource(DuplicateValue("Product", "name", dto.name.value)));
      }
      // the managed row is the one with that id; its new state is flushed in place
      var i := ProductRow(db.products, id);
      var product := UpdateEntityFromDto(db.products[i], dto);
      ProductUpdated(db.products, db.rawMaterials, db.links, db.nextProductId, db.nextRawMaterialId, db.nextLinkId, i, product);
      db.products := db.products[i := product];
      r := Ok(ToResponseDto(product));
    }

    /**
     * delete: ResourceNotFound for an unknown id; ReferentialIntegrity while
     * a bill-of-materials line names the product; otherwise exactly that
     * product is removed.
     */
    method Delete(id: int) returns (r: Result<(), AppException>)
      requires db.Valid()
      modifies db
      ensures db.Valid()
      ensures db.rawMaterials == old(db.rawMaterials) && db.links == old(db.links)
      ensures db.nextProductId == old(db.nextProductId)
      ensures db.nextRawMaterialId == old(db.nextRawMaterialId) && db.nextLinkId == old(db.nextLinkId)
      ensures !PR.ExistsById(old(db.products), id) ==>
        r == Err(ResourceNotFound(NotFoundById("Product", id))) && db.products == old(db.products)
      ensures PR.ExistsById(old(db.products), id) && LR.HasProductLinks(old(db.links), id) ==>
        && r == Err(ReferentialIntegrity(Text("Cannot delete product because it has linked raw materials")))
        && db.products == old(db.products)
      ensures PR.ExistsById(old(db.products), id) && !LR.HasProductLinks(old(db.links), id) ==>
        && r == Ok(())
        && !PR.ExistsById(db.products, id)
        && exists i :: 0 <= i < |old(db.products)| && old(db.products)[i].id == Some(id)
                       && db.products == old(db.products)[..i] + old(db.products)[i + 1..]
    {
      var found := PR.FindByIdOptional(db.products, id);
      if found.None? {
        return Err(ResourceNotFound(NotFoundById("Product", id)));
      }
      if LR.HasProductLinks(db.links, id) {
        return Err(ReferentialIntegrity(Text("Cannot delete product because it has linked raw materials")));
      }
      var i := ProductRow(db.products, id);
      ProductDeleted(db.products, db.rawMaterials, db.links, db.nextProductId, db.nextRawMaterialId, db.nextLinkId, i);
      db.products := db.products[..i] + db.products[i + 1..];
      r := Ok(());
    }
  }
}
