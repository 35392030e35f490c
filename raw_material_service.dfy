/**
 * RawMaterialService: listing, lookup, create, update and delete of raw
 * materials
 * over the shared database. Failures are returned as the exception the
 * service throws, and leave every table as it was.
 */
module RawMaterialService {
  import opened Wrappers
  import opened Text
  import opened Table
  import opened Filter
  import opened Entity
  import opened Dto
  import opened Exceptions
  import opened RawMaterialMapper
  import opened Persistence
  import Listing
  import RR = RawMaterialRepository
  import LR = ProductRawMaterialRepository

  function Name(m: RawMaterial): string {
    m.name
  }

  function StockQuantity(m: RawMaterial): real {
    m.stockQuantity
  }

  class RawMaterialService {
    const db: Database

    constructor(db: Database)
      ensures this.db == db
    {
      this.db := db;
    }

    /**
     * findAll: the page of raw materials whose name contains the search, the
     * total found before paging, and the page sorted by stock quantity only
     * when sortBy is "stockQuantity" and a direction is given.
     */
    method FindAll(pageNumber: nat, pageSize: nat, search: Option<string>,
                   sortBy: Option<string>, sortDirection: Option<string>)
      returns (r: PageResponse<RawMaterialResponseDto>)
      ensures var rows := Listing.PageRows(db.rawMaterials, Name, search, pageNumber, pageSize,
                                           StockQuantity, "stockQuantity", sortBy, sortDirection);
        && |r.content| == |rows|
        && (forall i :: 0 <= i < |rows| ==> r.content[i] == ToResponseDto(rows[i]))
      ensures r.totalElements == |Listing.Searched(db.rawMaterials, Name, search)|
      ensures r.pageNumber == pageNumber && r.pageSize == pageSize
    {
      ghost var rows := Listing.PageRows(db.rawMaterials, Name, search, pageNumber, pageSize,
                                         StockQuantity, "stockQuantity", sortBy, sortDirection);
      var query := SearchFilter("name", search).Apply(Query.FindAll);
      var found := Select(query, db.rawMaterials, Name);
      var totalElements := |found|;
      var page := PageOf(found, pageNumber, pageSize);
      var rawMaterials := new RawMaterial[|page|](i requires 0 <= i < |page| => page[i]);
      assert rawMaterials[..] == page;
      if sortBy == Some("stockQuantity") && sortDirection.Some? && sortDirection.value != "" {
        var filter := SortFilter.By(StockQuantity, sortDirection);
        filter.Apply(rawMaterials);
      }
      var listed := rawMaterials[..];
      assert listed == rows;
      var content := seq(|listed|, i requires 0 <= i < |listed| => ToResponseDto(listed[i]));
      r := PageResponse(content, pageNumber, pageSize, totalElements);
    }

    /** findById: the raw material with that id, or ResourceNotFound. */
    function FindById(id: int): (r: Result<RawMaterialResponseDto, AppException>)
      reads db
      ensures r.Err? <==> !RR.ExistsById(db.rawMaterials, id)
      ensures r.Err? ==> r.error == ResourceNotFound(NotFoundById("Raw Material", id))
      ensures r.Ok? ==> exists i :: 0 <= i < |db.rawMaterials| && db.rawMaterials[i].id == Some(id)
                                    && r.value == ToResponseDto(db.rawMaterials[i])
    {
      match RR.FindByIdOptional(db.rawMaterials, id)
      case None => Err(ResourceNotFound(NotFoundById("Raw Material", id)))
      case Some(rawMaterial) => Ok(ToResponseDto(rawMaterial))
    }

    /**
     * create: refused as a duplicate when a raw material of that name exists
     * in any letter case; otherwise exactly one raw material is added,
     * carrying the request's name and stock quantity and the next id.
     */
    method Create(dto: RawMaterialRequestDto) returns (r: Result<RawMaterialResponseDto, AppException>)
      requires db.Valid() && ValidRawMaterialRequest(dto)
      modifies db
      ensures db.Valid()
      ensures db.products == old(db.products) && db.links == old(db.links)
      ensures db.nextProductId == old(db.nextProductId) && db.nextLinkId == old(db.nextLinkId)
      ensures RR.ExistsByName(old(db.rawMaterials), dto.name.value) ==>
        && r == Err(DuplicateResource(DuplicateValue("Raw Material", "name", dto.name.value)))
        && db.rawMaterials == old(db.rawMaterials) && db.nextRawMaterialId == old(db.nextRawMaterialId)
      ensures !RR.ExistsByName(old(db.rawMaterials), dto.name.value) ==>
        var saved := RawMaterial(Some(old(db.nextRawMaterialId)), dto.name.value, dto.stockQuantity.value);
        && db.rawMaterials == old(db.rawMaterials) + [saved]
        && db.nextRawMaterialId == old(db.nextRawMaterialId) + 1
        && r == Ok(ToResponseDto(saved))
    {
      if RR.ExistsByName(db.rawMaterials, dto.name.value) {
        return Err(DuplicateResource(DuplicateValue("Raw Material", "name", dto.name.value)));
      }
      var rawMaterial := ToEntity(dto);
      MaterialSaved(db.products, db.rawMaterials, db.links, db.nextProductId, db.nextRawMaterialId, db.nextLinkId, rawMaterial);
      // persist: the IDENTITY column hands out the next id
      rawMaterial := rawMaterial.(id := Some(db.nextRawMaterialId));
      db.rawMaterials := db.rawMaterials + [rawMaterial];
      db.nextRawMaterialId := db.nextRawMaterialId + 1;
      r := Ok(ToResponseDto(rawMaterial));
    }

    /**
     * update: ResourceNotFound for an unknown id; a duplicate when another
     * raw material holds the name in any letter case; otherwise that raw
     * material alone takes the request's name and stock and keeps its id.
     */
    method Update(id: int, dto: RawMaterialRequestDto) returns (r: Result<RawMaterialResponseDto, AppException>)
      requires db.Valid() && ValidRawMaterialRequest(dto)
      modifies db
      ensures db.Valid()
      ensures db.products == old(db.products) && db.links == old(db.links)
      ensures db.nextRawMaterialId == old(db.nextRawMaterialId)
      ensures db.nextProductId == old(db.nextProductId) && db.nextLinkId == old(db.nextLinkId)
      ensures !RR.ExistsById(old(db.rawMaterials), id) ==>
        r == Err(ResourceNotFound(NotFoundById("Raw Material", id))) && db.rawMaterials == old(db.rawMaterials)
      ensures RR.ExistsById(old(db.rawMaterials), id) && RR.ExistsByNameAndIdNot(old(db.rawMaterials), dto.name.value, id) ==>
        r == Err(DuplicateResource(DuplicateValue("Raw Material", "name", dto.name.value))) && db.rawMaterials == old(db.rawMaterials)
      ensures RR.ExistsById(old(db.rawMaterials), id) && !RR.ExistsByNameAndIdNot(old(db.rawMaterials), dto.name.value, id) ==>
        && r == Ok(RawMaterialResponseDto(Some(id), dto.name.value, dto.stockQuantity.value))
        && |db.rawMaterials| == |old(db.rawMaterials)|
        && forall k :: 0 <= k < |db.rawMaterials| ==>
             db.rawMaterials[k] == if old(db.rawMaterials)[k].id == Some(id) then UpdateEntityFromDto(old(db.rawMaterials)[k], dto)
                               else old(db.rawMaterials)[k]
    {
      var found := RR.FindByIdOptional(db.rawMaterials, id);
      if found.None? {
        return Err(ResourceNotFound(NotFoundById("Raw Material", id)));
      }
      if RR.ExistsByNameAndIdNot(db.rawMaterials, dto.name.value, id) {
        return Err(DuplicateResource(DuplicateValue("Raw Material", "name", dto.name.value)));
      }
      // the managed row is the one with that id; its new state is flushed in place
      var i := MaterialRow(db.rawMaterials, id);
      var rawMaterial := UpdateEntityFromDto(db.rawMaterials[i], dto);
      MaterialUpdated(db.products, db.rawMaterials, db.links, db.nextProductId, db.nextRawMaterialId, db.nextLinkId, i, rawMaterial);
      db.rawMaterials := db.rawMaterials[i := rawMaterial];
      r := Ok(ToResponseDto(rawMaterial));
    }

    /**
     * delete: ResourceNotFound for an unknown id; ReferentialIntegrity while
     * a bill-of-materials line names the raw material; otherwise exactly
     * that raw material is removed.
     */
    method Delete(id: int) returns (r: Result<(), AppException>)
      requires db.Valid()
      modifies db
      ensures db.Valid()
      ensures db.products == old(db.products) && db.links == old(db.links)
      ensures db.nextRawMaterialId == old(db.nextRawMaterialId)
      ensures db.nextProductId == old(db.nextProductId) && db.nextLinkId == old(db.nextLinkId)
      ensures !RR.ExistsById(old(db.rawMaterials), id) ==>
        r == Err(ResourceNotFound(NotFoundById("Raw Material", id))) && db.rawMaterials == old(db.rawMaterials)
      ensures RR.ExistsById(old(db.rawMaterials), id) && LR.HasRawMaterialLinks(old(db.links), id) ==>
        && r == Err(ReferentialIntegrity(Text("Cannot delete raw material because it is linked to products")))
        && db.rawMaterials == old(db.rawMaterials)
      ensures RR.ExistsById(old(db.rawMaterials), id) && !LR.HasRawMaterialLinks(old(db.links), id) ==>
        && r == Ok(())
        && !RR.ExistsById(db.rawMaterials, id)
        && exists i :: 0 <= i < |old(db.rawMaterials)| && old(db.rawMaterials)[i].id == Some(id)
                       && db.rawMaterials == old(db.rawMaterials)[..i] + old(db.rawMaterials)[i + 1..]
    {
      var found := RR.FindByIdOptional(db.rawMaterials, id);
      if found.None? {
        return Err(ResourceNotFound(NotFoundById("Raw Material", id)));
      }
      if LR.HasRawMaterialLinks(db.links, id) {
        return Err(ReferentialIntegrity(Text("Cannot delete raw material because it is linked to products")));
      }
      var i := MaterialRow(db.rawMaterials, id);
      MaterialDeleted(db.products, db.rawMaterials, db.links, db.nextProductId, db.nextRawMaterialId, db.nextLinkId, i);
      db.rawMaterials := db.rawMaterials[..i] + db.rawMaterials[i + 1..];
      r := Ok(());
    }
  }
}
