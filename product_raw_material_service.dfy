/**
 * ProductRawMaterialService: the bill of materials of a product, one line
 * per raw material it consumes with the quantity one unit needs. Lines are
 * listed by product, looked up, added, re-quantified and removed by their
 * (product, raw material) pair.
 */
module ProductRawMaterialService {
  import opened Wrappers
  import opened Text
  import opened Table
  import opened Entity
  import opened Dto
  import opened Exceptions
  import opened Persistence
  import ProductRawMaterialMapper
  import PR = ProductRepository
  import RR = RawMaterialRepository
  import LR = ProductRawMaterialRepository

  const AssociationPrefix := "Association between Product "
  const AssociationMiddle := " and Raw Material "
  const AssociationSuffix := " not found"

  /** The not-found text for a pair: both ids rendered in decimal with %d. */
  function AssociationNotFound(productId: int, rawMaterialId: int): string {
    AssociationPrefix + (Decimal(productId) + (AssociationMiddle + (Decimal(rawMaterialId) + AssociationSuffix)))
  }

  /** The not-found text names its pair unambiguously: different pairs give different texts. */
  lemma {:induction false} AssociationNotFoundInjective(productId: int, rawMaterialId: int, productId': int, rawMaterialId': int)
    requires AssociationNotFound(productId, rawMaterialId) == AssociationNotFound(productId', rawMaterialId')
    ensures productId == productId' && rawMaterialId == rawMaterialId'
  {
    var tail := Decimal(rawMaterialId) + AssociationSuffix;
    var tail' := Decimal(rawMaterialId') + AssociationSuffix;
    DropPrefix(AssociationPrefix, Decimal(productId) + (AssociationMiddle + tail), Decimal(productId') + (AssociationMiddle + tail'));
    assert !IsNumeral(AssociationMiddle[0]) && !IsNumeral(AssociationSuffix[0]);
    NumeralSplit(Decimal(productId), AssociationMiddle + tail, Decimal(productId'), AssociationMiddle + tail');
    DecimalInjective(productId, productId');
    DropPrefix(AssociationMiddle, tail, tail');
    NumeralSplit(Decimal(rawMaterialId), AssociationSuffix, Decimal(rawMaterialId'), AssociationSuffix);
    DecimalInjective(rawMaterialId, rawMaterialId');
  }

  /** The duplicate text: the raw material's name, then the product's, each in single quotes. */
  function AlreadyAssociated(rawMaterialName: string, productName: string): string {
    "Raw Material '" + rawMaterialName + "' is already associated with Product '" + productName + "'"
  }

  /**
   * A response renders a line when it carries the line's id, keys and
   * quantity, and the names of the product and raw material those keys name.
   */
  ghost predicate Renders(products: seq<Product>, materials: seq<RawMaterial>,
                          line: ProductRawMaterial, r: ProductRawMaterialResponseDto) {
    && r.id == line.id && r.quantityNeeded == line.quantityNeeded
    && r.productId == Some(line.productId) && r.rawMaterialId == Some(line.rawMaterialId)
    && (exists i :: 0 <= i < |products| && products[i].id == Some(line.productId) && products[i].name == r.productName)
    && (exists j :: 0 <= j < |materials| && materials[j].id == Some(line.rawMaterialId)
                    && materials[j].name == r.rawMaterialName)
  }

  /** With unique ids, a line has exactly one rendering. */
  lemma {:induction false} RenderingIsUnique(products: seq<Product>, materials: seq<RawMaterial>, line: ProductRawMaterial,
                          r: ProductRawMaterialResponseDto, r': ProductRawMaterialResponseDto)
    requires PR.UniqueIds(products) && RR.UniqueIds(materials)
    requires Renders(products, materials, line, r) && Renders(products, materials, line, r')
    ensures r == r'
  {
    var i :| 0 <= i < |products| && products[i].id == Some(line.productId) && products[i].name == r.productName;
    var i' :| 0 <= i' < |products| && products[i'].id == Some(line.productId) && products[i'].name == r'.productName;
    assert i == i';
    var j :| 0 <= j < |materials| && materials[j].id == Some(line.rawMaterialId) && materials[j].name == r.rawMaterialName;
    var j' :| 0 <= j' < |materials| && materials[j'].id == Some(line.rawMaterialId) && materials[j'].name == r'.rawMaterialName;
    assert j == j';
  }

  /**
   * ProductRawMaterialMapper.toResponseDTO on a line whose product and raw
   * material are the rows its foreign keys name.
   */
  function LineResponse(products: seq<Product>, materials: seq<RawMaterial>, line: ProductRawMaterial)
    : (r: ProductRawMaterialResponseDto)
    requires PR.ExistsById(products, line.productId) && RR.ExistsById(materials, line.rawMaterialId)
    ensures Renders(products, materials, line, r)
  {
    var product := PR.FindByIdOptional(products, line.productId).value;
    var rawMaterial := RR.FindByIdOptional(materials, line.rawMaterialId).value;
    ProductRawMaterialMapper.ToResponseDto(line, product, rawMaterial)
  }

  /** Every stored line names rows that exist, so every stored line can be rendered. */
  lemma {:induction false} StoredLinesResolve(db: Database, lines: seq<ProductRawMaterial>)
    requires db.Valid()
    requires forall i :: 0 <= i < |lines| ==> lines[i] in db.links
    ensures forall i :: 0 <= i < |lines| ==>
      PR.ExistsById(db.products, lines[i].productId) && RR.ExistsById(db.rawMaterials, lines[i].rawMaterialId)
  {
    var products, materials := db.products, db.rawMaterials;
    DrawnKeeps(db.links, lines, (l: ProductRawMaterial) =>
      PR.ExistsById(products, l.productId) && RR.ExistsById(materials, l.rawMaterialId));
  }

  /** `stream().map(ProductRawMaterialMapper::toResponseDTO)` over lines that resolve. */
  function LineResponses(products: seq<Product>, materials: seq<RawMaterial>, lines: seq<ProductRawMaterial>)
    : (r: seq<ProductRawMaterialResponseDto>)
    requires forall i :: 0 <= i < |lines| ==>
      PR.ExistsById(products, lines[i].productId) && RR.ExistsById(materials, lines[i].rawMaterialId)
    ensures |r| == |lines|
    ensures forall i :: 0 <= i < |lines| ==> Renders(products, materials, lines[i], r[i])
  {
    seq(|lines|, i requires 0 <= i < |lines| => LineResponse(products, materials, lines[i]))
  }

  /** A page of a product's lines holds stored lines of that product only. */
  lemma {:induction false} PagedLines(links: seq<ProductRawMaterial>, productId: int, pageNumber: nat, pageSize: nat)
    ensures var lines := PageOf(LR.FindByProductId(links, productId), pageNumber, pageSize);
      forall i :: 0 <= i < |lines| ==> lines[i] in links && lines[i].productId == productId
  {
    var found := LR.FindByProductId(links, productId);
    var lines := PageOf(found, pageNumber, pageSize);
    forall i | 0 <= i < |lines| ensures lines[i] in links && lines[i].productId == productId {
      assert lines[i] == found[pageNumber * pageSize + i];
    }
  }

  class ProductRawMaterialService {
    const db: Database

    constructor(db: Database)
      ensures this.db == db
    {
      this.db := db;
    }

    /**
     * findByProductId: ResourceNotFound for an unknown product; otherwise
     * the requested page of the product's lines in table order, and the
     * number of all its lines.
     */
    function FindByProductId(productId: int, pageNumber: nat, pageSize: nat)
      : (r: Result<PageResponse<ProductRawMaterialResponseDto>, AppException>)
      reads db
      requires db.Valid()
      ensures r.Err? <==> !PR.ExistsById(db.products, productId)
      ensures r.Err? ==> r.error == ResourceNotFound(NotFoundById("Product", productId))
      ensures r.Ok? ==>
        var lines := PageOf(LR.FindByProductId(db.links, productId), pageNumber, pageSize);
        && r.value.totalElements == LR.CountByProductId(db.links, productId)
        && r.value.pageNumber == pageNumber && r.value.pageSize == pageSize
        && |r.value.content| == |lines| <= pageSize
        && forall i :: 0 <= i < |lines| ==>
             && Renders(db.products, db.rawMaterials, lines[i], r.value.content[i])
             && r.value.content[i].productId == Some(productId)
    {
      if PR.FindByIdOptional(db.products, productId).None? then
        Err(ResourceNotFound(NotFoundById("Product", productId)))
      else
        var totalElements := LR.CountByProductId(db.links, productId);
        var lines := PageOf(LR.FindByProductId(db.links, productId), pageNumber, pageSize);
        PagedLines(db.links, productId, pageNumber, pageSize);
        StoredLinesResolve(db, lines);
        var content := LineResponses(db.products, db.rawMaterials, lines);
        Ok(PageResponse(content, pageNumber, pageSize, totalElements))
    }

    /** findByProductIdAndRawMaterialId: the pair's line, or ResourceNotFound naming both ids. */
    function FindByProductIdAndRawMaterialId(productId: int, rawMaterialId: int)
      : (r: Result<ProductRawMaterialResponseDto, AppException>)
      reads db
      requires db.Valid()
      ensures r.Err? <==> !LR.ExistsByProductIdAndRawMaterialId(db.links, productId, rawMaterialId)
      ensures r.Err? ==> r.error == ResourceNotFound(Text(AssociationNotFound(productId, rawMaterialId)))
      ensures r.Ok? ==> exists i :: 0 <= i < |db.links| && LR.IsPair(db.links[i], productId, rawMaterialId)
                                    && Renders(db.products, db.rawMaterials, db.links[i], r.value)
    {
      match LR.FindByProductIdAndRawMaterialId(db.links, productId, rawMaterialId)
      case None => Err(ResourceNotFound(Text(AssociationNotFound(productId, rawMaterialId))))
      case Some(line) =>
        StoredLinesResolve(db, [line]);
        Ok(LineResponse(db.products, db.rawMaterials, line))
    }

    /**
     * addRawMaterialToProduct: the product must exist, then the raw
     * material, then the pair must be new; otherwise exactly one line is
     * added with the request's quantity and the next id.
     */
    method AddRawMaterialToProduct(productId: int, dto: ProductRawMaterialRequestDto)
      returns (r: Result<ProductRawMaterialResponseDto, AppException>)
      requires db.Valid() && ValidProductRawMaterialRequest(dto)
      modifies db
      ensures db.Valid()
      ensures db.products == old(db.products) && db.rawMaterials == old(db.rawMaterials)
      ensures db.nextProductId == old(db.nextProductId) && db.nextRawMaterialId == old(db.nextRawMaterialId)
      ensures !PR.ExistsById(db.products, productId) ==>
        && r == Err(ResourceNotFound(NotFoundById("Product", productId)))
        && db.links == old(db.links) && db.nextLinkId == old(db.nextLinkId)
      ensures PR.ExistsById(db.products, productId) && !RR.ExistsById(db.rawMaterials, dto.rawMaterialId.value) ==>
        && r == Err(ResourceNotFound(NotFoundById("Raw Material", dto.rawMaterialId.value)))
        && db.links == old(db.links) && db.nextLinkId == old(db.nextLinkId)
      ensures PR.ExistsById(db.products, productId) && RR.ExistsById(db.rawMaterials, dto.rawMaterialId.value)
              && LR.ExistsByProductIdAndRawMaterialId(old(db.links), productId, dto.rawMaterialId.value) ==>
        && r == Err(DuplicateResource(Text(AlreadyAssociated(
                 RR.FindByIdOptional(db.rawMaterials, dto.rawMaterialId.value).value.name,
                 PR.FindByIdOptional(db.products, productId).value.name))))
        && db.links == old(db.links) && db.nextLinkId == old(db.nextLinkId)
      ensures PR.ExistsById(db.products, productId) && RR.ExistsById(db.rawMaterials, dto.rawMaterialId.value)
              && !LR.ExistsByProductIdAndRawMaterialId(old(db.links), productId, dto.rawMaterialId.value) ==>
        var saved := ProductRawMaterial(Some(old(db.nextLinkId)), productId, dto.rawMaterialId.value, dto.quantityNeeded.value);
        && db.links == old(db.links) + [saved]
        && db.nextLinkId == old(db.nextLinkId) + 1
        && r.Ok? && Renders(db.products, db.rawMaterials, saved, r.value)
    {
      var product := PR.FindByIdOptional(db.products, productId);
      if product.None? {
        return Err(ResourceNotFound(NotFoundById("Product", productId)));
      }
      var rawMaterialId := dto.rawMaterialId.value;
      var rawMaterial := RR.FindByIdOptional(db.rawMaterials, rawMaterialId);
      if rawMaterial.None? {
        return Err(ResourceNotFound(NotFoundById("Raw Material", rawMaterialId)));
      }
      if LR.ExistsByProductIdAndRawMaterialId(db.links, productId, rawMaterialId) {
        return Err(DuplicateResource(Text(AlreadyAssociated(rawMaterial.value.name, product.value.name))));
      }
      var line := ProductRawMaterial(None, productId, rawMaterialId, dto.quantityNeeded.value);
      LineSaved(db.products, db.rawMaterials, db.links, db.nextProductId, db.nextRawMaterialId, db.nextLinkId, line);
      // persist: the IDENTITY column hands out the next id
      line := line.(id := Some(db.nextLinkId));
      var response := LineResponse(db.products, db.rawMaterials, line);
      db.links := db.links + [line];
      db.nextLinkId := db.nextLinkId + 1;
      r := Ok(response);
    }

    /**
     * updateQuantity: ResourceNotFound naming both ids for an unknown pair;
     * otherwise that pair's line alone takes the request's quantity. The
     * request's rawMaterialId is not consulted.
     */
    method UpdateQuantity(productId: int, rawMaterialId: int, dto: ProductRawMaterialRequestDto)
      returns (r: Result<ProductRawMaterialResponseDto, AppException>)
      requires db.Valid() && ValidProductRawMaterialRequest(dto)
      modifies db
      ensures db.Valid()
      ensures db.products == old(db.products) && db.rawMaterials == old(db.rawMaterials)
      ensures db.nextProductId == old(db.nextProductId) && db.nextRawMaterialId == old(db.nextRawMaterialId)
      ensures db.nextLinkId == old(db.nextLinkId)
      ensures !LR.ExistsByProductIdAndRawMaterialId(old(db.links), productId, rawMaterialId) ==>
        r == Err(ResourceNotFound(Text(AssociationNotFound(productId, rawMaterialId)))) && db.links == old(db.links)
      ensures LR.ExistsByProductIdAndRawMaterialId(old(db.links), productId, rawMaterialId) ==>
        && |db.links| == |old(db.links)|
        && (forall k :: 0 <= k < |db.links| ==>
              db.links[k] == if LR.IsPair(old(db.links)[k], productId, rawMaterialId)
                             then old(db.links)[k].(quantityNeeded := dto.quantityNeeded.value)
                             else old(db.links)[k])
        && exists i :: 0 <= i < |db.links| && LR.IsPair(db.links[i], productId, rawMaterialId)
                       && r.Ok? && Renders(db.products, db.rawMaterials, db.links[i], r.value)
    {
      var found := LR.FindByProductIdAndRawMaterialId(db.links, productId, rawMaterialId);
      if found.None? {
        return Err(ResourceNotFound(Text(AssociationNotFound(productId, rawMaterialId))));
      }
      // the managed line is the pair's; its new quantity is flushed in place
      var i := LineRow(db.links, productId, rawMaterialId);
      var line := db.links[i].(quantityNeeded := dto.quantityNeeded.value);
      LineQuantitySet(db.products, db.rawMaterials, db.links, db.nextProductId, db.nextRawMaterialId, db.nextLinkId, i, dto.quantityNeeded.value);
      StoredLinesResolve(db, [db.links[i]]);
      var response := LineResponse(db.products, db.rawMaterials, line);
      db.links := db.links[i := line];
      r := Ok(response);
    }

    /**
     * removeRawMaterialFromProduct: ResourceNotFound naming both ids for an
     * unknown pair; otherwise exactly that pair's line is deleted.
     */
    method RemoveRawMaterialFromProduct(productId: int, rawMaterialId: int) returns (r: Result<(), AppException>)
      requires db.Valid()
      modifies db
      ensures db.Valid()
      ensures db.products == old(db.products) && db.rawMaterials == old(db.rawMaterials)
      ensures db.nextProductId == old(db.nextProductId) && db.nextRawMaterialId == old(db.nextRawMaterialId)
      ensures db.nextLinkId == old(db.nextLinkId)
      ensures !LR.ExistsByProductIdAndRawMaterialId(old(db.links), productId, rawMaterialId) ==>
        r == Err(ResourceNotFound(Text(AssociationNotFound(productId, rawMaterialId)))) && db.links == old(db.links)
      ensures LR.ExistsByProductIdAndRawMaterialId(old(db.links), productId, rawMaterialId) ==>
        && r == Ok(())
        && db.links == LR.DeleteByProductIdAndRawMaterialId(old(db.links), productId, rawMaterialId)
        && exists i :: 0 <= i < |old(db.links)| && LR.IsPair(old(db.links)[i], productId, rawMaterialId)
                       && db.links == old(db.links)[..i] + old(db.links)[i + 1..]
    {
      if !LR.ExistsByProductIdAndRawMaterialId(db.links, productId, rawMaterialId) {
        return Err(ResourceNotFound(Text(AssociationNotFound(productId, rawMaterialId))));
      }
      var i := LineRow(db.links, productId, rawMaterialId);
      WhereDropsOne(db.links, (l: ProductRawMaterial) => !LR.IsPair(l, productId, rawMaterialId), i);
      LineDeleted(db.products, db.rawMaterials, db.links, db.nextProductId, db.nextRawMaterialId, db.nextLinkId, i);
      db.links := LR.DeleteByProductIdAndRawMaterialId(db.links, productId, rawMaterialId);
      r := Ok(());
    }
  }
}
