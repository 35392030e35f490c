/**
 * The database the services work on: the products, raw_materials and
 * product_raw_materials tables with their IDENTITY counters, and the
 * integrity the services keep: persisted rows have ids below the
 * counter and no two share one, names are unique ignoring case, there is
 * at most one line per (product, raw material) pair, every line's foreign
 * keys name existing rows, and the stored amounts meet the bounds the
 * validated requests impose.
 */
module Persistence {
  import opened Wrappers
  import opened Text
  import opened Table
  import opened Entity
  import PR = ProductRepository
  import RR = RawMaterialRepository
  import LR = ProductRawMaterialRepository

  predicate ProductsOk(products: seq<Product>, nextId: int) {
    && 1 <= nextId
    && (forall i :: 0 <= i < |products| ==> products[i].id.Some? && 1 <= products[i].id.value < nextId)
    && (forall i :: 0 <= i < |products| ==> products[i].value >= 0.01)
    && PR.UniqueIds(products)
    && PR.UniqueNames(products)
  }

  predicate MaterialsOk(materials: seq<RawMaterial>, nextId: int) {
    && 1 <= nextId
    && (forall i :: 0 <= i < |materials| ==> materials[i].id.Some? && 1 <= materials[i].id.value < nextId)
    && (forall i :: 0 <= i < |materials| ==> materials[i].stockQuantity >= 0.0)
    && RR.UniqueIds(materials)
    && RR.UniqueNames(materials)
  }

  predicate LinksOk(links: seq<ProductRawMaterial>, nextId: int, products: seq<Product>, materials: seq<RawMaterial>) {
    && 1 <= nextId
    && (forall i :: 0 <= i < |links| ==> links[i].id.Some? && 1 <= links[i].id.value < nextId)
    && (forall i, j :: 0 <= i < j < |links| ==> links[i].id != links[j].id)
    && LR.UniquePairs(links)
    && (forall i :: 0 <= i < |links| ==>
          PR.ExistsById(products, links[i].productId) && RR.ExistsById(materials, links[i].rawMaterialId))
    && (forall i :: 0 <= i < |links| ==> links[i].quantityNeeded >= 0.01)
  }

  /** The integrity of the three tables and their counters, taken together. */
  predicate Consistent(products: seq<Product>, materials: seq<RawMaterial>, links: seq<ProductRawMaterial>,
                       nextProductId: int, nextRawMaterialId: int, nextLinkId: int) {
    && ProductsOk(products, nextProductId)
    && MaterialsOk(materials, nextRawMaterialId)
    && LinksOk(links, nextLinkId, products, materials)
  }

  /** The position of the product row with that id: the entity the persistence context manages. */
  function ProductRow(products: seq<Product>, id: int): (i: int)
    requires PR.ExistsById(products, id)
    ensures 0 <= i < |products| && products[i].id == Some(id)
  {
    IndexWhere(products, (p: Product) => p.id == Some(id))
  }

  /** The position of the raw-material row with that id. */
  function MaterialRow(materials: seq<RawMaterial>, id: int): (i: int)
    requires RR.ExistsById(materials, id)
    ensures 0 <= i < |materials| && materials[i].id == Some(id)
  {
    IndexWhere(materials, (m: RawMaterial) => m.id == Some(id))
  }

  /** The position of the one line of a pair: the entity the persistence context manages. */
  function LineRow(links: seq<ProductRawMaterial>, productId: int, rawMaterialId: int): (i: int)
    requires LR.UniquePairs(links) && LR.ExistsByProductIdAndRawMaterialId(links, productId, rawMaterialId)
    ensures 0 <= i < |links|
    ensures forall k :: 0 <= k < |links| ==> (LR.IsPair(links[k], productId, rawMaterialId) <==> k == i)
  {
    IndexWhere(links, (l: ProductRawMaterial) => LR.IsPair(l, productId, rawMaterialId))
  }

  class Database {
    var products: seq<Product>
    var rawMaterials: seq<RawMaterial>
    var links: seq<ProductRawMaterial>
    var nextProductId: int
    var nextRawMaterialId: int
    var nextLinkId: int

    ghost predicate Valid()
      reads this
    {
      Consistent(products, rawMaterials, links, nextProductId, nextRawMaterialId, nextLinkId)
    }

    /** Empty tables whose IDENTITY columns start at 1. */
    constructor()
      ensures Valid()
      ensures products == [] && rawMaterials == [] && links == []
    {
      products := [];
      rawMaterials := [];
      links := [];
      nextProductId := 1;
      nextRawMaterialId := 1;
      nextLinkId := 1;
    }
  }

  // ---------------------------------------------------------------------------
  // How each kind of write keeps a table's integrity
  // ---------------------------------------------------------------------------

  /** Persisting a product under a fresh name takes the next id. */
  lemma {:induction false} ProductsAppend(products: seq<Product>, nextId: int, p: Product)
    requires ProductsOk(products, nextId)
    requires p.value >= 0.01 && !PR.ExistsByName(products, p.name)
    ensures ProductsOk(products + [p.(id := Some(nextId))], nextId + 1)
    ensures forall id :: PR.ExistsById(products, id) ==> PR.ExistsById(products + [p.(id := Some(nextId))], id)
  {
    var s := products + [p.(id := Some(nextId))];
    forall id | PR.ExistsById(products, id) ensures PR.ExistsById(s, id) {
      var i :| 0 <= i < |products| && products[i].id == Some(id);
      assert s[i] == products[i];
    }
  }

  /** Rewriting a product's name and value keeps integrity when no other product holds the name. */
  lemma {:induction false} ProductsReplace(products: seq<Product>, nextId: int, i: int, row: Product)
    requires ProductsOk(products, nextId) && 0 <= i < |products|
    requires row.id == products[i].id && row.value >= 0.01
    requires !PR.ExistsByNameAndIdNot(products, row.name, row.id.value)
    ensures ProductsOk(products[i := row], nextId)
    ensures forall id :: PR.ExistsById(products[i := row], id) <==> PR.ExistsById(products, id)
    ensures forall k :: 0 <= k < |products| ==> (products[k].id == products[i].id <==> k == i)
  {
    var s := products[i := row];
    assert forall k :: 0 <= k < |products| ==> (products[k].id == products[i].id <==> k == i);
    assert ProductsOk(s, nextId) by {
      forall k | 0 <= k < |products| && k != i ensures products[k].id != row.id && !EqualsIgnoreCase(products[k].name, row.name) {
        assert products[k].id.Some? && products[k].id.value != row.id.value;
      }
      ReplaceKeeps(products, i, row, s, (p: Product) => p.id.Some? && 1 <= p.id.value < nextId && p.value >= 0.01,
                   ((p: Product, q: Product) => p.id != q.id && !EqualsIgnoreCase(p.name, q.name)));
    }
    ProductsReplaceIds(products, i, row);
  }

  /** Overwriting a row with one of the same id keeps the set of ids. */
  lemma {:induction false} ProductsReplaceIds(products: seq<Product>, i: int, row: Product)
    requires 0 <= i < |products| && row.id == products[i].id
    ensures forall id :: PR.ExistsById(products[i := row], id) <==> PR.ExistsById(products, id)
  {
    var s := products[i := row];
    forall id ensures PR.ExistsById(s, id) <==> PR.ExistsById(products, id) {
      if PR.ExistsById(products, id) {
        var j :| 0 <= j < |products| && products[j].id == Some(id);
        assert s[j].id == Some(id);
      }
      if PR.ExistsById(s, id) {
        var j :| 0 <= j < |s| && s[j].id == Some(id);
        assert products[j].id == Some(id);
      }
    }
  }

  /** Deleting row i keeps integrity, and exactly that row's id disappears. */
  lemma {:induction false} ProductsRemove(products: seq<Product>, nextId: int, i: int)
    requires ProductsOk(products, nextId) && 0 <= i < |products|
    ensures ProductsOk(products[..i] + products[i + 1..], nextId)
    ensures forall id :: PR.ExistsById(products[..i] + products[i + 1..], id)
                       <==> PR.ExistsById(products, id) && Some(id) != products[i].id
  {
    var s := products[..i] + products[i + 1..];
    assert ProductsOk(s, nextId) by {
      RemoveKeeps(products, i, (p: Product) => p.id.Some? && 1 <= p.id.value < nextId && p.value >= 0.01,
                  ((p: Product, q: Product) => p.id != q.id && !EqualsIgnoreCase(p.name, q.name)));
    }
    forall id ensures PR.ExistsById(s, id) <==> PR.ExistsById(products, id) && Some(id) != products[i].id {
      RemovedAt(products, i);
      if PR.ExistsById(products, id) && Some(id) != products[i].id {
        var j :| 0 <= j < |products| && products[j].id == Some(id);
        assert s[if j < i then j else j - 1] == products[j];
      }
    }
  }

  lemma {:induction false} MaterialsAppend(materials: seq<RawMaterial>, nextId: int, m: RawMaterial)
    requires MaterialsOk(materials, nextId)
    requires m.stockQuantity >= 0.0 && !RR.ExistsByName(materials, m.name)
    ensures MaterialsOk(materials + [m.(id := Some(nextId))], nextId + 1)
    ensures forall id :: RR.ExistsById(materials, id) ==> RR.ExistsById(materials + [m.(id := Some(nextId))], id)
  {
    var s := materials + [m.(id := Some(nextId))];
    forall id | RR.ExistsById(materials, id) ensures RR.ExistsById(s, id) {
      var i :| 0 <= i < |materials| && materials[i].id == Some(id);
      assert s[i] == materials[i];
    }
  }

  lemma {:induction false} MaterialsReplace(materials: seq<RawMaterial>, nextId: int, i: int, row: RawMaterial)
    requires MaterialsOk(materials, nextId) && 0 <= i < |materials|
    requires row.id == materials[i].id && row.stockQuantity >= 0.0
    requires !RR.ExistsByNameAndIdNot(materials, row.name, row.id.value)
    ensures MaterialsOk(materials[i := row], nextId)
    ensures forall id :: RR.ExistsById(materials[i := row], id) <==> RR.ExistsById(materials, id)
    ensures forall k :: 0 <= k < |materials| ==> (materials[k].id == materials[i].id <==> k == i)
  {
    var s := materials[i := row];
    assert forall k :: 0 <= k < |materials| ==> (materials[k].id == materials[i].id <==> k == i);
    assert MaterialsOk(s, nextId) by {
      forall k | 0 <= k < |materials| && k != i ensures materials[k].id != row.id && !EqualsIgnoreCase(materials[k].name, row.name) {
        assert materials[k].id.Some? && materials[k].id.value != row.id.value;
      }
      ReplaceKeeps(materials, i, row, s, (p: RawMaterial) => p.id.Some? && 1 <= p.id.value < nextId && p.stockQuantity >= 0.0,
                   ((p: RawMaterial, q: RawMaterial) => p.id != q.id && !EqualsIgnoreCase(p.name, q.name)));
    }
    MaterialsReplaceIds(materials, i, row);
  }

  /** Overwriting a row with one of the same id keeps the set of ids. */
  lemma {:induction false} MaterialsReplaceIds(materials: seq<RawMaterial>, i: int, row: RawMaterial)
    requires 0 <= i < |materials| && row.id == materials[i].id
    ensures forall id :: RR.ExistsById(materials[i := row], id) <==> RR.ExistsById(materials, id)
  {
    var s := materials[i := row];
    forall id ensures RR.ExistsById(s, id) <==> RR.ExistsById(materials, id) {
      if RR.ExistsById(materials, id) {
        var j :| 0 <= j < |materials| && materials[j].id == Some(id);
        assert s[j].id == Some(id);
      }
      if RR.ExistsById(s, id) {
        var j :| 0 <= j < |s| && s[j].id == Some(id);
        assert materials[j].id == Some(id);
      }
    }
  }

  lemma {:induction false} MaterialsRemove(materials: seq<RawMaterial>, nextId: int, i: int)
    requires MaterialsOk(materials, nextId) && 0 <= i < |materials|
    ensures MaterialsOk(materials[..i] + materials[i + 1..], nextId)
    ensures forall id :: RR.ExistsById(materials[..i] + materials[i + 1..], id)
                       <==> RR.ExistsById(materials, id) && Some(id) != materials[i].id
  {
    var s := materials[..i] + materials[i + 1..];
    assert MaterialsOk(s, nextId) by {
      RemoveKeeps(materials, i, (p: RawMaterial) => p.id.Some? && 1 <= p.id.value < nextId && p.stockQuantity >= 0.0,
                  ((p: RawMaterial, q: RawMaterial) => p.id != q.id && !EqualsIgnoreCase(p.name, q.name)));
    }
    forall id ensures RR.ExistsById(s, id) <==> RR.ExistsById(materials, id) && Some(id) != materials[i].id {
      RemovedAt(materials, i);
      if RR.ExistsById(materials, id) && Some(id) != materials[i].id {
        var j :| 0 <= j < |materials| && materials[j].id == Some(id);
        assert s[if j < i then j else j - 1] == materials[j];
      }
    }
  }

  /** Lines stay consistent when the tables they point into still hold every row they name. */
  lemma {:induction false} LinksRetarget(links: seq<ProductRawMaterial>, nextId: int,
                      products: seq<Product>, materials: seq<RawMaterial>,
                      products': seq<Product>, materials': seq<RawMaterial>)
    requires LinksOk(links, nextId, products, materials)
    requires forall j :: 0 <= j < |links| ==>
      PR.ExistsById(products', links[j].productId) && RR.ExistsById(materials', links[j].rawMaterialId)
    ensures LinksOk(links, nextId, products', materials')
  {
  }

  /** A new line for an unlinked pair of existing rows takes the next id. */
  lemma {:induction false} LinksAppend(links: seq<ProductRawMaterial>, nextId: int,
                    products: seq<Product>, materials: seq<RawMaterial>, l: ProductRawMaterial)
    requires LinksOk(links, nextId, products, materials)
    requires l.quantityNeeded >= 0.01
    requires PR.ExistsById(products, l.productId) && RR.ExistsById(materials, l.rawMaterialId)
    requires !LR.ExistsByProductIdAndRawMaterialId(links, l.productId, l.rawMaterialId)
    ensures LinksOk(links + [l.(id := Some(nextId))], nextId + 1, products, materials)
  {
    var s := links + [l.(id := Some(nextId))];
    forall j, k | 0 <= j < k < |s|
      ensures !(s[j].productId == s[k].productId && s[j].rawMaterialId == s[k].rawMaterialId)
    {
      if k == |links| {
        assert !LR.IsPair(links[j], l.productId, l.rawMaterialId);
      }
    }
  }

  /** Changing one line's quantity to a valid amount keeps integrity. */
  lemma {:induction false} LinksSetQuantity(links: seq<ProductRawMaterial>, nextId: int,
                         products: seq<Product>, materials: seq<RawMaterial>, i: int, q: real)
    requires LinksOk(links, nextId, products, materials) && 0 <= i < |links| && q >= 0.01
    ensures LinksOk(links[i := links[i].(quantityNeeded := q)], nextId, products, materials)
  {
    var s := links[i := links[i].(quantityNeeded := q)];
    assert forall k :: 0 <= k < |s| ==>
      s[k].id == links[k].id && s[k].productId == links[k].productId && s[k].rawMaterialId == links[k].rawMaterialId;
  }

  lemma {:induction false} LinksRemove(links: seq<ProductRawMaterial>, nextId: int,
                    products: seq<Product>, materials: seq<RawMaterial>, i: int)
    requires LinksOk(links, nextId, products, materials) && 0 <= i < |links|
    ensures LinksOk(links[..i] + links[i + 1..], nextId, products, materials)
  {
    RemoveKeeps(links, i,
      (l: ProductRawMaterial) =>
        && l.id.Some? && 1 <= l.id.value < nextId && l.quantityNeeded >= 0.01
        && PR.ExistsById(products, l.productId) && RR.ExistsById(materials, l.rawMaterialId),
      ((l: ProductRawMaterial, m: ProductRawMaterial) =>
        l.id != m.id && !(l.productId == m.productId && l.rawMaterialId == m.rawMaterialId)));
  }

  // ---------------------------------------------------------------------------
  // Each write the services make keeps the whole database consistent
  // ---------------------------------------------------------------------------

  /** Saving a product under a fresh name, with the next product id. */
  lemma {:induction false} ProductSaved(products: seq<Product>, materials: seq<RawMaterial>, links: seq<ProductRawMaterial>,
                                        nP: int, nM: int, nL: int, p: Product)
    requires Consistent(products, materials, links, nP, nM, nL)
    requires p.value >= 0.01 && !PR.ExistsByName(products, p.name)
    ensures Consistent(products + [p.(id := Some(nP))], materials, links, nP + 1, nM, nL)
  {
    ProductsAppend(products, nP, p);
    LinksRetarget(links, nL, products, materials, products + [p.(id := Some(nP))], materials);
  }

  /** Overwriting product i with a row of the same id whose name no other product holds. */
  lemma {:induction false} ProductUpdated(products: seq<Product>, materials: seq<RawMaterial>, links: seq<ProductRawMaterial>,
                                          nP: int, nM: int, nL: int, i: int, row: Product)
    requires Consistent(products, materials, links, nP, nM, nL) && 0 <= i < |products|
    requires row.id == products[i].id && row.value >= 0.01
    requires !PR.ExistsByNameAndIdNot(products, row.name, row.id.value)
    ensures Consistent(products[i := row], materials, links, nP, nM, nL)
    ensures forall k :: 0 <= k < |products| ==> (products[k].id == products[i].id <==> k == i)
  {
    ProductsReplace(products, nP, i, row);
    LinksRetarget(links, nL, products, materials, products[i := row], materials);
  }

  /** Deleting product i when no line names it; its id is then gone. */
  lemma {:induction false} ProductDeleted(products: seq<Product>, materials: seq<RawMaterial>, links: seq<ProductRawMaterial>,
                                          nP: int, nM: int, nL: int, i: int)
    requires Consistent(products, materials, links, nP, nM, nL) && 0 <= i < |products|
    requires products[i].id.Some? && !LR.HasProductLinks(links, products[i].id.value)
    ensures Consistent(products[..i] + products[i + 1..], materials, links, nP, nM, nL)
    ensures !PR.ExistsById(products[..i] + products[i + 1..], products[i].id.value)
  {
    var rest := products[..i] + products[i + 1..];
    ProductsRemove(products, nP, i);
    forall j | 0 <= j < |links| ensures PR.ExistsById(rest, links[j].productId) {
      assert links[j].productId != products[i].id.value;
    }
    LinksRetarget(links, nL, products, materials, rest, materials);
  }

  /** Saving a raw material under a fresh name, with the next raw-material id. */
  lemma {:induction false} MaterialSaved(products: seq<Product>, materials: seq<RawMaterial>, links: seq<ProductRawMaterial>,
                                         nP: int, nM: int, nL: int, m: RawMaterial)
    requires Consistent(products, materials, links, nP, nM, nL)
    requires m.stockQuantity >= 0.0 && !RR.ExistsByName(materials, m.name)
    ensures Consistent(products, materials + [m.(id := Some(nM))], links, nP, nM + 1, nL)
  {
    MaterialsAppend(materials, nM, m);
    LinksRetarget(links, nL, products, materials, products, materials + [m.(id := Some(nM))]);
  }

  /** Overwriting raw material i with a row of the same id whose name no other raw material holds. */
  lemma {:induction false} MaterialUpdated(products: seq<Product>, materials: seq<RawMaterial>, links: seq<ProductRawMaterial>,
                                           nP: int, nM: int, nL: int, i: int, row: RawMaterial)
    requires Consistent(products, materials, links, nP, nM, nL) && 0 <= i < |materials|
    requires row.id == materials[i].id && row.stockQuantity >= 0.0
    requires !RR.ExistsByNameAndIdNot(materials, row.name, row.id.value)
    ensures Consistent(products, materials[i := row], links, nP, nM, nL)
    ensures forall k :: 0 <= k < |materials| ==> (materials[k].id == materials[i].id <==> k == i)
  {
    MaterialsReplace(materials, nM, i, row);
    LinksRetarget(links, nL, products, materials, products, materials[i := row]);
  }

  /** Deleting raw material i when no line names it; its id is then gone. */
  lemma {:induction false} MaterialDeleted(products: seq<Product>, materials: seq<RawMaterial>, links: seq<ProductRawMaterial>,
                                           nP: int, nM: int, nL: int, i: int)
    requires Consistent(products, materials, links, nP, nM, nL) && 0 <= i < |materials|
    requires materials[i].id.Some? && !LR.HasRawMaterialLinks(links, materials[i].id.value)
    ensures Consistent(products, materials[..i] + materials[i + 1..], links, nP, nM, nL)
    ensures !RR.ExistsById(materials[..i] + materials[i + 1..], materials[i].id.value)
  {
    var rest := materials[..i] + materials[i + 1..];
    MaterialsRemove(materials, nM, i);
    forall j | 0 <= j < |links| ensures RR.ExistsById(rest, links[j].rawMaterialId) {
      assert links[j].rawMaterialId != materials[i].id.value;
    }
    LinksRetarget(links, nL, products, materials, products, rest);
  }

  /** Saving a line for an unlinked pair of existing rows, with the next line id. */
  lemma {:induction false} LineSaved(products: seq<Product>, materials: seq<RawMaterial>, links: seq<ProductRawMaterial>,
                                     nP: int, nM: int, nL: int, l: ProductRawMaterial)
    requires Consistent(products, materials, links, nP, nM, nL) && l.quantityNeeded >= 0.01
    requires PR.ExistsById(products, l.productId) && RR.ExistsById(materials, l.rawMaterialId)
    requires !LR.ExistsByProductIdAndRawMaterialId(links, l.productId, l.rawMaterialId)
    ensures Consistent(products, materials, links + [l.(id := Some(nL))], nP, nM, nL + 1)
  {
    LinksAppend(links, nL, products, materials, l);
  }

  /** Giving line i a valid quantity. */
  lemma {:induction false} LineQuantitySet(products: seq<Product>, materials: seq<RawMaterial>, links: seq<ProductRawMaterial>,
                                           nP: int, nM: int, nL: int, i: int, q: real)
    requires Consistent(products, materials, links, nP, nM, nL) && 0 <= i < |links| && q >= 0.01
    ensures Consistent(products, materials, links[i := links[i].(quantityNeeded := q)], nP, nM, nL)
  {
    LinksSetQuantity(links, nL, products, materials, i, q);
  }

  /** Deleting line i. */
  lemma {:induction false} LineDeleted(products: seq<Product>, materials: seq<RawMaterial>, links: seq<ProductRawMaterial>,
                                       nP: int, nM: int, nL: int, i: int)
    requires Consistent(products, materials, links, nP, nM, nL) && 0 <= i < |links|
    ensures Consistent(products, materials, links[..i] + links[i + 1..], nP, nM, nL)
  {
    LinksRemove(links, nL, products, materials, i);
  }
}
