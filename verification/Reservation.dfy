/** The part of `createOrder` between the locking read and the first write: the length check that stands in
    for a duplicate check, the quantity map, and the loop that checks and subtracts stock in place. */
module Reservation {
  import opened Domain

  function IdList(items: seq<OrderItemDto>): (ids: seq<ProductId>)
    ensures |ids| == |items|
    ensures forall i :: 0 <= i < |items| ==> ids[i] == items[i].id
  {
    seq(|items|, i requires 0 <= i < |items| => items[i].id)
  }

  function Elems(xs: seq<ProductId>): set<ProductId> {
    set i | 0 <= i < |xs| :: xs[i]
  }

  predicate Distinct(xs: seq<ProductId>) {
    forall i, j :: 0 <= i < j < |xs| ==> xs[i] != xs[j]
  }

  function Ids(items: seq<OrderItemDto>): set<ProductId> {
    Elems(IdList(items))
  }

  /** `new Map(dto.items.map(i => [i.id, i.qty]))`: a later pair overwrites an earlier one. */
  function QtyOf(items: seq<OrderItemDto>): (qty: map<ProductId, int>)
    ensures qty.Keys == Ids(items)
    decreases |items|
  {
    if items == [] then map[]
    else
      var front, last := items[..|items| - 1], items[|items| - 1];
      assert Ids(items) == Ids(front) + {last.id} by {
        var ids := IdList(items);
        assert forall i :: 0 <= i < |front| ==> IdList(front)[i] == ids[i];
        forall p | p in Ids(items) ensures p in Ids(front) + {last.id} {
          var i :| 0 <= i < |ids| && ids[i] == p;
          assert i < |front| ==> IdList(front)[i] == p;
        }
      }
      QtyOf(front)[last.id := last.qty]
  }

  /** The quantity the loop looks up for a product. The loop only looks up ids of the request. */
  function Asked(items: seq<OrderItemDto>, p: ProductId): int {
    var qty := QtyOf(items);
    if p in qty then qty[p] else 0
  }

  /** What `findByIds` may return: every requested id that exists, once each, in any order. */
  predicate IsScan(plan: seq<ProductId>, items: seq<OrderItemDto>, catalog: set<ProductId>) {
    Distinct(plan) && Elems(plan) == Ids(items) * catalog
  }

  /** The item rows and product rows the loop produces from the locked rows. */
  function Lines(items: seq<OrderItemDto>, rows: map<ProductId, Product>): map<ProductId, OrderItem> {
    map p | p in rows :: OrderItem(Asked(items, p), rows[p].price)
  }

  function Deduct(items: seq<OrderItemDto>, rows: map<ProductId, Product>): map<ProductId, Product> {
    map p | p in rows :: Product(rows[p].stock - Asked(items, p), rows[p].price)
  }

  // ---- The length check -------------------------------------------------------------------------------

  lemma {:induction false} ElemsCardinality(xs: seq<ProductId>)
    ensures |Elems(xs)| <= |xs|
    ensures |Elems(xs)| == |xs| <==> Distinct(xs)
    decreases |xs|
  {
    if xs != [] {
      var front, last := xs[..|xs| - 1], xs[|xs| - 1];
      ElemsCardinality(front);
      assert Elems(xs) == Elems(front) + {last};
      if last in Elems(front) {
        var i :| 0 <= i < |front| && front[i] == last;
        assert xs[i] == xs[|xs| - 1];
        assert Elems(xs) == Elems(front);
      } else {
        assert forall i :: 0 <= i < |front| ==> front[i] in Elems(front);
        assert Distinct(front) ==> Distinct(xs);
        assert Distinct(xs) ==> Distinct(front);
      }
    }
  }

  lemma SubsetCardinality<T>(a: set<T>, b: set<T>)
    requires a <= b
    ensures |a| <= |b|
    ensures |a| == |b| ==> a == b
  {
    assert b == a + (b - a);
    assert |b| == |a| + |b - a|;
  }

  /** `products.length !== dto.items.length` rejects exactly the requests that repeat an id or name an unknown
      product; the count it reports is then positive. */
  lemma LengthCheckExact(plan: seq<ProductId>, items: seq<OrderItemDto>, catalog: set<ProductId>)
    requires IsScan(plan, items, catalog)
    ensures |plan| == |items| <==> Distinct(IdList(items)) && Ids(items) <= catalog
    ensures |plan| != |items| ==> |items| - |plan| > 0
    ensures |plan| == |Ids(items) * catalog|
  {
    ElemsCardinality(plan);
    ElemsCardinality(IdList(items));
    SubsetCardinality(Ids(items) * catalog, Ids(items));
    assert |plan| == |Elems(plan)| && |IdList(items)| == |items|;
    assert Ids(items) * catalog == Ids(items) <==> Ids(items) <= catalog;
  }

  /** With distinct ids the quantity map keeps every item's own quantity. */
  lemma {:induction false} AskedIsOwnQty(items: seq<OrderItemDto>, i: nat)
    requires i < |items| && Distinct(IdList(items))
    ensures Asked(items, items[i].id) == items[i].qty
    decreases |items|
  {
    var front, last := items[..|items| - 1], items[|items| - 1];
    assert IdList(items)[i] in Ids(items);
    if i < |front| {
      assert IdList(front) == IdList(items)[..|front|];
      assert IdList(items)[i] != IdList(items)[|items| - 1];
      AskedIsOwnQty(front, i);
      assert IdList(front)[i] in Ids(front);
    }
  }

  /** Past the length check, the item rows are exactly one per requested item, with its own quantity and the
      price of the locked product row. */
  lemma OneLinePerItem(plan: seq<ProductId>, items: seq<OrderItemDto>, catalog: set<ProductId>, rows: map<ProductId,
                       Product>)
    requires IsScan(plan, items, catalog) && |plan| == |items|
    requires rows.Keys == Elems(plan)
    ensures Lines(items, rows).Keys == Ids(items)
    ensures |Lines(items, rows)| == |items|
    ensures forall i :: 0 <= i < |items| ==>
              items[i].id in rows && Lines(items, rows)[items[i].id] == OrderItem(items[i].qty, rows[items[i].id].price)
  {
    LengthCheckExact(plan, items, catalog);
    ElemsCardinality(plan);
    assert Ids(items) * catalog == Ids(items);
    assert Lines(items, rows).Keys == rows.Keys;
    assert |Lines(items, rows)| == |Lines(items, rows).Keys|;
    forall i | 0 <= i < |items|
      ensures items[i].id in rows && Lines(items, rows)[items[i].id] == OrderItem(items[i].qty, rows[items[i].id].price)
    {
      assert IdList(items)[i] in Ids(items);
      AskedIsOwnQty(items, i);
    }
  }

  // ---- The loop, in place on the loaded entities --------------------------------------------------------

  /** A `Product` entity as TypeORM hands it out: one mutable object per row. */
  class ProductEntity {
    const id: ProductId
    var stock: int
    const price: Price

    constructor (id: ProductId, row: Product)
      ensures this.id == id && stock == row.stock && price == row.price
    {
      this.id, this.stock, this.price := id, row.stock, row.price;
    }
  }

  datatype PartialItem = PartialItem(orderId: OrderId, productId: ProductId, qty: int, purchasePrice: Price)

  datatype Shortage = Shortage(index: nat, id: ProductId, asked: int, stock: int)

  /** The loop of `createOrder`. It stops at the first product whose stock is below the asked quantity; the
      entities before it are already reduced in memory and the rest are untouched. */
  method ReserveStock(orderId: OrderId, products: seq<ProductEntity>, dtoIdToQty: map<ProductId, int>)
    returns (short: Option<Shortage>, partialItems: seq<PartialItem>)
    requires forall i, j :: 0 <= i < j < |products| ==> products[i] != products[j]
    requires forall i :: 0 <= i < |products| ==> products[i].id in dtoIdToQty
    modifies products
    ensures short.None? <==> forall i :: 0 <= i < |products| ==> dtoIdToQty[products[i].id] <= old(products[i].stock)
    ensures short.Some? ==>
              var k := short.value.index;
              && k < |products|
              && (forall i :: 0 <= i < k ==> dtoIdToQty[products[i].id] <= old(products[i].stock))
              && short.value == Shortage(k, products[k].id, dtoIdToQty[products[k].id], old(products[k].stock))
              && old(products[k].stock) < dtoIdToQty[products[k].id]
    ensures var n := if short.Some? then short.value.index else |products|;
            && |partialItems| == n
            && (forall i :: 0 <= i < n ==>
                  && products[i].stock == old(products[i].stock) - dtoIdToQty[products[i].id]
                  && partialItems[i]
                     == PartialItem(orderId, products[i].id, dtoIdToQty[products[i].id], products[i].price))
            && (forall i :: n <= i < |products| ==> products[i].stock == old(products[i].stock))
  {
    partialItems := [];
    var k := 0;
    while k < |products|
      invariant 0 <= k <= |products| == |products|
      invariant |partialItems| == k
      invariant forall i :: 0 <= i < k ==> dtoIdToQty[products[i].id] <= old(products[i].stock)
      invariant forall i :: 0 <= i < k ==> products[i].stock == old(products[i].stock) - dtoIdToQty[products[i].id]
      invariant forall i :: 0 <= i < k ==>
                  partialItems[i] == PartialItem(orderId, products[i].id, dtoIdToQty[products[i].id], products[i].price)
      invariant forall i :: k <= i < |products| ==> products[i].stock == old(products[i].stock)
    {
      var p := products[k];
      var askedQty := dtoIdToQty[p.id];
      if p.stock < askedQty {
        short := Some(Shortage(k, p.id, askedQty, p.stock));
        return;
      }
      partialItems := partialItems + [PartialItem(orderId, p.id, askedQty, p.price)];
      p.stock := p.stock - askedQty;
      k := k + 1;
    }
    short := None;
  }
}
