/** The one-request-at-a-time shop: what a client may be told and what a success changes, without any
    transaction, lock, loop or quantity map. Concurrent order creation is proved equal to runs of this. */
module SequentialShop {
  import opened Domain
  import opened Reservation

  datatype Reply =
    | Created(order: Order)
    | Duplicate(order: Order)
    | CannotFindProducts(missing: int)
    | NotEnoughItems(id: ProductId, asked: int, stock: int)
    | Failed

  type TxId = nat

  /** A reply at its linearization point. */
  datatype Event = Event(tid: TxId, req: Request, reply: Reply)

  /** The committed tables, orders in commit order. */
  datatype Shop = Shop(products: map<ProductId, Product>, orders: seq<Order>)

  predicate HasKey(orders: seq<Order>, k: (UserId, IdempotencyKey)) {
    exists i :: 0 <= i < |orders| && OrderKey(orders[i]) == k
  }

  predicate HasId(orders: seq<Order>, oid: OrderId) {
    exists i :: 0 <= i < |orders| && orders[i].id == oid
  }

  predicate Orderable(shop: Shop, req: Request) {
    !HasKey(shop.orders, RequestKey(req)) && req.items != []
    && Distinct(IdList(req.items)) && Ids(req.items) <= shop.products.Keys
  }

  predicate InStock(shop: Shop, item: OrderItemDto) {
    item.id in shop.products && item.qty <= shop.products[item.id].stock
  }

  /** The replies the shop may give to a request. */
  predicate Allowed(shop: Shop, req: Request, reply: Reply) {
    match reply
    case Duplicate(o) => o in shop.orders && OrderKey(o) == RequestKey(req)
    case CannotFindProducts(n) =>
      && !HasKey(shop.orders, RequestKey(req)) && req.items != []
      && n == |req.items| - |Ids(req.items) * shop.products.Keys| && n > 0
    case NotEnoughItems(p, asked, stock) =>
      && Orderable(shop, req)
      && OrderItemDto(p, asked) in req.items && p in shop.products && shop.products[p].stock == stock < asked
    case Created(o) =>
      && Orderable(shop, req)
      && OrderKey(o) == RequestKey(req) && !HasId(shop.orders, o.id)
      && (forall i :: 0 <= i < |req.items| ==> InStock(shop, req.items[i]))
      && o.items.Keys == Ids(req.items)
      && (forall i :: 0 <= i < |req.items| ==>
            && req.items[i].id in o.items && req.items[i].id in shop.products
            && o.items[req.items[i].id] == OrderItem(req.items[i].qty, shop.products[req.items[i].id].price))
    case Failed => false
  }

  function Qty(o: Order, p: ProductId): int {
    if p in o.items then o.items[p].qty else 0
  }

  function Effect(shop: Shop, reply: Reply): Shop {
    if reply.Created?
    then Shop(map p | p in shop.products :: shop.products[p].(stock := shop.products[p].stock - Qty(reply.order, p)),
              shop.orders + [reply.order])
    else shop
  }

  function Replay(shop: Shop, log: seq<Event>): Shop
    decreases |log|
  {
    if log == [] then shop else Effect(Replay(shop, log[..|log| - 1]), log[|log| - 1].reply)
  }

  /** Every reply is allowed in the state left by the replies before it. */
  predicate Serial(shop: Shop, log: seq<Event>)
    decreases |log|
  {
    log != [] ==>
      var front, e := log[..|log| - 1], log[|log| - 1];
      Serial(shop, front) && Allowed(Replay(shop, front), e.req, e.reply)
  }

  lemma SerialSnoc(shop: Shop, log: seq<Event>, e: Event)
    requires Serial(shop, log) && Allowed(Replay(shop, log), e.req, e.reply)
    ensures Serial(shop, log + [e])
    ensures Replay(shop, log + [e]) == Effect(Replay(shop, log), e.reply)
  {
  }

  /** The same, said of each position. */
  lemma {:induction false} SerialAt(shop: Shop, log: seq<Event>, i: nat)
    requires Serial(shop, log) && i < |log|
    ensures Allowed(Replay(shop, log[..i]), log[i].req, log[i].reply)
    decreases |log|
  {
    if i < |log| - 1 {
      SerialAt(shop, log[..|log| - 1], i);
      assert log[..|log| - 1][..i] == log[..i];
    }
  }

  // ---- The specification decides every request ----------------------------------------------------------

  /** Whether a request succeeds, and why not, depends on the tables alone: two allowed replies are the same,
      except for the generated id and for which short product is named. */
  lemma RepliesAgree(shop: Shop, req: Request, a: Reply, b: Reply)
    requires forall i, j :: 0 <= i < j < |shop.orders| ==> OrderKey(shop.orders[i]) != OrderKey(shop.orders[j])
    requires Allowed(shop, req, a) && Allowed(shop, req, b)
    ensures a.Created? ==> b.Created? && b.order == a.order.(id := b.order.id)
    ensures a.Duplicate? || a.CannotFindProducts? ==> b == a
    ensures a.NotEnoughItems? ==> b.NotEnoughItems?
  {
    if a.CannotFindProducts? && (b.Created? || b.NotEnoughItems?) {
      CountFound(shop, req);
    }
    if b.CannotFindProducts? && (a.Created? || a.NotEnoughItems?) {
      CountFound(shop, req);
    }
    if a.Created? && b.Created? {
      forall p | p in Ids(req.items) ensures a.order.items[p] == b.order.items[p] {
        var i :| 0 <= i < |req.items| && IdList(req.items)[i] == p;
        assert req.items[i].id == p;
      }
      assert a.order.items == b.order.items;
    }
  }

  lemma CountFound(shop: Shop, req: Request)
    requires Distinct(IdList(req.items)) && Ids(req.items) <= shop.products.Keys
    ensures |Ids(req.items) * shop.products.Keys| == |req.items|
  {
    ElemsCardinality(IdList(req.items));
    assert Ids(req.items) * shop.products.Keys == Ids(req.items);
  }

  /** Some reply is always allowed, unless the request names nothing. */
  lemma SomeReply(shop: Shop, req: Request, oid: OrderId) returns (reply: Reply)
    requires req.items != [] && !HasId(shop.orders, oid)
    ensures Allowed(shop, req, reply)
  {
    if HasKey(shop.orders, RequestKey(req)) {
      var i :| 0 <= i < |shop.orders| && OrderKey(shop.orders[i]) == RequestKey(req);
      reply := Duplicate(shop.orders[i]);
    } else if !Orderable(shop, req) {
      ElemsCardinality(IdList(req.items));
      SubsetCardinality(Ids(req.items) * shop.products.Keys, Ids(req.items));
      reply := CannotFindProducts(|req.items| - |Ids(req.items) * shop.products.Keys|);
    } else if i :| 0 <= i < |req.items| && !InStock(shop, req.items[i]) {
      assert IdList(req.items)[i] in Ids(req.items);
      reply := NotEnoughItems(req.items[i].id, req.items[i].qty, shop.products[req.items[i].id].stock);
    } else {
      var rows := map p | p in Ids(req.items) :: shop.products[p];
      reply := Created(Order(oid, req.userId, req.key, Lines(req.items, rows)));
      forall i | 0 <= i < |req.items|
        ensures req.items[i].id in Ids(req.items) && Asked(req.items, req.items[i].id) == req.items[i].qty
      {
        assert IdList(req.items)[i] in Ids(req.items);
        AskedIsOwnQty(req.items, i);
      }
    }
  }

  // ---- What every serial log keeps ----------------------------------------------------------------------

  /** How much of a product a sequence of orders took. */
  function Sold(orders: seq<Order>, p: ProductId): int
    decreases |orders|
  {
    if orders == [] then 0 else Sold(orders[..|orders| - 1], p) + Qty(orders[|orders| - 1], p)
  }

  lemma SoldSnoc(orders: seq<Order>, o: Order, p: ProductId)
    ensures Sold(orders + [o], p) == Sold(orders, p) + Qty(o, p)
  {
  }

  lemma AllowedCovers(shop: Shop, req: Request, reply: Reply, p: ProductId)
    requires Allowed(shop, req, reply) && reply.Created? && p in shop.products && p in reply.order.items
    ensures Qty(reply.order, p) <= shop.products[p].stock
  {
  }

  /** `now` is `shop` after some successful orders: nothing but stock and orders differ, the stock that left a
      row is in a new order, and a stock that was not negative still is not. */
  predicate Conserves(shop: Shop, now: Shop, p: ProductId) {
    && shop.orders <= now.orders
    && p in shop.products && p in now.products
    && now.products[p].price == shop.products[p].price
    && shop.products[p].stock == now.products[p].stock + Sold(now.orders[|shop.orders|..], p)
    && (shop.products[p].stock >= 0 ==> now.products[p].stock >= 0)
  }

  lemma EffectConserves(shop: Shop, before: Shop, req: Request, reply: Reply, p: ProductId)
    requires Conserves(shop, before, p) && Allowed(before, req, reply)
    ensures Conserves(shop, Effect(before, reply), p)
  {
    if reply.Created? {
      var n := |shop.orders|;
      assert (before.orders + [reply.order])[n..] == before.orders[n..] + [reply.order];
      SoldSnoc(before.orders[n..], reply.order, p);
      if p in reply.order.items {
        AllowedCovers(before, req, reply, p);
      }
    }
  }

  /** Conservation in every serial log, for every quantity, also a zero or negative one. */
  lemma {:induction false} SerialConserves(shop: Shop, log: seq<Event>, p: ProductId)
    requires Serial(shop, log) && p in shop.products
    ensures Conserves(shop, Replay(shop, log), p)
    decreases |log|
  {
    if log == [] {
      assert shop.orders[|shop.orders|..] == [];
    } else {
      var e := log[|log| - 1];
      SerialConserves(shop, log[..|log| - 1], p);
      EffectConserves(shop, Replay(shop, log[..|log| - 1]), e.req, e.reply, p);
    }
  }
}
