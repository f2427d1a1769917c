/** Entities shared by order creation and order processing. UUIDs are natural numbers: only equality
    matters. A price is the decimal string the database column holds; no arithmetic is done on it. */
module Domain {
  type UserId = nat
  type IdempotencyKey = nat
  type ProductId = nat
  type OrderId = nat
  type Price = string

  datatype Option<+T> = None | Some(value: T)

  datatype OrderItemDto = OrderItemDto(id: ProductId, qty: int)

  /** One call of `createOrder`: the authenticated user, the header key and the body. */
  datatype Request = Request(userId: UserId, key: IdempotencyKey, items: seq<OrderItemDto>)

  datatype Product = Product(stock: int, price: Price)

  datatype OrderItem = OrderItem(qty: int, purchasePrice: Price)

  /** An order row with its item rows. `(order_id, product_id)` is the primary key of an item, so the items of
      one order are a map. */
  datatype Order = Order(id: OrderId, userId: UserId, key: IdempotencyKey, items: map<ProductId, OrderItem>)

  function RequestKey(r: Request): (UserId, IdempotencyKey) {
    (r.userId, r.key)
  }

  function OrderKey(o: Order): (UserId, IdempotencyKey) {
    (o.userId, o.key)
  }

  /** There is always an id above all used ones. */
  lemma {:induction false} UnusedId(used: set<nat>) returns (n: nat)
    ensures forall m :: m in used ==> m < n
    decreases |used|
  {
    if used == {} {
      n := 0;
    } else {
      var m :| m in used;
      var k := UnusedId(used - {m});
      n := if m < k then k else m + 1;
      assert forall x :: x in used ==> x == m || x in used - {m};
    }
  }

  // ---- Sums -------------------------------------------------------------------------------------------------

  ghost function Sum(m: map<nat, nat>): nat
    decreases |m|
  {
    if m == map[] then 0
    else
      var k :| k in m;
      m[k] + Sum(m - {k})
  }

  /** The sum does not depend on the order of summation. */
  lemma {:induction false} SumAt(m: map<nat, nat>, k: nat)
    requires k in m
    ensures Sum(m) == m[k] + Sum(m - {k})
    decreases |m|
  {
    var j :| j in m && Sum(m) == m[j] + Sum(m - {j});
    if j != k {
      SumAt(m - {j}, k);
      SumAt(m - {k}, j);
      assert m - {j} - {k} == m - {k} - {j};
    }
  }

  lemma SumPut(m: map<nat, nat>, k: nat, v: nat)
    ensures Sum(m[k := v]) == Sum(m) + v - (if k in m then m[k] else 0)
  {
    SumAt(m[k := v], k);
    if k in m {
      SumAt(m, k);
      assert m[k := v] - {k} == m - {k};
    } else {
      assert m[k := v] - {k} == m;
    }
  }
}
