/** Concurrent order creation as a labelled state machine: any number of `createOrder` transactions over one
    PostgreSQL database at READ COMMITTED. A label is one database statement (or one synchronous stretch of
    code) of one transaction; a label that is not enabled does nothing, so every sequence of labels is a run. */
module OrderProtocol {
  import opened Domain
  import opened Reservation
  import opened SequentialShop

  /** Where one transaction stands. `rows` are the product rows it has locked, as read. */
  datatype Phase =
    | Started                                         // transaction open; the order row is next
    | Rejected                                        // the insert raised 23505: this connection is aborted
    | Recovered(order: Order)                         // the existing order, read through another connection
    | Inserted(oid: OrderId)                          // the order row is inserted, not committed
    | Locking(oid: OrderId, plan: seq<ProductId>, next: nat, rows: map<ProductId, Product>)
    | Reserved(oid: OrderId, rows: map<ProductId, Product>)
    | ItemsSaved(oid: OrderId, rows: map<ProductId, Product>, items: map<ProductId, OrderItem>)
    | Written(oid: OrderId, rows: map<ProductId, Product>, items: map<ProductId, OrderItem>,
              stocks: map<ProductId, Product>)
    | Throwing(oid: OrderId, rows: map<ProductId, Product>, reply: Reply)   // a thrown error, not rolled back yet
    | Committed(order: Order)                         // committed; the message is not sent yet
    | Finished(reply: Reply)

  datatype Tx = Tx(req: Request, phase: Phase)

  /** `orders` holds the committed orders in commit order, `outbox` the orders whose message was sent. `busy` are
      the transactions that have a connection of the pool, `pool` is the number of its connections, busy or free:
      one that is not given back any more is no longer counted. */
  datatype State = State(
    products: map<ProductId, Product>,
    orders: seq<Order>,
    txs: map<TxId, Tx>,
    log: seq<Event>,
    outbox: seq<OrderId>,
    pool: nat,
    busy: set<TxId>)

  datatype Label =
    | Begin(t: TxId, req: Request)
    | Insert(t: TxId, oid: OrderId)
    | Reject(t: TxId)
    | Recover(t: TxId, at: nat)
    | EmptyQuery(t: TxId)
    | Scan(t: TxId, plan: seq<ProductId>)
    | Lock(t: TxId)
    | Missing(t: TxId)
    | Short(t: TxId, at: nat)
    | Reserve(t: TxId)
    | SaveItems(t: TxId)
    | SaveProducts(t: TxId)
    | Commit(t: TxId)
    | CommitUnseen(t: TxId)
    | Publish(t: TxId)
    | PublishFails(t: TxId)
    | Rollback(t: TxId)
    | Abort(t: TxId)
    | UseAborted(t: TxId)
    | Release(t: TxId)
    | Strand(t: TxId)

  /** The tables after seeding; no request has arrived yet. */
  predicate Init(s: State) {
    TablesOk(s.orders, []) && s.txs == map[] && s.log == [] && s.outbox == [] && s.busy == {}
  }

  /** The phases between the insert and the end of the transaction: the unique key is held. */
  predicate HoldsKey(ph: Phase) {
    ph.Inserted? || ph.Locking? || ph.Reserved? || ph.ItemsSaved? || ph.Written? || ph.Throwing?
  }

  /** The product rows locked FOR UPDATE. */
  function Rows(ph: Phase): map<ProductId, Product> {
    if HoldsKey(ph) && !ph.Inserted? then ph.rows else map[]
  }

  /** The transaction is open on the server. */
  predicate Open(ph: Phase) {
    HoldsKey(ph) || ph.Started? || ph.Rejected? || ph.Recovered?
  }

  predicate HasFree(s: State) {
    |s.busy| < s.pool
  }

  predicate KeyTaken(s: State, k: (UserId, IdempotencyKey)) {
    HasKey(s.orders, k)
  }

  predicate KeyHeldByOther(s: State, t: TxId, k: (UserId, IdempotencyKey)) {
    exists u | u in s.txs :: u != t && HoldsKey(s.txs[u].phase) && RequestKey(s.txs[u].req) == k
  }

  predicate LockedByOther(s: State, t: TxId, p: ProductId) {
    exists u | u in s.txs :: u != t && p in Rows(s.txs[u].phase)
  }

  /** A generated primary key differs from every committed and every uncommitted one. */
  predicate FreshId(s: State, oid: OrderId) {
    && (forall i :: 0 <= i < |s.orders| ==> s.orders[i].id != oid)
    && (forall u | u in s.txs :: HoldsKey(s.txs[u].phase) ==> s.txs[u].phase.oid != oid)
  }

  predicate AllLocked(ph: Phase) {
    ph.Locking? && ph.next == |ph.plan|
  }

  predicate Covered(items: seq<OrderItemDto>, rows: map<ProductId, Product>, p: ProductId) {
    p in rows && Asked(items, p) <= rows[p].stock
  }

  predicate Enabled(s: State, l: Label) {
    if l.Begin? then l.t !in s.txs && HasFree(s)                 // waits for a connection
    else if l.t !in s.txs then false
    else
      var ph, req := s.txs[l.t].phase, s.txs[l.t].req;
      match l
      case Begin(_, _) => false
      case Insert(t, oid) =>
        // waits while another open transaction holds the key
        ph.Started? && !KeyTaken(s, RequestKey(req)) && !KeyHeldByOther(s, t, RequestKey(req)) && FreshId(s, oid)
      case Reject(t) => ph.Started? && KeyTaken(s, RequestKey(req))
      case Recover(t, at) =>
        // waits for a second connection, used for this one query
        ph.Rejected? && HasFree(s) && at < |s.orders| && OrderKey(s.orders[at]) == RequestKey(req)
      case EmptyQuery(t) => ph.Inserted? && req.items == []       // `IN ()` is a syntax error
      case Scan(t, plan) => ph.Inserted? && req.items != [] && IsScan(plan, req.items, s.products.Keys)
      case Lock(t) =>
        ph.Locking? && ph.next < |ph.plan| && ph.plan[ph.next] in s.products && !LockedByOther(s, t, ph.plan[ph.next])
      case Missing(t) => AllLocked(ph) && |ph.plan| != |req.items|
      case Short(t, at) =>
        && AllLocked(ph) && |ph.plan| == |req.items| && at < |ph.plan|
        && (forall j :: 0 <= j < at ==> Covered(req.items, ph.rows, ph.plan[j]))
        && ph.plan[at] in ph.rows && !Covered(req.items, ph.rows, ph.plan[at])
      case Reserve(t) =>
        && AllLocked(ph) && |ph.plan| == |req.items|
        && (forall j :: 0 <= j < |ph.plan| ==> Covered(req.items, ph.rows, ph.plan[j]))
      case SaveItems(t) => ph.Reserved?
      case SaveProducts(t) => ph.ItemsSaved?
      case Commit(t) => ph.Written?
      case CommitUnseen(t) => ph.Written?                        // applied, but the client sees an error
      case Publish(t) => ph.Committed? && t !in s.busy           // only after `transaction` has returned
      case PublishFails(t) => ph.Committed? && t !in s.busy
      case Rollback(t) => ph.Throwing? || ph.Recovered?
      case Abort(t) => Open(ph)                                  // statement error, deadlock victim, crash
      case UseAborted(t) => ph.Rejected? || ph.Recovered?        // another statement after 23505: it throws
      case Release(t) => !Open(ph) && t in s.busy
      case Strand(t) => !Open(ph) && t in s.busy && s.pool > 0   // the rollback or the release threw
  }

  function SetPhase(s: State, t: TxId, ph: Phase): State
    requires t in s.txs
  {
    s.(txs := s.txs[t := s.txs[t].(phase := ph)])
  }

  function Note(s: State, t: TxId, reply: Reply): State
    requires t in s.txs
  {
    s.(log := s.log + [Event(t, s.txs[t].req, reply)])
  }

  function OrderOf(req: Request, ph: Phase): Order
    requires ph.Written?
  {
    Order(ph.oid, req.userId, req.key, ph.items)
  }

  /** COMMIT makes the order row, its item rows and the product rows visible at once. */
  function Install(s: State, t: TxId): State
    requires t in s.txs && s.txs[t].phase.Written?
  {
    var o := OrderOf(s.txs[t].req, s.txs[t].phase);
    Note(s, t, Created(o)).(products := s.products + s.txs[t].phase.stocks, orders := s.orders + [o])
  }

  function Next(s: State, l: Label): State
    requires Enabled(s, l)
  {
    if l.Begin? then s.(txs := s.txs[l.t := Tx(l.req, Started)], busy := s.busy + {l.t})
    else
      var ph, req := s.txs[l.t].phase, s.txs[l.t].req;
      match l
      case Begin(_, _) => s
      case Insert(t, oid) => SetPhase(s, t, Inserted(oid))
      case Reject(t) => SetPhase(s, t, Rejected)
      case Recover(t, at) => Note(SetPhase(s, t, Recovered(s.orders[at])), t, Duplicate(s.orders[at]))
      case EmptyQuery(t) => SetPhase(s, t, Throwing(ph.oid, map[], Failed))
      case Scan(t, plan) => SetPhase(s, t, Locking(ph.oid, plan, 0, map[]))
      case Lock(t) =>
        // the row returned is the latest committed one
        var p := ph.plan[ph.next];
        SetPhase(s, t, ph.(next := ph.next + 1, rows := ph.rows[p := s.products[p]]))
      case Missing(t) =>
        var r := CannotFindProducts(|req.items| - |ph.plan|);
        Note(SetPhase(s, t, Throwing(ph.oid, ph.rows, r)), t, r)
      case Short(t, at) =>
        var p := ph.plan[at];
        var r := NotEnoughItems(p, Asked(req.items, p), ph.rows[p].stock);
        Note(SetPhase(s, t, Throwing(ph.oid, ph.rows, r)), t, r)
      case Reserve(t) => SetPhase(s, t, Reserved(ph.oid, ph.rows))
      case SaveItems(t) => SetPhase(s, t, ItemsSaved(ph.oid, ph.rows, Lines(req.items, ph.rows)))
      case SaveProducts(t) => SetPhase(s, t, Written(ph.oid, ph.rows, ph.items, Deduct(req.items, ph.rows)))
      case Commit(t) => SetPhase(Install(s, t), t, Committed(OrderOf(req, ph)))
      case CommitUnseen(t) => SetPhase(Install(s, t), t, Finished(Failed))
      case Publish(t) => SetPhase(s, t, Finished(Created(ph.order))).(outbox := s.outbox + [ph.order.id])
      case PublishFails(t) => SetPhase(s, t, Finished(Failed))
      case Rollback(t) => SetPhase(s, t, Finished(if ph.Recovered? then Duplicate(ph.order) else ph.reply))
      case Abort(t) => SetPhase(s, t, Finished(Failed))
      case UseAborted(t) => SetPhase(s, t, Finished(Failed))
      case Release(t) => s.(busy := s.busy - {t})
      case Strand(t) => s.(busy := s.busy - {t}, pool := s.pool - 1)
  }

  function Step(s: State, l: Label): State {
    if Enabled(s, l) then Next(s, l) else s
  }

  /** The state after a run. */
  function Exec(s: State, run: seq<Label>): State
    decreases |run|
  {
    if run == [] then s else Step(Exec(s, run[..|run| - 1]), run[|run| - 1])
  }

  lemma ExecSnoc(s: State, run: seq<Label>, l: Label)
    ensures Exec(s, run + [l]) == Step(Exec(s, run), l)
  {
  }

  lemma {:induction false} ExecConcat(s: State, run1: seq<Label>, run2: seq<Label>)
    ensures Exec(s, run1 + run2) == Exec(Exec(s, run1), run2)
    decreases |run2|
  {
    if run2 == [] {
      assert run1 + run2 == run1;
    } else {
      ExecConcat(s, run1, run2[..|run2| - 1]);
      assert (run1 + run2)[..|run1 + run2| - 1] == run1 + run2[..|run2| - 1];
    }
  }

  // ---- The invariant -----------------------------------------------------------------------------------

  /** What the length check and the loop have established. */
  predicate Passed(req: Request, catalog: set<ProductId>, rows: map<ProductId, Product>) {
    && req.items != [] && Distinct(IdList(req.items)) && Ids(req.items) <= catalog
    && rows.Keys == Ids(req.items)
    && (forall p :: p in rows ==> Covered(req.items, rows, p))
  }

  predicate PhaseOk(s: State, req: Request, ph: Phase) {
    match ph
    case Started => true
    case Rejected => KeyTaken(s, RequestKey(req))
    case Recovered(o) => o in s.orders && OrderKey(o) == RequestKey(req)
    case Inserted(_) => true
    case Locking(_, plan, next, rows) =>
      && req.items != [] && IsScan(plan, req.items, s.products.Keys)
      && next <= |plan| && rows.Keys == Elems(plan[..next])
    case Reserved(_, rows) => Passed(req, s.products.Keys, rows)
    case ItemsSaved(_, rows, items) => Passed(req, s.products.Keys, rows) && items == Lines(req.items, rows)
    case Written(_, rows, items, stocks) =>
      Passed(req, s.products.Keys, rows) && items == Lines(req.items, rows) && stocks == Deduct(req.items, rows)
    case Throwing(_, _, reply) => !reply.Created? && !reply.Duplicate?
    case Committed(o) => o in s.orders && OrderKey(o) == RequestKey(req) && o.id !in s.outbox
    case Finished(reply) =>
      (reply.Created? || reply.Duplicate?) ==> reply.order in s.orders && OrderKey(reply.order) == RequestKey(req)
  }

  /** A holder's key and id are not committed; a locked row is the committed row, unchanged since it was read. */
  predicate HolderOk(s: State, req: Request, ph: Phase) {
    HoldsKey(ph) ==>
      && !KeyTaken(s, RequestKey(req))
      && (forall i :: 0 <= i < |s.orders| ==> s.orders[i].id != ph.oid)
      && (forall p :: p in Rows(ph) ==> p in s.products && s.products[p] == Rows(ph)[p])
  }

  predicate PairOk(a: Tx, b: Tx) {
    && (HoldsKey(a.phase) && HoldsKey(b.phase) ==>
          && RequestKey(a.req) != RequestKey(b.req)
          && a.phase.oid != b.phase.oid
          && Rows(a.phase).Keys !! Rows(b.phase).Keys)
    && (a.phase.Committed? && b.phase.Committed? ==> a.phase.order.id != b.phase.order.id)
  }

  predicate TablesOk(orders: seq<Order>, outbox: seq<OrderId>) {
    && (forall i, j :: 0 <= i < j < |orders| ==>
          orders[i].id != orders[j].id && OrderKey(orders[i]) != OrderKey(orders[j]))
    && Distinct(outbox)
    && (forall i :: 0 <= i < |outbox| ==> HasId(orders, outbox[i]))
  }

  predicate Inv(s: State) {
    && TablesOk(s.orders, s.outbox)
    && (forall t :: t in s.txs ==> PhaseOk(s, s.txs[t].req, s.txs[t].phase))
    && (forall t :: t in s.txs ==> HolderOk(s, s.txs[t].req, s.txs[t].phase))
    && (forall t, u :: t in s.txs && u in s.txs && t != u ==> PairOk(s.txs[t], s.txs[u]))
  }

  /** Every open transaction has a connection, and there are no more busy ones than the pool has. */
  predicate PoolOk(s: State) {
    && s.busy <= s.txs.Keys && |s.busy| <= s.pool
    && (forall t :: t in s.txs && Open(s.txs[t].phase) ==> t in s.busy)
  }
}
