/** `createOrder` and the repository methods it calls, statement by statement, while other requests run. Each
    statement may throw. Every step it takes is a step of the order-creation machine, so the theorems about
    all runs hold of the code. */
module OrdersService {
  import opened Domain
  import opened Reservation
  import opened SequentialShop
  import opened OrderProtocol
  import opened OrderInvariant
  import opened Deadlock
  import opened Serializability
  import opened Database
  import opened UnitOfWork

  /** A statement of `t`: of its transaction nothing but the phase has changed, none of it was sent on an aborted
      connection, its connection is kept, and a quiet database is still quiet. */
  twostate predicate Moved(db: Postgres, t: TxId)
    reads db
  {
    && db.Valid() && old(db.trace) <= db.trace
    && t in old(db.s).txs && t in db.s.txs && db.s.txs[t].req == old(db.s).txs[t].req
    && (t in db.s.busy <==> t in old(db.s).busy) && db.TallyOf(t) == old(db.TallyOf(t))
    && db.StaysQuiet(t)
  }

  lemma OkNow(db: Postgres, t: TxId)
    requires db.Valid() && t in db.s.txs
    ensures PhaseOk(db.s, db.s.txs[t].req, db.s.txs[t].phase)
  {
    RunKeepsInv(db.base, db.trace);
  }

  /** What `t` waits for is held by somebody else. */
  lemma HeldIsWait(s: State, t: TxId)
    requires t in s.txs
    ensures s.txs[t].phase.Started? && KeyHeldByOther(s, t, RequestKey(s.txs[t].req)) ==> Blocked(s, t)
    ensures var ph := s.txs[t].phase;
            ph.Locking? && ph.next < |ph.plan| && LockedByOther(s, t, ph.plan[ph.next]) ==> Blocked(s, t)
  {
    var ph := s.txs[t].phase;
    if ph.Started? && KeyHeldByOther(s, t, RequestKey(s.txs[t].req)) {
      var u :| u in s.txs && u != t && HoldsKey(s.txs[u].phase) && RequestKey(s.txs[u].req) == RequestKey(s.txs[t].req);
      assert WaitsFor(s, t, u);
    }
    if ph.Locking? && ph.next < |ph.plan| && LockedByOther(s, t, ph.plan[ph.next]) {
      var u :| u in s.txs && u != t && ph.plan[ph.next] in Rows(s.txs[u].phase);
      assert WaitsFor(s, t, u);
    }
  }

  lemma LockedRowsNow(db: Postgres, t: TxId)
    requires db.Valid() && t in db.s.txs && HoldsKey(db.s.txs[t].phase)
    ensures LockedAsCommitted(db.s, db.s.txs[t].phase)
  {
    RunKeepsInv(db.base, db.trace);
    assert HolderOk(db.s, db.s.txs[t].req, db.s.txs[t].phase);
  }

  // ---- orders.repository.ts -----------------------------------------------------------------------------

  datatype AddResult = Added(oid: OrderId) | Existing(order: Order) | AddThrew

  /** `findOneOrFail` on a connection of its own: a scan of the committed orders. */
  method FindOneOrFail(db: Postgres, key: (UserId, IdempotencyKey)) returns (at: nat)
    requires db.Valid() && KeyTaken(db.s, key)
    ensures at < |db.s.orders| && OrderKey(db.s.orders[at]) == key
  {
    at := 0;
    while OrderKey(db.s.orders[at]) != key
      invariant at < |db.s.orders|
      invariant forall i :: 0 <= i < at ==> OrderKey(db.s.orders[i]) != key
      decreases |db.s.orders| - at
    {
      var i :| 0 <= i < |db.s.orders| && OrderKey(db.s.orders[i]) == key;
      at := at + 1;
    }
  }

  /** After 23505 the connection is aborted; the order is read through another one, if the pool ever has one. */
  method RecoverExisting(db: Postgres, t: TxId) returns (r: AddResult)
    requires db.Valid() && t in db.s.txs && db.s.txs[t].phase.Rejected?
    modifies db
    ensures Moved(db, t) && !r.Added?
    ensures r.Existing? ==> db.s.txs[t].phase == Recovered(r.order) && OrderKey(r.order) == RequestKey(db.s.txs[t].req)
    ensures r.AddThrew? ==> db.s.txs[t].phase.Rejected? && (db.NoneThrown() ==> Blocked(db.s, t))
    ensures !r.AddThrew? ==> db.NoneThrown()
    ensures old(db.Quiet(t)) ==> r.Existing?
  {
    db.Await(t);
    if db.Quiet(t) {
      OneIsFree(db.s.busy, db.s.pool, t);
    }
    var throws := db.Throws();
    if throws || !HasFree(db.s) {
      return AddThrew;
    }
    OkNow(db, t);
    var at := FindOneOrFail(db, RequestKey(db.s.txs[t].req));
    r := Existing(db.s.orders[at]);
    db.Do(Recover(t, at));
  }

  /** The insert waits for another holder of the key; a wait that does not end is one that throws (deadlock
      victim, timeout). After 23505 only the other connection is used, and it finds the order. */
  method AddOrder(db: Postgres, t: TxId, oid: OrderId) returns (r: AddResult)
    requires db.Valid() && t in db.s.txs && db.s.txs[t].phase.Started?
    modifies db
    ensures Moved(db, t)
    ensures match r
            case Added(id) => id == oid && db.s.txs[t].phase == Inserted(oid)
            case Existing(o) => db.s.txs[t].phase == Recovered(o) && OrderKey(o) == RequestKey(db.s.txs[t].req)
            case AddThrew => db.s.txs[t].phase.Started? || db.s.txs[t].phase.Rejected?
    ensures if r.AddThrew? then db.NoneThrown() ==> Hindered(db.s, t, oid) else db.NoneThrown()
    ensures old(db.Quiet(t) && FreshId(db.s, oid)) ==> !r.AddThrew?
  {
    var key := RequestKey(db.s.txs[t].req);
    db.Await(t);
    var throws := db.Throws();
    if throws {
      return AddThrew;
    } else if KeyTaken(db.s, key) {
      db.Do(Reject(t));
      r := RecoverExisting(db, t);
    } else if KeyHeldByOther(db.s, t, key) || !FreshId(db.s, oid) {
      HeldIsWait(db.s, t);
      return AddThrew;
    } else {
      db.Do(Insert(t, oid));
      return Added(oid);
    }
  }

  /** The own, uncommitted row is visible to its own transaction. */
  method FindOne(db: Postgres, t: TxId, oid: OrderId) returns (ok: bool, result: Option<Order>)
    requires db.Valid() && t in db.s.txs && db.s.txs[t].phase.Written? && db.s.txs[t].phase.oid == oid
    modifies db
    ensures Moved(db, t) && db.s.txs[t] == old(db.s.txs[t])
    ensures ok ==> result == Some(OrderOf(db.s.txs[t].req, db.s.txs[t].phase))
    ensures ok <==> db.NoneThrown()
  {
    db.Await(t);
    var throws := db.Throws();
    ok, result := !throws, Some(OrderOf(db.s.txs[t].req, db.s.txs[t].phase));
  }

  // ---- products.repository.ts and order-items.repository.ts ------------------------------------------------

  predicate Loaded(products: seq<ProductEntity>, plan: seq<ProductId>, rows: map<ProductId, Product>)
    reads products
  {
    && |products| == |plan|
    && (forall i, j :: 0 <= i < j < |products| ==> products[i] != products[j])
    && (forall i :: 0 <= i < |products| ==>
          products[i].id == plan[i] && plan[i] in rows
          && Product(products[i].stock, products[i].price) == rows[plan[i]])
  }

  /** The order in which the query visits the rows is left to the database. */
  method ScanOrder(items: seq<OrderItemDto>, catalog: set<ProductId>) returns (plan: seq<ProductId>)
    ensures IsScan(plan, items, catalog)
  {
    var ids := Ids(items) * catalog;
    plan := [];
    var remaining := ids;
    while remaining != {}
      invariant remaining <= ids && Distinct(plan) && Elems(plan) == ids - remaining
      decreases |remaining|
    {
      var p :| p in remaining;
      assert forall i :: 0 <= i < |plan| ==> plan[i] in Elems(plan);
      ghost var before := plan;
      plan := plan + [p];
      assert Elems(plan) == Elems(before) + {p} by {
        assert plan[..|before|] == before && plan[|before|] == p;
        assert forall i :: 0 <= i < |before| ==> plan[i] == before[i];
      }
      remaining := remaining - {p};
    }
  }

  /** One row of the locking read. It comes back as it was committed last, and stays so while the lock is held. */
  method LockRow(db: Postgres, t: TxId) returns (ok: bool)
    requires db.Valid() && t in db.s.txs && db.s.txs[t].phase.Locking? && !AllLocked(db.s.txs[t].phase)
    requires db.s.txs[t].phase.next < |db.s.txs[t].phase.plan|
    modifies db
    ensures Moved(db, t)
    ensures var ph := old(db.s.txs[t].phase);
            if ok
            then ph.plan[ph.next] in db.s.products
                 && db.s.txs[t].phase
                    == ph.(next := ph.next + 1, rows := ph.rows[ph.plan[ph.next] := db.s.products[ph.plan[ph.next]]])
            else db.s.txs[t].phase == ph
    ensures if ok then db.NoneThrown() else db.NoneThrown() ==> Blocked(db.s, t)
    ensures old(db.Quiet(t)) ==> ok
  {
    db.Await(t);
    var ph := db.s.txs[t].phase;
    OkNow(db, t);
    assert ph.plan[ph.next] in Elems(ph.plan);
    var throws := db.Throws();
    ok := !throws;
    if ok {
      ok := !LockedByOther(db.s, t, ph.plan[ph.next]);
      if ok {
        db.Do(Lock(t));
      } else {
        HeldIsWait(db.s, t);
      }
    }
  }

  /** `getMany` turns the result rows into entities. */
  method Hydrate(plan: seq<ProductId>, rows: map<ProductId, Product>) returns (products: seq<ProductEntity>)
    requires forall i :: 0 <= i < |plan| ==> plan[i] in rows
    ensures fresh(products) && Loaded(products, plan, rows)
  {
    products := [];
    while |products| < |plan|
      invariant |products| <= |plan| && fresh(products)
      invariant Loaded(products, plan[..|products|], rows)
      decreases |plan| - |products|
    {
      var entity := new ProductEntity(plan[|products|], rows[plan[|products|]]);
      products := products + [entity];
    }
    assert plan[..|products|] == plan;
  }

  /** The result, once all rows are locked. */
  method LoadLocked(db: Postgres, t: TxId) returns (products: seq<ProductEntity>)
    requires db.Valid() && t in db.s.txs && AllLocked(db.s.txs[t].phase)
    ensures fresh(products) && PhaseOk(db.s, db.s.txs[t].req, db.s.txs[t].phase)
    ensures Loaded(products, db.s.txs[t].phase.plan, db.s.txs[t].phase.rows)
    ensures LockedAsCommitted(db.s, db.s.txs[t].phase)
  {
    var ph := db.s.txs[t].phase;
    OkNow(db, t);
    LockedRowsNow(db, t);
    assert ph.plan[..ph.next] == ph.plan;
    assert forall i :: 0 <= i < |ph.plan| ==> ph.plan[i] in Elems(ph.plan);
    products := Hydrate(ph.plan, ph.rows);
  }

  /** The rows read are the committed ones. */
  predicate LockedAsCommitted(s: State, ph: Phase) {
    forall p :: p in Rows(ph) ==> p in s.products && s.products[p] == Rows(ph)[p]
  }

  method StartScan(db: Postgres, t: TxId, items: seq<OrderItemDto>)
    requires db.Valid() && t in db.s.txs && db.s.txs[t].phase.Inserted? && items == db.s.txs[t].req.items != []
    modifies db
    ensures Moved(db, t) && db.NoneThrown() && db.s.txs[t].phase.Locking? && db.s.txs[t].phase.next == 0
    ensures db.s.txs[t].phase.oid == old(db.s.txs[t].phase.oid)
  {
    db.Await(t);
    var plan := ScanOrder(items, db.s.products.Keys);
    db.Do(Scan(t, plan));
  }

  /** An empty id list is a syntax error. */
  method EmptyIdList(db: Postgres, t: TxId)
    requires db.Valid() && t in db.s.txs && db.s.txs[t].phase.Inserted? && db.s.txs[t].req.items == []
    modifies db
    ensures Moved(db, t) && db.NoneThrown()
    ensures db.s.txs[t].phase == Throwing(old(db.s.txs[t].phase.oid), map[], Failed)
  {
    db.Await(t);
    db.Do(EmptyQuery(t));
  }

  /** The rows are locked one at a time, in the order of the scan. */
  method LockAll(db: Postgres, t: TxId) returns (ok: bool)
    requires db.Valid() && t in db.s.txs && db.s.txs[t].phase.Locking? && db.s.txs[t].phase.next == 0
    modifies db
    ensures Moved(db, t) && db.s.txs[t].phase.Locking? && db.s.txs[t].phase.oid == old(db.s.txs[t].phase.oid)
    ensures ok ==> AllLocked(db.s.txs[t].phase)
    ensures if ok then db.NoneThrown() else db.NoneThrown() ==> Blocked(db.s, t)
    ensures old(db.Quiet(t)) ==> ok
  {
    var plan := db.s.txs[t].phase.plan;
    var next := 0;
    while next < |plan|
      invariant Moved(db, t) && db.NoneThrown()
      invariant var ph := db.s.txs[t].phase;
                ph.Locking? && ph.plan == plan && ph.next == next <= |plan| && ph.oid == old(db.s.txs[t].phase.oid)
    {
      var locked := LockRow(db, t);
      if !locked {
        return false;
      }
      next := next + 1;
    }
    ok := true;
  }

  /** `SELECT ... WHERE id IN (...) FOR UPDATE`: the result is every requested product that exists, once each, as
      it is committed. */
  method FindByIds(db: Postgres, t: TxId, items: seq<OrderItemDto>) returns (ok: bool, products: seq<ProductEntity>)
    requires db.Valid() && t in db.s.txs && db.s.txs[t].phase.Inserted? && items == db.s.txs[t].req.items
    modifies db
    ensures Moved(db, t) && HoldsKey(db.s.txs[t].phase) && db.s.txs[t].phase.oid == old(db.s.txs[t].phase.oid)
    ensures !ok ==> Answer(db.s.txs[t].phase).None?
    ensures if ok then db.NoneThrown() else db.NoneThrown() ==> Unserved(db.s, t)
    ensures old(db.Quiet(t)) && items != [] ==> ok
    ensures ok ==>
              var ph := db.s.txs[t].phase;
              && AllLocked(ph) && PhaseOk(db.s, db.s.txs[t].req, ph) && Loaded(products, ph.plan, ph.rows)
              && fresh(products) && LockedAsCommitted(db.s, ph)
  {
    products := [];
    if items == [] {
      EmptyIdList(db, t);
      return false, [];
    }
    StartScan(db, t, items);
    ok := LockAll(db, t);
    if ok {
      products := LoadLocked(db, t);
    }
  }

  /** The rows `orderItemsRepo.extend` sends. */
  predicate SameLines(partialItems: seq<PartialItem>, oid: OrderId, lines: map<ProductId, OrderItem>) {
    && (forall i :: 0 <= i < |partialItems| ==>
          && partialItems[i].orderId == oid && partialItems[i].productId in lines
          && lines[partialItems[i].productId] == OrderItem(partialItems[i].qty, partialItems[i].purchasePrice))
    && (forall p :: p in lines ==> exists i :: 0 <= i < |partialItems| && partialItems[i].productId == p)
  }

  method ExtendItems(db: Postgres, t: TxId, partialItems: seq<PartialItem>) returns (ok: bool)
    requires db.Valid() && t in db.s.txs && db.s.txs[t].phase.Reserved?
    requires SameLines(partialItems, db.s.txs[t].phase.oid, Lines(db.s.txs[t].req.items, db.s.txs[t].phase.rows))
    modifies db
    ensures Moved(db, t)
    ensures var ph := old(db.s.txs[t].phase);
            if ok
            then db.s.txs[t].phase == ItemsSaved(ph.oid, ph.rows, Lines(db.s.txs[t].req.items, ph.rows))
            else db.s.txs[t].phase == ph
    ensures ok <==> db.NoneThrown()
  {
    db.Await(t);
    var throws := db.Throws();
    ok := !throws;
    if ok {
      db.Do(SaveItems(t));
    }
  }

  method ExtendProducts(db: Postgres, t: TxId, products: seq<ProductEntity>, plan: seq<ProductId>) returns (ok: bool)
    requires db.Valid() && t in db.s.txs && db.s.txs[t].phase.ItemsSaved?
    requires Elems(plan) == db.s.txs[t].phase.rows.Keys
    requires Loaded(products, plan, Deduct(db.s.txs[t].req.items, db.s.txs[t].phase.rows))
    modifies db
    ensures Moved(db, t)
    ensures var ph := old(db.s.txs[t].phase);
            if ok
            then db.s.txs[t].phase == Written(ph.oid, ph.rows, ph.items, Deduct(db.s.txs[t].req.items, ph.rows))
            else db.s.txs[t].phase == ph
    ensures ok <==> db.NoneThrown()
  {
    db.Await(t);
    var throws := db.Throws();
    ok := !throws;
    if ok {
      db.Do(SaveProducts(t));
    }
  }

  // ---- orders.service.ts --------------------------------------------------------------------------------

  datatype Outcome = Returned(order: Order, isDuplicate: bool) | Threw(reply: Reply)

  /** Thrown, and not a business error. */
  predicate Failing(o: Outcome) {
    o.Threw? && o.reply.Failed?
  }

  /** What the callback has done when it returns or throws. */
  predicate Settled(ph: Phase, o: Outcome) {
    match o
    case Returned(order, isDuplicate) => ph == (if isDuplicate then Recovered(order) else Committed(order))
    case Threw(reply) =>
      !reply.Created? && !reply.Duplicate?
      && (if Answer(ph).Some? then ph.Throwing? && reply == Answer(ph).value else reply.Failed?)
  }

  /** The partial items are the lines of the order. */
  lemma AllLinesPushed(items: seq<OrderItemDto>, oid: OrderId, plan: seq<ProductId>, rows: map<ProductId, Product>,
                       partialItems: seq<PartialItem>)
    requires |partialItems| == |plan| && Elems(plan) == rows.Keys
    requires forall i :: 0 <= i < |plan| ==>
               plan[i] in rows
               && partialItems[i] == PartialItem(oid, plan[i], Asked(items, plan[i]), rows[plan[i]].price)
    ensures SameLines(partialItems, oid, Lines(items, rows))
  {
  }

  /** Where the loop stops: nowhere, or at the first row of the scan that is short, with that row's data. */
  predicate StopsAt(items: seq<OrderItemDto>, plan: seq<ProductId>, rows: map<ProductId, Product>,
                    short: Option<Shortage>) {
    match short
    case None => forall j :: 0 <= j < |plan| ==> Covered(items, rows, plan[j])
    case Some(x) =>
      && x.index < |plan| && (forall j :: 0 <= j < x.index ==> Covered(items, rows, plan[j]))
      && plan[x.index] in rows && !Covered(items, rows, plan[x.index])
      && x == Shortage(x.index, plan[x.index], Asked(items, plan[x.index]), rows[plan[x.index]].stock)
  }

  /** The loop over the loaded entities, in memory only, in terms of the rows it was given. */
  method RunLoop(items: seq<OrderItemDto>, oid: OrderId, plan: seq<ProductId>, rows: map<ProductId, Product>,
                 products: seq<ProductEntity>)
    returns (short: Option<Shortage>, partialItems: seq<PartialItem>)
    requires Loaded(products, plan, rows) && Elems(plan) == rows.Keys && rows.Keys <= Ids(items)
    modifies products
    ensures StopsAt(items, plan, rows, short)
    ensures short.None? ==>
              SameLines(partialItems, oid, Lines(items, rows)) && Loaded(products, plan, Deduct(items, rows))
  {
    var qty := QtyOf(items);
    forall i | 0 <= i < |plan| ensures plan[i] in qty && qty[plan[i]] == Asked(items, plan[i]) {
      assert plan[i] in Elems(plan);
    }
    short, partialItems := ReserveStock(oid, products, qty);
    ghost var n := if short.Some? then short.value.index else |plan|;
    forall j | 0 <= j < n ensures Covered(items, rows, plan[j]) {
      assert qty[products[j].id] <= old(products[j].stock);
    }
    if short.None? {
      forall i | 0 <= i < |plan|
        ensures partialItems[i] == PartialItem(oid, plan[i], Asked(items, plan[i]), rows[plan[i]].price)
      {
        assert products[i].id == plan[i];
      }
      AllLinesPushed(items, oid, plan, rows, partialItems);
      forall i | 0 <= i < |products|
        ensures plan[i] in Deduct(items, rows)
        ensures Product(products[i].stock, products[i].price) == Deduct(items, rows)[plan[i]]
      {
        assert products[i].id == plan[i];
      }
    }
  }

  /** The error the loop throws. */
  function ShortageReply(x: Shortage): Reply {
    NotEnoughItems(x.id, x.asked, x.stock)
  }

  /** What a finished loop means for the transaction. */
  method EndLoop(db: Postgres, t: TxId, short: Option<Shortage>)
    requires db.Valid() && t in db.s.txs && AllLocked(db.s.txs[t].phase)
    requires |db.s.txs[t].phase.plan| == |db.s.txs[t].req.items|
    requires StopsAt(db.s.txs[t].req.items, db.s.txs[t].phase.plan, db.s.txs[t].phase.rows, short)
    modifies db
    ensures Moved(db, t) && db.NoneThrown()
    ensures var ph := old(db.s.txs[t].phase);
            db.s.txs[t].phase ==
              if short.Some? then Throwing(ph.oid, ph.rows, ShortageReply(short.value)) else Reserved(ph.oid, ph.rows)
  {
    if short.Some? {
      db.Do(Short(t, short.value.index));
    } else {
      db.Do(Reserve(t));
    }
  }

  /** Past the length check: the loop, and the error it may throw. */
  method Reserving(db: Postgres, t: TxId, products: seq<ProductEntity>)
    returns (short: Option<Shortage>, partialItems: seq<PartialItem>)
    requires db.Valid() && t in db.s.txs && AllLocked(db.s.txs[t].phase)
    requires PhaseOk(db.s, db.s.txs[t].req, db.s.txs[t].phase)
    requires |db.s.txs[t].phase.plan| == |db.s.txs[t].req.items|
    requires Loaded(products, db.s.txs[t].phase.plan, db.s.txs[t].phase.rows)
    modifies db, products
    ensures Moved(db, t) && db.NoneThrown()
    ensures var ph, items := old(db.s.txs[t].phase), old(db.s.txs[t].req.items);
            && StopsAt(items, ph.plan, ph.rows, short)
            && (short.Some? ==> db.s.txs[t].phase == Throwing(ph.oid, ph.rows, ShortageReply(short.value)))
            && (short.None? ==>
                  && db.s.txs[t].phase == Reserved(ph.oid, ph.rows)
                  && Elems(ph.plan) == ph.rows.Keys
                  && SameLines(partialItems, ph.oid, Lines(items, ph.rows))
                  && Loaded(products, ph.plan, Deduct(items, ph.rows)))
  {
    var ph, items := db.s.txs[t].phase, db.s.txs[t].req.items;
    assert ph.plan[..ph.next] == ph.plan;
    short, partialItems := RunLoop(items, ph.oid, ph.plan, ph.rows, products);
    EndLoop(db, t, short);
  }

  /** From the item rows to the commit. */
  method WriteAndCommit(tx: TypeOrmTransaction, db: Postgres, t: TxId, partialItems: seq<PartialItem>,
                        products: seq<ProductEntity>,
                        plan: seq<ProductId>) returns (o: Outcome)
    requires tx.db == db && tx.t == t && tx.Valid() && !tx.finished && db.s.txs[t].phase.Reserved?
    requires var items, ph := db.s.txs[t].req.items, db.s.txs[t].phase;
             && SameLines(partialItems, ph.oid, Lines(items, ph.rows))
             && Elems(plan) == ph.rows.Keys && Loaded(products, plan, Deduct(items, ph.rows))
    modifies tx`finished, db
    ensures tx.Valid() && Moved(db, t) && Settled(db.s.txs[t].phase, o)
    ensures if db.NoneThrown() then o.Returned? else Failing(o)
  {
    var saved := ExtendItems(db, t, partialItems);
    if !saved {
      return Threw(Failed);
    }
    o := UpdateAndCommit(tx, db, t, products, plan);
  }

  /** From the product rows to the commit. */
  method UpdateAndCommit(tx: TypeOrmTransaction, db: Postgres, t: TxId, products: seq<ProductEntity>,
                         plan: seq<ProductId>)
    returns (o: Outcome)
    requires tx.db == db && tx.t == t && tx.Valid() && !tx.finished && db.s.txs[t].phase.ItemsSaved?
    requires var items, ph := db.s.txs[t].req.items, db.s.txs[t].phase;
             Elems(plan) == ph.rows.Keys && Loaded(products, plan, Deduct(items, ph.rows))
    modifies tx`finished, db
    ensures tx.Valid() && Moved(db, t) && Settled(db.s.txs[t].phase, o)
    ensures if db.NoneThrown() then o.Returned? else Failing(o)
  {
    var oid := db.s.txs[t].phase.oid;
    var saved := ExtendProducts(db, t, products, plan);
    if !saved {
      return Threw(Failed);
    }
    o := ReadAndCommit(tx, db, t, oid);
  }

  method ReadAndCommit(tx: TypeOrmTransaction, db: Postgres, t: TxId, oid: OrderId) returns (o: Outcome)
    requires tx.db == db && tx.t == t && tx.Valid() && !tx.finished && db.s.txs[t].phase.Written?
    requires db.s.txs[t].phase.oid == oid
    modifies tx`finished, db
    ensures tx.Valid() && Moved(db, t) && Settled(db.s.txs[t].phase, o)
    ensures if db.NoneThrown() then o.Returned? else Failing(o)
  {
    var read, result := FindOne(db, t, oid);
    if !read {
      return Threw(Failed);
    }
    if result.None? {
      return Threw(Failed);                      // FailedToCreateOrderError
    }
    var committed := tx.Commit();
    if !committed {
      return Threw(Failed);
    }
    return Returned(result.value, false);
  }

  /** The callback of `createOrder`. */
  method InTransaction(tx: TypeOrmTransaction, db: Postgres, t: TxId, items: seq<OrderItemDto>, oid: OrderId)
    returns (o: Outcome)
    requires tx.db == db && tx.t == t && tx.Valid() && !tx.finished
    requires db.s.txs[t].phase.Started? && items == db.s.txs[t].req.items
    modifies tx`finished, db
    ensures tx.Valid() && Moved(db, t) && Settled(db.s.txs[t].phase, o)
    ensures if Failing(o) then db.NoneThrown() ==> Hindered(db.s, t, oid) else db.NoneThrown()
    ensures old(db.Quiet(t) && FreshId(db.s, oid)) && items != [] ==> !Failing(o)
  {
    var added := AddOrder(db, t, oid);
    if added.AddThrew? {
      return Threw(Failed);
    }
    if added.Existing? {
      return Returned(added.order, true);
    }
    o := FillOrder(tx, db, t, items);
  }

  /** The rest of the callback, with the order row inserted. */
  method FillOrder(tx: TypeOrmTransaction, db: Postgres, t: TxId, items: seq<OrderItemDto>) returns (o: Outcome)
    requires tx.db == db && tx.t == t && tx.Valid() && !tx.finished
    requires db.s.txs[t].phase.Inserted? && items == db.s.txs[t].req.items
    modifies tx`finished, db
    ensures tx.Valid() && Moved(db, t) && Settled(db.s.txs[t].phase, o)
    ensures if Failing(o) then db.NoneThrown() ==> Unserved(db.s, t) else db.NoneThrown()
    ensures old(db.Quiet(t)) && items != [] ==> !Failing(o)
  {
    var found, products := FindByIds(db, t, items);
    if !found {
      return Threw(Failed);
    }
    if |products| != |items| {
      db.Do(Missing(t));
      return Threw(CannotFindProducts(|items| - |products|));
    }
    o := ReserveAndWrite(tx, db, t, products);
  }

  method ReserveAndWrite(tx: TypeOrmTransaction, db: Postgres, t: TxId, products: seq<ProductEntity>)
    returns (o: Outcome)
    requires tx.db == db && tx.t == t && tx.Valid() && !tx.finished && AllLocked(db.s.txs[t].phase)
    requires PhaseOk(db.s, db.s.txs[t].req, db.s.txs[t].phase)
    requires |db.s.txs[t].phase.plan| == |db.s.txs[t].req.items|
    requires Loaded(products, db.s.txs[t].phase.plan, db.s.txs[t].phase.rows)
    modifies tx`finished, db, products
    ensures tx.Valid() && Moved(db, t) && Settled(db.s.txs[t].phase, o)
    ensures Failing(o) <==> !db.NoneThrown()
  {
    var plan := db.s.txs[t].phase.plan;
    var short, partialItems := Reserving(db, t, products);
    if short.Some? {
      return Threw(ShortageReply(short.value));
    }
    o := WriteAndCommit(tx, db, t, partialItems, products, plan);
  }

  /** The reply is one the sequential shop allows, at a point of the log written during this call. */
  ghost predicate AnsweredWithin(db: Postgres, before: nat, t: TxId, req: Request, reply: Reply)
    reads db
  {
    exists at :: before <= at < |db.s.log| && db.s.log[at] == Event(t, req, reply)
                 && Allowed(Replay(ShopOf(db.base), db.s.log[..at]), req, reply)
  }

  /** The transaction is over: it committed, or the outcome is what its last phase says. */
  predicate Ended(ph: Phase, o: Outcome, disposed: bool) {
    && !Open(ph)
    && (ph.Committed? ==> o == Returned(ph.order, false))
    && (ph.Finished? ==> !ph.reply.Created?)
    && (o.Threw? ==> !o.reply.Created?)
    && (disposed && !ph.Committed? ==>
          ph == Finished(if o.Threw? then o.reply else if o.isDuplicate then Duplicate(o.order) else Failed))
  }

  /** What disposal makes of a transaction, as the callback left it. */
  predicate Disposed(before: Phase, after: Phase, disposed: bool) {
    && !Open(after)
    && (!Open(before) ==> after == before)
    && (Open(before) ==> after == Finished(Failed) || after == AfterRollback(before, true))
    && (disposed && Open(before) ==> after == Finished(if Answer(before).Some? then Answer(before).value else Failed))
  }

  lemma SettledEnds(before: Phase, after: Phase, o: Outcome, disposed: bool)
    requires Settled(before, o) && Disposed(before, after, disposed)
    ensures Ended(after, o, disposed) && (o.Returned? && !o.isDuplicate ==> after.Committed?)
  {
  }

  lemma BeginKeepsFresh(s: State, t: TxId, req: Request, oid: OrderId)
    requires t !in s.txs && FreshId(s, oid)
    ensures FreshId(s.(txs := s.txs[t := Tx(req, Started)], busy := s.busy + {t}), oid)
  {
  }

  /** The callback has ended, in a transaction of its own. */
  method RunCallback(db: Postgres, t: TxId, req: Request, oid: OrderId) returns (tx: TypeOrmTransaction, o: Outcome)
    requires db.Valid() && t !in db.s.txs && HasFree(db.s)
    modifies db
    ensures fresh(tx) && tx.db == db && tx.t == t && tx.Valid() && !tx.released
    ensures old(db.trace) <= db.trace && db.StaysQuiet(t) && db.TallyOf(t) == old(db.TallyOf(t))
    ensures t in db.s.busy && db.s.txs[t].req == req && Settled(db.s.txs[t].phase, o)
    ensures if Failing(o)
            then db.NoneThrown() ==> HinderedSince(db.base, db.trace, |old(db.trace)|, t, oid)
            else db.NoneThrown()
    ensures old(db.Quiet(t) && FreshId(db.s, oid)) && req.items != [] ==> !Failing(o)
  {
    ghost var since := |db.trace|;
    if FreshId(db.s, oid) {
      BeginKeepsFresh(db.s, t, req, oid);
    }
    tx := new TypeOrmTransaction(db, t, req);
    o := InTransaction(tx, db, t, req.items, oid);
    HinderedNow(db.base, db.trace, since, t, oid);
  }

  /** `uow.transaction(callback)`. */
  method Transaction(db: Postgres, t: TxId, req: Request, oid: OrderId) returns (o: Outcome, disposed: bool)
    requires db.Valid() && t !in db.s.txs && HasFree(db.s)
    modifies db
    ensures db.Valid() && old(db.trace) <= db.trace && db.StaysQuiet(t)
    ensures db.TallyOf(t) == GivenBack(old(db.TallyOf(t)), disposed)
    ensures t in db.s.txs && db.s.txs[t].req == req && Ended(db.s.txs[t].phase, o, disposed) && t !in db.s.busy
    ensures o.Returned? && !o.isDuplicate ==> db.s.txs[t].phase.Committed?
    ensures db.NoneThrown() ==> disposed
    ensures if disposed && !Failing(o)
            then db.NoneThrown()
            else db.NoneThrown() ==> HinderedSince(db.base, db.trace, |old(db.trace)|, t, oid)
    ensures old(db.Quiet(t) && FreshId(db.s, oid)) && req.items != [] ==> !Failing(o)
  {
    ghost var since := |db.trace|;
    var tx;
    tx, o := RunCallback(db, t, req, oid);
    ghost var before, trace := db.s.txs[t].phase, db.trace;
    disposed := tx.AsyncDispose();
    SettledEnds(before, db.s.txs[t].phase, o, disposed);
    LongerAgo(db.base, trace, db.trace, since, since, t, oid);
  }

  /** What the client is told about a transaction that did not commit. */
  function ReplyTo(o: Outcome): Reply {
    if o.Threw? then o.reply else if o.isDuplicate then Duplicate(o.order) else Failed
  }

  /** After `transaction` returned or threw: a duplicate is returned as it is, a new order is announced. */
  method Respond(db: Postgres, t: TxId, o: Outcome, disposed: bool) returns (reply: Reply)
    requires db.Valid() && t in db.s.txs && Ended(db.s.txs[t].phase, o, disposed) && t !in db.s.busy
    modifies db
    ensures Moved(db, t) && db.s.txs[t].phase.Finished?
    ensures !reply.Failed? ==> db.s.txs[t].phase == Finished(reply)
    ensures db.s.txs[t].phase.reply.Created? ==> reply.Created?
    ensures disposed ==> db.s.txs[t].phase == Finished(reply)
    ensures reply.Created? ==> reply.order.id in db.s.outbox
    ensures !reply.Created? ==> db.s.outbox == old(db.s.outbox)
    ensures disposed && db.NoneThrown() && old(db.s.txs[t].phase.Committed?) ==> reply.Created?
    ensures !reply.Failed? ==> db.NoneThrown()
    ensures disposed && !old(db.s.txs[t].phase.Committed?) ==> reply == ReplyTo(o)
    ensures !disposed ==> reply.Failed?
  {
    reply := Failed;
    if db.s.txs[t].phase.Committed? {
      var throws := db.Throws();
      if disposed && !throws {
        db.Do(Publish(t));
        assert db.s.outbox[|db.s.outbox| - 1] == o.order.id;
        reply := Created(o.order);
      } else {
        db.Do(PublishFails(t));
      }
    } else if disposed {
      reply := if o.Threw? then o.reply else if o.isDuplicate then Duplicate(o.order) else Failed;
    }
  }

  /** The connection that `t` was given has been given back, or lost. */
  ghost predicate HandedBack(y: Tally, y': Tally, t: TxId, s: State, sure: bool) {
    if t !in s.txs then y' == y
    else y' == GivenBack(y, true) || (!sure && y' == GivenBack(y, false))
  }

  /** With a connection at hand. */
  method Serve(db: Postgres, t: TxId, req: Request, oid: OrderId) returns (reply: Reply)
    requires db.Valid() && t !in db.s.txs && HasFree(db.s)
    modifies db
    ensures db.Valid() && old(db.trace) <= db.trace && db.StaysQuiet(t)
    ensures t in db.s.txs && db.s.txs[t].req == req && db.s.txs[t].phase.Finished? && t !in db.s.busy
    ensures db.s.txs[t].phase.reply.Created? ==> reply.Created?
    ensures !reply.Failed? ==> db.s.txs[t].phase == Finished(reply)
    ensures reply.Created? ==> reply.order.id in db.s.outbox
    ensures HandedBack(old(db.TallyOf(t)), db.TallyOf(t), t, db.s, db.NoneThrown())
    ensures if reply.Failed?
            then db.NoneThrown() ==> HinderedSince(db.base, db.trace, |old(db.trace)|, t, oid)
            else db.NoneThrown()
    ensures old(db.Quiet(t) && FreshId(db.s, oid)) && req.items != [] ==> !reply.Failed?
  {
    ghost var since := |db.trace|;
    var o, disposed := Transaction(db, t, req, oid);
    ghost var trace := db.trace;
    reply := Respond(db, t, o, disposed);
    LongerAgo(db.base, trace, db.trace, since, since, t, oid);
  }

  /** `createOrder`. Any reply but a failure is allowed by the sequential shop at a point within the call; the
      transaction is over, without key or locks, and its connection was given back; a new order is announced once,
      after its commit. If one of its statements throws it fails; if none does it fails only if it names nothing, if it
      had to wait, for its key, a row or a connection, or if the generated id was in use. When nobody interferes
      either, the tables are those of the shop after the reply. */
  method CreateOrder(db: Postgres, t: TxId, req: Request, oid: OrderId) returns (reply: Reply)
    requires db.Valid() && t !in db.s.txs
    modifies db
    ensures db.Valid() && old(db.trace) <= db.trace
    ensures t in db.s.txs ==> db.s.txs[t].req == req && db.s.txs[t].phase.Finished? && t !in db.s.busy
    ensures t in db.s.txs && db.s.txs[t].phase.reply.Created? ==> reply.Created?
    ensures !reply.Failed? ==> t in db.s.txs && db.s.txs[t].phase == Finished(reply)
    ensures !reply.Failed? ==> AnsweredWithin(db, |old(db.s.log)|, t, req, reply)
    ensures reply.Created? ==> reply.order.id in db.s.outbox
    ensures HandedBack(old(db.TallyOf(t)), db.TallyOf(t), t, db.s, db.NoneThrown())
    ensures if reply.Failed?
            then db.NoneThrown() ==> HinderedSince(db.base, db.trace, |old(db.trace)|, t, oid)
            else db.NoneThrown()
    ensures old(db.Quiet(t) && FreshId(db.s, oid)) && req.items != [] ==> !reply.Failed?
    ensures old(db.Quiet(t)) ==> db.s.pool == old(db.s.pool) && db.s.busy == old(db.s.busy)
    ensures old(db.Quiet(t)) && !reply.Failed? ==> ShopOf(db.s) == Effect(ShopOf(old(db.s)), reply)
  {
    ghost var trace, before := db.trace, db.s;
    NotBusyYet(db, t);
    db.Await(t);
    if db.Quiet(t) {
      OneIsFree(db.s.busy, db.s.pool, t);
    }
    var throws := db.Throws();
    if throws || !HasFree(db.s) {
      HinderedNow(db.base, db.trace, |trace|, t, oid);
      return Failed;                             // no connection
    }
    ghost var since := |db.trace|;
    reply := Serve(db, t, req, oid);
    LongerAgo(db.base, db.trace, db.trace, since, |trace|, t, oid);
    if !reply.Failed? {
      Answered(db, trace, before, t);
    }
  }

  lemma NotBusyYet(db: Postgres, t: TxId)
    requires db.Valid() && t !in db.s.txs
    ensures t !in db.s.busy && db.s.busy - {t} == db.s.busy
  {
    RunKeepsPool(db.base, db.trace);
  }

  lemma OneMoreEvent(log: seq<Event>, log': seq<Event>, t: TxId, at: nat)
    requires log <= log' && Foreign(log, t) == Foreign(log', t)
    requires |log| <= at < |log'| && forall i :: 0 <= i < |log'| && log'[i].tid == t ==> i == at
    ensures |log'| == |log| + 1 && log'[..|log|] == log && at == |log|
  {
    NoForeignAdded(log, log', t);
    assert log'[|log|].tid == t && log'[|log'| - 1].tid == t;
  }

  lemma EventIsNew(base: State, trace: seq<Label>, more: seq<Label>, t: TxId) returns (at: nat)
    requires Init(base) && t !in Exec(base, trace).txs
    requires var s := Exec(base, trace + more); t in s.txs && s.txs[t].phase.Finished? && !s.txs[t].phase.reply.Failed?
    ensures var before, s := Exec(base, trace), Exec(base, trace + more);
            && before.log <= s.log && |before.log| <= at < |s.log|
            && s.log[at] == Event(t, s.txs[t].req, s.txs[t].phase.reply)
            && (forall i :: 0 <= i < |s.log| && s.log[i].tid == t ==> i == at)
            && Allowed(Replay(ShopOf(base), s.log[..at]), s.txs[t].req, s.txs[t].phase.reply)
  {
    var before, s := Exec(base, trace), Exec(base, trace + more);
    LogGrows(base, trace, more);
    at := RepliesAreLogged(base, trace + more, t);
    RunLogOk(base, trace);
    assert forall k :: 0 <= k < |before.log| ==> s.log[k] == before.log[k] && before.log[k].tid in before.txs;
  }

  /** With nobody else around the tables are those of the sequential shop after this one reply. */
  lemma QuietEffect(base: State, trace: seq<Label>, more: seq<Label>, t: TxId)
    requires Init(base) && t !in Exec(base, trace).txs
    requires var s := Exec(base, trace + more); t in s.txs && s.txs[t].phase.Finished? && !s.txs[t].phase.reply.Failed?
    requires Foreign(Exec(base, trace + more).log, t) == Foreign(Exec(base, trace).log, t)
    ensures var s := Exec(base, trace + more);
            ShopOf(s) == Effect(ShopOf(Exec(base, trace)), s.txs[t].phase.reply)
  {
    var at := EventIsNew(base, trace, more, t);
    OneMoreEvent(Exec(base, trace).log, Exec(base, trace + more).log, t, at);
    Serializable(base, trace);
    Serializable(base, trace + more);
  }

  /** The event of a request that began after `trace` is in the log written since. */
  lemma Answered(db: Postgres, trace: seq<Label>, before: State, t: TxId)
    requires db.Valid() && trace <= db.trace && before == Exec(db.base, trace)
    requires t !in before.txs && t in db.s.txs && db.s.txs[t].phase.Finished? && !db.s.txs[t].phase.reply.Failed?
    ensures AnsweredWithin(db, |before.log|, t, db.s.txs[t].req, db.s.txs[t].phase.reply)
    ensures Foreign(db.s.log, t) == Foreign(before.log, t) ==>
              ShopOf(db.s) == Effect(ShopOf(before), db.s.txs[t].phase.reply)
  {
    var more := db.trace[|trace|..];
    assert db.trace == trace + more;
    var at := EventIsNew(db.base, trace, more, t);
    if Foreign(db.s.log, t) == Foreign(before.log, t) {
      QuietEffect(db.base, trace, more, t);
    }
  }
}
