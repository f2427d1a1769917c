/** Which sets of requests can starve the connection pool, lost connections included. */
module Starvation {
  import opened Domain
  import opened Reservation
  import opened SequentialShop
  import opened OrderProtocol
  import opened OrderInvariant
  import opened Deadlock
  import opened DeadlockRings

  /** Some run of these requests ends with the pool used up by requests that wait for a second connection. */
  ghost predicate CanStarve(s: State, reqs: map<TxId, Request>) {
    exists run, t :: OnlyThese(run, reqs) && Starved(Exec(s, run)) && Pending(Exec(s, run), t)
  }

  predicate NonNegative(items: seq<OrderItemDto>) {
    forall i :: 0 <= i < |items| ==> items[i].qty >= 0
  }

  /** Nothing but its key stands in the way of an order: the products exist, once each, and are in stock. */
  predicate Creatable(products: map<ProductId, Product>, req: Request) {
    && req.items != [] && Distinct(IdList(req.items)) && Ids(req.items) <= products.Keys
    && (forall p :: p in Ids(req.items) ==> Covered(req.items, products, p))
  }

  /** The key of `r` has an order, or another of the requests can create one. */
  predicate CanBeRejected(s: State, reqs: map<TxId, Request>, r: TxId) {
    && r in reqs
    && (|| KeyTaken(s, RequestKey(reqs[r]))
        || (exists c :: c in reqs && c != r && RequestKey(reqs[c]) == RequestKey(reqs[r])
              && Creatable(s.products, reqs[c])))
  }

  // ---- What starvation needs --------------------------------------------------------------------------------------

  lemma {:induction false} AskedNonNegative(items: seq<OrderItemDto>, p: ProductId)
    requires NonNegative(items)
    ensures Asked(items, p) >= 0
    decreases |items|
  {
    if items != [] {
      AskedNonNegative(items[..|items| - 1], p);
    }
  }

  /** Every connection that is busy or lost has taken a request of its own. */
  predicate Spent(s: State, s': State, reqs: map<TxId, Request>) {
    && s.txs.Keys <= s'.txs.Keys <= s.txs.Keys + reqs.Keys
    && s.pool - s'.pool + |s'.busy| <= |s'.txs.Keys - s.txs.Keys|
  }

  lemma OthersSpendNothing(s: State, l: Label)
    requires Enabled(s, l) && !l.Begin?
    ensures Next(s, l).txs.Keys == s.txs.Keys && |Next(s, l).busy| - Next(s, l).pool <= |s.busy| - s.pool
  {
    if l.Release? || l.Strand? {
      BusyShrinks(s.busy, l.t);
    } else {
      MovesOne(s, l);
    }
  }

  lemma OneMore(before: set<TxId>, now: set<TxId>, t: TxId)
    requires before <= now && t !in now
    ensures |now + {t} - before| == |now - before| + 1
  {
    assert now + {t} - before == (now - before) + {t};
  }

  lemma BeginSpends(s: State, s': State, reqs: map<TxId, Request>, l: Label)
    requires PoolOk(s') && Spent(s, s', reqs) && Enabled(s', l) && l.Begin? && l.t in reqs
    ensures Spent(s, Next(s', l), reqs)
  {
    var after := Next(s', l);
    OneMore(s.txs.Keys, s'.txs.Keys, l.t);
    assert after.txs.Keys == s'.txs.Keys + {l.t} && after.pool == s'.pool && after.busy == s'.busy + {l.t};
    assert l.t !in s'.busy;
  }

  lemma StepSpends(s: State, s': State, reqs: map<TxId, Request>, l: Label)
    requires PoolOk(s') && Spent(s, s', reqs) && (l.Begin? ==> l.t in reqs)
    ensures Spent(s, Step(s', l), reqs)
  {
    if Enabled(s', l) {
      if l.Begin? {
        BeginSpends(s, s', reqs, l);
      } else {
        OthersSpendNothing(s', l);
      }
    }
  }

  lemma {:induction false} RunSpends(s: State, reqs: map<TxId, Request>, run: seq<Label>)
    requires PoolOk(s) && Idle(s) && OnlyThese(run, reqs)
    ensures Spent(s, Exec(s, run), reqs)
    decreases |run|
  {
    if run == [] {
      assert s.txs.Keys - s.txs.Keys == {};
    } else {
      RunSpends(s, reqs, run[..|run| - 1]);
      RunKeepsPool(s, run[..|run| - 1]);
      StepSpends(s, Exec(s, run[..|run| - 1]), reqs, run[|run| - 1]);
    }
  }

  /** `c` is the request that created the order, and it could have from the start. */
  predicate Creator(s: State, s': State, reqs: map<TxId, Request>, c: TxId, o: Order) {
    && c in reqs && c in s'.txs && (s'.txs[c].phase.Committed? || s'.txs[c].phase.Finished?)
    && RequestKey(reqs[c]) == OrderKey(o) && Creatable(s.products, reqs[c])
  }

  predicate StockFell(products: map<ProductId, Product>, products': map<ProductId, Product>) {
    products'.Keys == products.Keys && forall p :: p in products ==> products'[p].stock <= products[p].stock
  }

  ghost predicate HasCreator(s: State, s': State, reqs: map<TxId, Request>, o: Order) {
    exists c :: Creator(s, s', reqs, c, o)
  }

  /** Stock only falls, and every new order has its creator. */
  ghost predicate SoldSince(s: State, s': State, reqs: map<TxId, Request>) {
    && StockFell(s.products, s'.products) && s.orders <= s'.orders
    && (forall i :: |s.orders| <= i < |s'.orders| ==> HasCreator(s, s', reqs, s'.orders[i]))
  }

  lemma CommitTakesStock(s: State, t: TxId)
    requires Inv(s) && t in s.txs && s.txs[t].phase.Written? && NonNegative(s.txs[t].req.items)
    ensures StockFell(s.products, Install(s, t).products) && Creatable(s.products, s.txs[t].req)
  {
    var req, ph := s.txs[t].req, s.txs[t].phase;
    assert PhaseOk(s, req, ph) && HolderOk(s, req, ph);
    CommitKeepsCatalog(s, t);
    forall p | p in ph.rows ensures ph.stocks[p].stock <= s.products[p].stock && Covered(req.items, s.products, p) {
      AskedNonNegative(req.items, p);
      assert Covered(req.items, ph.rows, p);
    }
  }

  lemma CreatorStays(s: State, s': State, reqs: map<TxId, Request>, l: Label, c: TxId, o: Order)
    requires Enabled(s', l) && Creator(s, s', reqs, c, o)
    ensures Creator(s, Next(s', l), reqs, c, o)
  {
    if c != l.t {
      StepKeepsRequests(s', l);
    }
  }

  lemma EarlierCreatable(products: map<ProductId, Product>, products': map<ProductId, Product>, req: Request)
    requires StockFell(products, products') && Creatable(products', req)
    ensures Creatable(products, req)
  {
    forall p | p in Ids(req.items) ensures Covered(req.items, products, p) {
      assert Covered(req.items, products', p);
    }
  }

  lemma CommitSells(s: State, s': State, reqs: map<TxId, Request>, l: Label)
    requires Inv(s') && Arrived(s, s', reqs) && SoldSince(s, s', reqs) && Enabled(s', l)
    requires (l.Commit? || l.CommitUnseen?)
    requires forall t :: t in reqs ==> NonNegative(reqs[t].items)
    ensures SoldSince(s, Next(s', l), reqs)
  {
    var after := Next(s', l);
    CommitTakesStock(s', l.t);
    EarlierCreatable(s.products, s'.products, reqs[l.t]);
    forall i | |s.orders| <= i < |after.orders| ensures HasCreator(s, after, reqs, after.orders[i]) {
      if i < |s'.orders| {
        assert HasCreator(s, s', reqs, s'.orders[i]);
      var c :| Creator(s, s', reqs, c, s'.orders[i]);
        CreatorStays(s, s', reqs, l, c, s'.orders[i]);
        assert after.orders[i] == s'.orders[i];
      } else {
        assert Creator(s, after, reqs, l.t, after.orders[i]);
      }
    }
  }

  lemma OthersSellNothing(s: State, s': State, reqs: map<TxId, Request>, l: Label)
    requires SoldSince(s, s', reqs) && Enabled(s', l) && !l.Commit? && !l.CommitUnseen?
    ensures SoldSince(s, Next(s', l), reqs)
  {
    var after := Next(s', l);
    assert after.orders == s'.orders && after.products == s'.products;
    forall i | |s.orders| <= i < |after.orders| ensures HasCreator(s, after, reqs, after.orders[i]) {
      assert HasCreator(s, s', reqs, s'.orders[i]);
      var c :| Creator(s, s', reqs, c, s'.orders[i]);
      CreatorStays(s, s', reqs, l, c, s'.orders[i]);
    }
  }

  lemma {:induction false} RunSells(s: State, reqs: map<TxId, Request>, run: seq<Label>)
    requires Inv(s) && Idle(s) && OnlyThese(run, reqs)
    requires forall t :: t in reqs ==> NonNegative(reqs[t].items)
    ensures SoldSince(s, Exec(s, run), reqs)
    decreases |run|
  {
    if run != [] {
      var s', l := Exec(s, run[..|run| - 1]), run[|run| - 1];
      RunSells(s, reqs, run[..|run| - 1]);
      RunKeepsInv(s, run[..|run| - 1]);
      RunArrives(s, reqs, run[..|run| - 1]);
      if Enabled(s', l) {
        if l.Commit? || l.CommitUnseen? {
          CommitSells(s, s', reqs, l);
        } else {
          OthersSellNothing(s, s', reqs, l);
        }
      }
    }
  }

  /** Who starves was rejected, by an order that was there or that another request has created. */
  lemma StarvingIsRejected(s: State, s': State, reqs: map<TxId, Request>, t: TxId)
    requires Inv(s') && Arrived(s, s', reqs) && SoldSince(s, s', reqs) && t in s'.txs && s'.txs[t].phase.Rejected?
    ensures CanBeRejected(s, reqs, t)
  {
    assert PhaseOk(s', s'.txs[t].req, s'.txs[t].phase);
    var i :| 0 <= i < |s'.orders| && OrderKey(s'.orders[i]) == RequestKey(reqs[t]);
    if i < |s.orders| {
      assert OrderKey(s.orders[i]) == RequestKey(reqs[t]);
    } else {
      assert HasCreator(s, s', reqs, s'.orders[i]);
      var c :| Creator(s, s', reqs, c, s'.orders[i]);
      assert c != t;
    }
  }

  lemma StarvingIsEnough(s: State, s': State, reqs: map<TxId, Request>, t: TxId)
    requires PoolOk(s') && Spent(s, s', reqs) && s'.pool <= s.pool && t in s'.txs && s'.txs[t].phase.Rejected?
    requires !HasFree(s')
    ensures 1 <= s.pool <= |reqs|
  {
    assert t in s'.busy;
    SubsetCardinality({t}, s'.busy);
    SubsetCardinality(s'.txs.Keys - s.txs.Keys, reqs.Keys);
  }

  // ---- How to starve a pool -----------------------------------------------------------------------------------------

  lemma ThreeSteps(s: State, a: Label, b: Label, c: Label)
    ensures Exec(s, [] + [a] + [b] + [c]) == Step(Step(Step(s, a), b), c)
  {
    ExecSnoc(s, [], a);
    ExecSnoc(s, [] + [a], b);
    ExecSnoc(s, [] + [a] + [b], c);
  }

  lemma AbortsAlone(s: State, t: TxId, req: Request)
    requires t !in s.txs
    ensures Step(With(s, t, req, Started), Abort(t)) == With(s, t, req, Finished(Failed))
  {
    MoveWith(s, t, req, Started, Finished(Failed));
  }

  /** `t` is over and its connection is lost. */
  function Without(s: State, t: TxId, req: Request): State
    requires s.pool > 0
  {
    s.(txs := s.txs[t := Tx(req, Finished(Failed))], pool := s.pool - 1)
  }

  lemma StrandsAlone(s: State, t: TxId, req: Request)
    requires t !in s.txs && t !in s.busy && s.pool > 0
    ensures Step(With(s, t, req, Finished(Failed)), Strand(t)) == Without(s, t, req)
  {
    assert s.busy + {t} - {t} == s.busy;
  }

  /** A request that fails and loses its connection. */
  lemma LosesConnection(s: State, t: TxId, req: Request) returns (run: seq<Label>)
    requires t !in s.txs && t !in s.busy && HasFree(s)
    ensures forall i :: 0 <= i < |run| && run[i].Begin? ==> run[i] == Begin(t, req)
    ensures Exec(s, run) == Without(s, t, req)
  {
    ApproachBegin(s, t, req);
    AbortsAlone(s, t, req);
    StrandsAlone(s, t, req);
    run := [] + [Begin(t, req)] + [Abort(t)] + [Strand(t)];
    ThreeSteps(s, Begin(t, req), Abort(t), Strand(t));
  }

  /** Idle as before, with some requests over and fewer connections; orders only grow. */
  predicate Later(s: State, s': State, over: set<TxId>, lost: nat) {
    && Idle(s') && s'.txs.Keys == s.txs.Keys + over && s.orders <= s'.orders && s'.pool == s.pool - lost
  }

  lemma LaterTwice(s: State, s': State, s'': State, over: set<TxId>, over': set<TxId>, lost: nat, lost': nat)
    requires Later(s, s', over, lost) && Later(s', s'', over', lost')
    ensures Later(s, s'', over + over', lost + lost')
  {
  }

  lemma WithoutIsLater(s: State, t: TxId, req: Request)
    requires Idle(s) && s.pool > 0
    ensures Later(s, Without(s, t, req), {t}, 1)
  {
  }

  /** Runs of these requests, one after the other. */
  lemma Joined(s: State, run1: seq<Label>, run2: seq<Label>, reqs: map<TxId, Request>) returns (run: seq<Label>)
    requires OnlyThese(run1, reqs) && OnlyThese(run2, reqs)
    ensures OnlyThese(run, reqs) && Exec(s, run) == Exec(Exec(s, run1), run2)
  {
    run := run1 + run2;
    ExecConcat(s, run1, run2);
    forall i | 0 <= i < |run| && run[i].Begin? ensures run[i].t in reqs && run[i].req == reqs[run[i].t] {
      assert run[i] == if i < |run1| then run1[i] else run2[i - |run1|];
    }
  }

  lemma RestIsFresh(us: set<TxId>, keys: set<TxId>, u: TxId)
    requires us !! keys && u in us
    ensures us - {u} !! keys + {u} && {u} + (us - {u}) == us && |us - {u}| == |us| - 1
  {
    BusyShrinks(us, u);
  }

  lemma LosesOne(s: State, reqs: map<TxId, Request>, u: TxId) returns (run: seq<Label>)
    requires Idle(s) && u in reqs && u !in s.txs && s.pool > 0
    ensures OnlyThese(run, reqs) && Later(s, Exec(s, run), {u}, 1)
  {
    run := LosesConnection(s, u, reqs[u]);
    WithoutIsLater(s, u, reqs[u]);
  }

  /** As many connections are lost as requests are spent on it. */
  lemma {:induction false} LoseConnections(s: State, reqs: map<TxId, Request>, us: set<TxId>) returns (run: seq<Label>)
    requires Idle(s) && us <= reqs.Keys && us !! s.txs.Keys && |us| <= s.pool
    ensures OnlyThese(run, reqs) && Later(s, Exec(s, run), us, |us|)
    decreases |us|
  {
    run := [];
    if us != {} {
      var u :| u in us;
      RestIsFresh(us, s.txs.Keys, u);
      var first := LosesOne(s, reqs, u);
      var rest := LoseConnections(Exec(s, first), reqs, us - {u});
      LaterTwice(s, Exec(s, first), Exec(Exec(s, first), rest), {u}, us - {u}, 1, |us| - 1);
      run := Joined(s, first, rest, reqs);
    }
  }

  lemma {:induction false} SomeOf(from: set<TxId>, n: nat) returns (some: set<TxId>)
    requires n <= |from|
    ensures some <= from && |some| == n
    decreases n
  {
    some := {};
    if n > 0 {
      var x :| x in from;
      BusyShrinks(from, x);
      var rest := SomeOf(from - {x}, n - 1);
      some := rest + {x};
    }
  }

  /** With one request left over the pool is used up by a request that is rejected. */
  lemma StarveWith(s: State, reqs: map<TxId, Request>, r: TxId, us: set<TxId>) returns (run: seq<Label>)
    requires Idle(s) && reqs.Keys !! s.txs.Keys && r in reqs && KeyTaken(s, RequestKey(reqs[r]))
    requires us <= reqs.Keys - {r} && |us| + 1 == s.pool
    ensures OnlyThese(run, reqs) && Starved(Exec(s, run)) && Pending(Exec(s, run), r)
  {
    var first := LoseConnections(s, reqs, us);
    var s1 := Exec(s, first);
    KeyStays(s.orders, s1.orders, RequestKey(reqs[r]));
    var rest := LastIsRejected(s1, r, reqs[r]);
    assert OnlyThese(rest, reqs);
    run := Joined(s, first, rest, reqs);
  }

  lemma LastIsRejected(s: State, r: TxId, req: Request) returns (run: seq<Label>)
    requires Idle(s) && r !in s.txs && KeyTaken(s, RequestKey(req)) && s.pool == 1
    ensures forall i :: 0 <= i < |run| && run[i].Begin? ==> run[i] == Begin(r, req)
    ensures Starved(Exec(s, run)) && Pending(Exec(s, run), r)
  {
    run := Repeated(s, r, req);
    assert Exec(s, run).busy == {r};
  }

  lemma StarveByTakenKey(s: State, reqs: map<TxId, Request>, r: TxId)
    requires Idle(s) && reqs.Keys !! s.txs.Keys && r in reqs && KeyTaken(s, RequestKey(reqs[r]))
    requires 1 <= s.pool <= |reqs|
    ensures CanStarve(s, reqs)
  {
    BusyShrinks(reqs.Keys, r);
    var us := SomeOf(reqs.Keys - {r}, s.pool - 1);
    var run := StarveWith(s, reqs, r, us);
  }

  // ---- One order is created alone ------------------------------------------------------------------------------

  function RowsUpTo(s: State, plan: seq<ProductId>, k: nat): map<ProductId, Product>
    requires k <= |plan| && Elems(plan) <= s.products.Keys
  {
    map p | p in Elems(plan[..k]) :: s.products[p]
  }

  lemma {:induction false} LocksAll(s: State, t: TxId, req: Request, oid: OrderId, plan: seq<ProductId>, k: nat)
    returns (run: seq<Label>)
    requires Idle(s) && t !in s.txs && Elems(plan) <= s.products.Keys && k <= |plan|
    ensures forall i :: 0 <= i < |run| ==> !run[i].Begin?
    ensures Exec(With(s, t, req, Locking(oid, plan, 0, map[])), run)
         == With(s, t, req, Locking(oid, plan, k, RowsUpTo(s, plan, k)))
  {
    run := [];
    var start := With(s, t, req, Locking(oid, plan, 0, map[]));
    if k == 0 {
      assert RowsUpTo(s, plan, 0) == map[];
    } else {
      run := LocksAll(s, t, req, oid, plan, k - 1);
      LocksNext(s, t, req, oid, plan, k - 1);
      ExecSnoc(start, run, Lock(t));
      run := run + [Lock(t)];
    }
  }

  lemma LocksNext(s: State, t: TxId, req: Request, oid: OrderId, plan: seq<ProductId>, k: nat)
    requires Idle(s) && t !in s.txs && Elems(plan) <= s.products.Keys && k < |plan|
    ensures Step(With(s, t, req, Locking(oid, plan, k, RowsUpTo(s, plan, k))), Lock(t))
         == With(s, t, req, Locking(oid, plan, k + 1, RowsUpTo(s, plan, k + 1)))
  {
    assert plan[k] in Elems(plan);
    assert plan[..k + 1] == plan[..k] + [plan[k]];
    assert Elems(plan[..k + 1]) == Elems(plan[..k]) + {plan[k]};
    assert RowsUpTo(s, plan, k)[plan[k] := s.products[plan[k]]] == RowsUpTo(s, plan, k + 1);
    MoveWith(s, t, req, Locking(oid, plan, k, RowsUpTo(s, plan, k)),
             Locking(oid, plan, k + 1, RowsUpTo(s, plan, k + 1)));
  }

  lemma Inserts(s: State, t: TxId, req: Request, oid: OrderId, plan: seq<ProductId>) returns (run: seq<Label>)
    requires Idle(s) && t !in s.txs && HasFree(s) && !KeyTaken(s, RequestKey(req)) && FreshId(s, oid)
    requires req.items != [] && IsScan(plan, req.items, s.products.Keys)
    ensures forall i :: 0 <= i < |run| && run[i].Begin? ==> run[i] == Begin(t, req)
    ensures Exec(s, run) == With(s, t, req, Locking(oid, plan, 0, map[]))
  {
    ApproachBegin(s, t, req);
    ApproachInsert(s, t, req, oid);
    ApproachScan(s, t, req, oid, plan);
    run := [] + [Begin(t, req)] + [Insert(t, oid)] + [Scan(t, plan)];
    ThreeSteps(s, Begin(t, req), Insert(t, oid), Scan(t, plan));
  }

  /** A run in which at most one request begins, and then one in which none does. */
  lemma JoinedAlone(s: State, run1: seq<Label>, run2: seq<Label>, t: TxId, req: Request) returns (run: seq<Label>)
    requires forall i :: 0 <= i < |run1| && run1[i].Begin? ==> run1[i] == Begin(t, req)
    requires forall i :: 0 <= i < |run2| ==> !run2[i].Begin?
    ensures forall i :: 0 <= i < |run| && run[i].Begin? ==> run[i] == Begin(t, req)
    ensures Exec(s, run) == Exec(Exec(s, run1), run2)
  {
    run := run1 + run2;
    ExecConcat(s, run1, run2);
    assert forall i :: 0 <= i < |run1| ==> run[i] == run1[i];
    assert forall i :: |run1| <= i < |run| ==> run[i] == run2[i - |run1|];
  }

  /** From the inserted order row to the locked product rows. */
  lemma InsertsAndLocks(s: State, t: TxId, req: Request) returns (run: seq<Label>, oid: OrderId, plan: seq<ProductId>)
    requires Idle(s) && t !in s.txs && HasFree(s) && !KeyTaken(s, RequestKey(req)) && Creatable(s.products, req)
    ensures forall i :: 0 <= i < |run| && run[i].Begin? ==> run[i] == Begin(t, req)
    ensures IsScan(plan, req.items, s.products.Keys) && Elems(plan) <= s.products.Keys
    ensures Exec(s, run) == With(s, t, req, Locking(oid, plan, |plan|, RowsUpTo(s, plan, |plan|)))
  {
    oid := FreshIdExists(s);
    plan := Enumerate(Ids(req.items) * s.products.Keys);
    var first := Inserts(s, t, req, oid, plan);
    var locks := LocksAll(s, t, req, oid, plan, |plan|);
    run := JoinedAlone(s, first, locks, t, req);
  }

  lemma AllCovered(s: State, req: Request, plan: seq<ProductId>)
    requires Creatable(s.products, req) && IsScan(plan, req.items, s.products.Keys) && Elems(plan) <= s.products.Keys
    ensures |plan| == |req.items|
    ensures forall j :: 0 <= j < |plan| ==> Covered(req.items, RowsUpTo(s, plan, |plan|), plan[j])
  {
    assert plan[..|plan|] == plan;
    LengthCheckExact(plan, req.items, s.products.Keys);
    forall j | 0 <= j < |plan| ensures Covered(req.items, RowsUpTo(s, plan, |plan|), plan[j]) {
      assert plan[j] in Elems(plan) && plan[j] in Ids(req.items);
      assert Covered(req.items, s.products, plan[j]);
    }
  }

  lemma ReservesAll(s: State, t: TxId, req: Request, oid: OrderId, plan: seq<ProductId>)
    requires Creatable(s.products, req) && IsScan(plan, req.items, s.products.Keys) && Elems(plan) <= s.products.Keys
    ensures Step(With(s, t, req, Locking(oid, plan, |plan|, RowsUpTo(s, plan, |plan|))), Reserve(t))
         == With(s, t, req, Reserved(oid, RowsUpTo(s, plan, |plan|)))
  {
    var rows := RowsUpTo(s, plan, |plan|);
    AllCovered(s, req, plan);
    MoveWith(s, t, req, Locking(oid, plan, |plan|, rows), Reserved(oid, rows));
  }

  /** What is left once the order is committed. */
  predicate Ordered(s: State, s': State, t: TxId, req: Request) {
    && t in s'.txs && s'.txs == s.txs[t := s'.txs[t]] && s'.txs[t].phase.Committed? && s'.busy == s.busy + {t}
    && s'.pool == s.pool && s.orders <= s'.orders && KeyTaken(s', RequestKey(req))
  }

  lemma CommitOrders(s: State, t: TxId, req: Request, ph: Phase)
    requires ph.Written? && t !in s.txs
    ensures Ordered(s, Step(With(s, t, req, ph), OrderProtocol.Commit(t)), t, req)
  {
    var s' := Step(With(s, t, req, ph), OrderProtocol.Commit(t));
    assert OrderKey(s'.orders[|s.orders|]) == RequestKey(req);
    assert s.txs[t := Tx(req, ph)][t := s'.txs[t]] == s.txs[t := s'.txs[t]];
  }

  lemma Saves(s: State, t: TxId, req: Request, oid: OrderId, rows: map<ProductId, Product>)
    ensures var items, stocks := Lines(req.items, rows), Deduct(req.items, rows);
            && Step(With(s, t, req, Reserved(oid, rows)), SaveItems(t)) == With(s, t, req, ItemsSaved(oid, rows, items))
            && Step(With(s, t, req, ItemsSaved(oid, rows, items)), SaveProducts(t))
            == With(s, t, req, Written(oid, rows, items, stocks))
  {
    var items, stocks := Lines(req.items, rows), Deduct(req.items, rows);
    MoveWith(s, t, req, Reserved(oid, rows), ItemsSaved(oid, rows, items));
    MoveWith(s, t, req, ItemsSaved(oid, rows, items), Written(oid, rows, items, stocks));
  }

  lemma WritesAll(s: State, t: TxId, req: Request, oid: OrderId, rows: map<ProductId, Product>)
    returns (run: seq<Label>)
    requires t !in s.txs
    ensures forall i :: 0 <= i < |run| ==> !run[i].Begin?
    ensures Ordered(s, Exec(With(s, t, req, Reserved(oid, rows)), run), t, req)
  {
    Saves(s, t, req, oid, rows);
    CommitOrders(s, t, req, Written(oid, rows, Lines(req.items, rows), Deduct(req.items, rows)));
    run := [] + [SaveItems(t)] + [SaveProducts(t)] + [OrderProtocol.Commit(t)];
    ThreeSteps(With(s, t, req, Reserved(oid, rows)), SaveItems(t), SaveProducts(t), OrderProtocol.Commit(t));
  }

  lemma OneStep(s: State, l: Label)
    ensures Exec(s, [] + [l]) == Step(s, l)
  {
    ExecSnoc(s, [], l);
  }

  lemma CommitsAlone(s: State, t: TxId, req: Request) returns (run: seq<Label>)
    requires Idle(s) && t !in s.txs && HasFree(s) && !KeyTaken(s, RequestKey(req)) && Creatable(s.products, req)
    ensures forall i :: 0 <= i < |run| && run[i].Begin? ==> run[i] == Begin(t, req)
    ensures Ordered(s, Exec(s, run), t, req)
  {
    var first, oid, plan := InsertsAndLocks(s, t, req);
    ReservesAll(s, t, req, oid, plan);
    OneStep(Exec(s, first), Reserve(t));
    var second := JoinedAlone(s, first, [] + [Reserve(t)], t, req);
    var rest := WritesAll(s, t, req, oid, RowsUpTo(s, plan, |plan|));
    run := JoinedAlone(s, second, rest, t, req);
  }

  /** The connection is given back or lost, and the message sent. */
  lemma Ends(s: State, s': State, t: TxId, req: Request, lose: bool) returns (run: seq<Label>)
    requires Idle(s) && s.pool > 0 && Ordered(s, s', t, req)
    ensures forall i :: 0 <= i < |run| ==> !run[i].Begin?
    ensures Exec(s', run).orders == s'.orders && Later(s, Exec(s', run), {t}, if lose then 1 else 0)
  {
    var back := if lose then Strand(t) else Release(t);
    assert s'.busy - {t} == {};
    run := [] + [back] + [Publish(t)];
    OneStep(s', back);
    ExecSnoc(s', [] + [back], Publish(t));
  }

  /** The creator gives its connection back, or loses it, and is done. */
  lemma OrdersAlone(s: State, reqs: map<TxId, Request>, c: TxId, lose: bool) returns (run: seq<Label>)
    requires Idle(s) && c in reqs && c !in s.txs && HasFree(s)
    requires !KeyTaken(s, RequestKey(reqs[c])) && Creatable(s.products, reqs[c])
    ensures OnlyThese(run, reqs) && KeyTaken(Exec(s, run), RequestKey(reqs[c]))
    ensures Later(s, Exec(s, run), {c}, if lose then 1 else 0)
  {
    var first := CommitsAlone(s, c, reqs[c]);
    var rest := Ends(s, Exec(s, first), c, reqs[c], lose);
    run := JoinedAlone(s, first, rest, c, reqs[c]);
  }

  lemma StarveByCreating(s: State, reqs: map<TxId, Request>, r: TxId, c: TxId)
    requires Idle(s) && reqs.Keys !! s.txs.Keys && r in reqs && c in reqs && c != r && 1 <= s.pool <= |reqs|
    requires RequestKey(reqs[c]) == RequestKey(reqs[r]) && !KeyTaken(s, RequestKey(reqs[c]))
    requires Creatable(s.products, reqs[c])
    ensures CanStarve(s, reqs)
  {
    var lose := s.pool > 1;
    var first := OrdersAlone(s, reqs, c, lose);
    var s1 := Exec(s, first);
    BusyShrinks(reqs.Keys, c);
    BusyShrinks(reqs.Keys - {c}, r);
    var left := reqs - {c};
    var us := SomeOf(left.Keys - {r}, s1.pool - 1);
    var rest := StarveWith(s1, left, r, us);
    assert OnlyThese(rest, reqs);
    var run := Joined(s, first, rest, reqs);
  }

  // ---- The exact condition -------------------------------------------------------------------------------------

  /** Requests with quantities that are not negative, arriving while nothing else is under way, can starve the pool
      exactly if they are at least as many as its connections and one of them can be rejected: its key has an order,
      or another of them can create one. One rejected request and failures that lose every other connection are
      enough. */
  lemma StarvationExactly(s: State, reqs: map<TxId, Request>)
    requires Inv(s) && PoolOk(s) && Idle(s) && reqs.Keys !! s.txs.Keys
    requires forall t :: t in reqs ==> NonNegative(reqs[t].items)
    ensures CanStarve(s, reqs) <==> 1 <= s.pool <= |reqs| && exists r :: CanBeRejected(s, reqs, r)
  {
    if CanStarve(s, reqs) {
      var run, t :| OnlyThese(run, reqs) && Starved(Exec(s, run)) && Pending(Exec(s, run), t);
      RunKeepsInv(s, run);
      RunKeepsPool(s, run);
      RunArrives(s, reqs, run);
      RunSpends(s, reqs, run);
      RunSells(s, reqs, run);
      StarvingIsEnough(s, Exec(s, run), reqs, t);
      StarvingIsRejected(s, Exec(s, run), reqs, t);
    }
    if r :| 1 <= s.pool <= |reqs| && CanBeRejected(s, reqs, r) {
      if KeyTaken(s, RequestKey(reqs[r])) {
        StarveByTakenKey(s, reqs, r);
      } else {
        var c :| c in reqs && c != r && RequestKey(reqs[c]) == RequestKey(reqs[r]) && Creatable(s.products, reqs[c]);
        StarveByCreating(s, reqs, r, c);
      }
    }
  }
}
