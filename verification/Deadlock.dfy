/** What can stop order creation for good, and nothing else can: `findByIds` locks its rows one at a time in an
    order the query leaves open, so requests can wait for each other in a cycle; and after 23505 the existing order
    is read through a second connection while the first is kept, so duplicates can use up the pool. */
module Deadlock {
  import opened Domain
  import opened Reservation
  import opened SequentialShop
  import opened OrderProtocol
  import opened OrderInvariant

  /** The request is not over: it has no reply yet, or its connection is still to be given back. */
  predicate Pending(s: State, t: TxId) {
    t in s.txs && (!s.txs[t].phase.Finished? || t in s.busy)
  }

  /** `t` waits for `u`: for the unique key `u` has inserted, or for the next product row of its scan. */
  predicate WaitsFor(s: State, t: TxId, u: TxId) {
    && t in s.txs && u in s.txs && t != u
    && (|| WaitsForKey(s.txs[t], s.txs[u])
        || WaitsForRow(s.txs[t].phase, s.txs[u].phase))
  }

  predicate WaitsForKey(t: Tx, u: Tx) {
    t.phase.Started? && HoldsKey(u.phase) && RequestKey(t.req) == RequestKey(u.req)
  }

  predicate WaitsForRow(t: Phase, u: Phase) {
    t.Locking? && t.next < |t.plan| && t.plan[t.next] in Rows(u)
  }

  /** Each transaction of the walk waits for the next one. */
  predicate Walk(s: State, w: seq<TxId>) {
    forall i :: 0 <= i < |w| - 1 ==> WaitsFor(s, w[i], w[i + 1])
  }

  predicate Cycle(s: State, w: seq<TxId>) {
    |w| >= 2 && Walk(s, w) && w[0] == w[|w| - 1]
  }

  /** No failure, and no new request. */
  predicate Progress(l: Label) {
    !l.Begin? && !l.Abort? && !l.CommitUnseen? && !l.PublishFails? && !l.UseAborted? && !l.Strand?
  }

  predicate Advances(s: State, t: TxId, l: Label) {
    Progress(l) && l.t == t && Enabled(s, l)
  }

  /** 23505 was raised and no second connection is free for the recovery read. */
  predicate WaitsForConnection(s: State, t: TxId) {
    t in s.txs && s.txs[t].phase.Rejected? && !HasFree(s)
  }

  // ---- Shape --------------------------------------------------------------------------------------------

  /** A transaction waiting for a key holds neither a key nor a row, so nobody waits for it. */
  lemma KeyWaiterBlocksNobody(s: State, t: TxId, u: TxId)
    requires t in s.txs && s.txs[t].phase.Started?
    ensures Rows(s.txs[t].phase) == map[] && !HoldsKey(s.txs[t].phase)
    ensures !WaitsFor(s, u, t)
  {
  }

  /** Every member of a wait-for cycle is inside `findByIds`, holds a product row and waits for another one, so
      it asked for at least two products. */
  lemma CycleShape(s: State, w: seq<TxId>, i: nat)
    requires Inv(s) && Cycle(s, w) && i < |w|
    ensures w[i] in s.txs
    ensures var ph := s.txs[w[i]].phase;
            && ph.Locking? && 0 < ph.next < |ph.plan| && ph.rows != map[]
            && |Ids(s.txs[w[i]].req.items)| >= 2
  {
    var pred := if i == 0 then |w| - 2 else i - 1;
    var at := if i == |w| - 1 then 0 else i;
    assert WaitsFor(s, w[pred], w[pred + 1]);
    assert WaitsFor(s, w[at], w[at + 1]);
    assert w[pred + 1] == w[at] == w[i];
    if s.txs[w[i]].phase.Started? {
      KeyWaiterBlocksNobody(s, w[i], w[pred]);
    }
    var ph := s.txs[w[i]].phase;
    assert ph.Locking?;
    if s.txs[w[pred]].phase.Started? {
      KeyWaiterIsNoMember(s, w, pred);
    }
    assert PhaseOk(s, s.txs[w[i]].req, ph);
    var wanted := s.txs[w[pred]].phase.plan[s.txs[w[pred]].phase.next];
    assert wanted in ph.rows;
    assert ph.next > 0;
    ElemsCardinality(ph.plan);
    SubsetCardinality(Elems(ph.plan), Ids(s.txs[w[i]].req.items));
  }

  lemma KeyWaiterIsNoMember(s: State, w: seq<TxId>, i: nat)
    requires Cycle(s, w) && i < |w| && w[i] in s.txs
    ensures !s.txs[w[i]].phase.Started?
  {
    var pred := if i == 0 then |w| - 2 else i - 1;
    assert WaitsFor(s, w[pred], w[pred + 1]);
  }

  /** Requests that name one product each never deadlock. */
  lemma OneProductNeverDeadlocks(s: State, w: seq<TxId>)
    requires Inv(s)
    requires forall t :: t in s.txs ==> |s.txs[t].req.items| <= 1
    ensures !Cycle(s, w)
  {
    if Cycle(s, w) {
      CycleShape(s, w, 0);
      ElemsCardinality(IdList(s.txs[w[0]].req.items));
      assert false;
    }
  }

  /** All scans visit rows in increasing order of one ranking, as an ORDER BY would make them. */
  predicate RankedScans(s: State, rank: ProductId -> int) {
    forall t :: t in s.txs && s.txs[t].phase.Locking? ==> Ascending(s.txs[t].phase.plan, rank)
  }

  predicate Ascending(plan: seq<ProductId>, rank: ProductId -> int) {
    forall i, j :: 0 <= i < j < |plan| ==> rank(plan[i]) < rank(plan[j])
  }

  function Wanted(s: State, t: TxId): ProductId
    requires t in s.txs && s.txs[t].phase.Locking? && s.txs[t].phase.next < |s.txs[t].phase.plan|
  {
    s.txs[t].phase.plan[s.txs[t].phase.next]
  }

  lemma {:induction false} RanksRise(s: State, w: seq<TxId>, rank: ProductId -> int, i: nat)
    requires Inv(s) && Cycle(s, w) && RankedScans(s, rank) && i < |w|
    ensures w[0] in s.txs && s.txs[w[0]].phase.Locking? && s.txs[w[0]].phase.next < |s.txs[w[0]].phase.plan|
    ensures w[i] in s.txs && s.txs[w[i]].phase.Locking? && s.txs[w[i]].phase.next < |s.txs[w[i]].phase.plan|
    ensures rank(Wanted(s, w[0])) + i <= rank(Wanted(s, w[i]))
  {
    CycleShape(s, w, 0);
    CycleShape(s, w, i);
    if i > 0 {
      RanksRise(s, w, rank, i - 1);
      assert WaitsFor(s, w[i - 1], w[i - 1 + 1]);
      var ph := s.txs[w[i]].phase;
      assert PhaseOk(s, s.txs[w[i]].req, ph);
      var j :| 0 <= j < ph.next && ph.plan[..ph.next][j] == Wanted(s, w[i - 1]);
      assert ph.plan[j] == Wanted(s, w[i - 1]);
    }
  }

  /** If every query returned its rows in one common order, no run could deadlock. */
  lemma CommonOrderNeverDeadlocks(s: State, w: seq<TxId>, rank: ProductId -> int)
    requires Inv(s) && RankedScans(s, rank)
    ensures !Cycle(s, w)
  {
    if Cycle(s, w) {
      RanksRise(s, w, rank, |w| - 1);
      assert false;
    }
  }

  // ---- Progress -----------------------------------------------------------------------------------------

  lemma FreshIdExists(s: State) returns (oid: OrderId)
    ensures FreshId(s, oid)
  {
    var committed := set i | 0 <= i < |s.orders| :: s.orders[i].id;
    var pending := set t | t in s.txs && HoldsKey(s.txs[t].phase) :: s.txs[t].phase.oid;
    oid := UnusedId(committed + pending);
    assert forall i :: 0 <= i < |s.orders| ==> s.orders[i].id in committed;
    assert forall u :: u in s.txs && HoldsKey(s.txs[u].phase) ==> s.txs[u].phase.oid in pending;
  }

  lemma {:induction false} Enumerate(ids: set<ProductId>) returns (plan: seq<ProductId>)
    ensures Distinct(plan) && Elems(plan) == ids
    decreases |ids|
  {
    if ids == {} {
      plan := [];
    } else {
      var p :| p in ids;
      var rest := Enumerate(ids - {p});
      plan := rest + [p];
      assert forall i :: 0 <= i < |rest| ==> rest[i] in Elems(rest);
      assert plan[..|rest|] == rest && plan[|rest|] == p;
      forall x ensures x in Elems(plan) <==> x in Elems(rest) || x == p {
        if x in Elems(rest) {
          var i :| 0 <= i < |rest| && rest[i] == x;
          assert plan[i] == x;
        }
      }
    }
  }

  /** The least row of the scan that is short, or none. */
  lemma {:induction false} FirstShort(items: seq<OrderItemDto>, rows: map<ProductId, Product>, plan: seq<ProductId>)
    returns (at: nat)
    ensures at <= |plan|
    ensures forall j :: 0 <= j < at ==> Covered(items, rows, plan[j])
    ensures at < |plan| ==> !Covered(items, rows, plan[at])
    decreases |plan|
  {
    if plan == [] {
      at := 0;
    } else {
      at := FirstShort(items, rows, plan[..|plan| - 1]);
      if at == |plan| - 1 && Covered(items, rows, plan[at]) {
        at := |plan|;
      }
    }
  }

  lemma StartedAdvancesOrWaits(s: State, t: TxId) returns (l: Label, u: TxId)
    requires t in s.txs && s.txs[t].phase.Started?
    ensures Advances(s, t, l) || (WaitsFor(s, t, u) && Pending(s, u))
  {
    var req := s.txs[t].req;
    l, u := Reject(t), t;
    if !KeyTaken(s, RequestKey(req)) {
      if KeyHeldByOther(s, t, RequestKey(req)) {
        u :| u in s.txs && u != t && HoldsKey(s.txs[u].phase) && RequestKey(s.txs[u].req) == RequestKey(req);
      } else {
        var oid := FreshIdExists(s);
        l := Insert(t, oid);
      }
    }
  }

  lemma InsertedAdvances(s: State, t: TxId) returns (l: Label)
    requires t in s.txs && s.txs[t].phase.Inserted?
    ensures Advances(s, t, l)
  {
    var req := s.txs[t].req;
    if req.items == [] {
      l := EmptyQuery(t);
    } else {
      var plan := Enumerate(Ids(req.items) * s.products.Keys);
      l := Scan(t, plan);
    }
  }

  /** The next step of a transaction that has nothing to wait for and nothing to choose. */
  function Straight(t: TxId, ph: Phase): Label {
    if ph.Reserved? then SaveItems(t)
    else if ph.ItemsSaved? then SaveProducts(t)
    else if ph.Written? then Commit(t)
    else if ph.Committed? then Publish(t)
    else Rollback(t)
  }

  /** All rows are locked: the length check, the loop or its error is next. */
  lemma LockedAdvances(s: State, t: TxId) returns (l: Label)
    requires Inv(s) && t in s.txs && AllLocked(s.txs[t].phase)
    ensures Advances(s, t, l)
  {
    var ph, req := s.txs[t].phase, s.txs[t].req;
    assert PhaseOk(s, req, ph);
    if |ph.plan| != |req.items| {
      l := Missing(t);
    } else {
      var at := FirstShort(req.items, ph.rows, ph.plan);
      assert ph.plan[..ph.next] == ph.plan;
      if at < |ph.plan| {
        assert ph.plan[at] in Elems(ph.plan);
        l := Short(t, at);
      } else {
        l := Reserve(t);
      }
    }
  }

  lemma LockingAdvancesOrWaits(s: State, t: TxId) returns (l: Label, u: TxId)
    requires Inv(s) && t in s.txs && s.txs[t].phase.Locking?
    ensures Advances(s, t, l) || (WaitsFor(s, t, u) && Pending(s, u))
  {
    var ph := s.txs[t].phase;
    l, u := Lock(t), t;
    assert PhaseOk(s, s.txs[t].req, ph);
    if AllLocked(ph) {
      l := LockedAdvances(s, t);
    } else {
      var p := ph.plan[ph.next];
      assert p in Elems(ph.plan);
      if LockedByOther(s, t, p) {
        u :| u in s.txs && u != t && p in Rows(s.txs[u].phase);
      }
    }
  }

  /** Every request that is not over can advance, waits for another one, or waits for a connection. */
  lemma AdvancesOrWaits(s: State, t: TxId) returns (l: Label, u: TxId)
    requires Inv(s) && Pending(s, t)
    ensures Advances(s, t, l) || (WaitsFor(s, t, u) && Pending(s, u)) || WaitsForConnection(s, t)
  {
    u := t;
    var ph := s.txs[t].phase;
    if ph.Started? {
      l, u := StartedAdvancesOrWaits(s, t);
    } else if ph.Locking? {
      l, u := LockingAdvancesOrWaits(s, t);
    } else if ph.Inserted? {
      l := InsertedAdvances(s, t);
    } else if ph.Rejected? {
      var at := OnlyOrderOfKey(s, t);
      l := Recover(t, at);
    } else if !Open(ph) && t in s.busy {
      l := Release(t);
    } else {
      l := Straight(t, ph);
    }
  }

  lemma WaiterIsBlocked(s: State, t: TxId, u: TxId, l: Label)
    requires Inv(s) && WaitsFor(s, t, u)
    ensures !Advances(s, t, l)
  {
    assert HolderOk(s, s.txs[u].req, s.txs[u].phase);
  }

  /** The wait-for relation is exact: a request that is not over can advance exactly if it waits for no other
      request and for no connection. */
  lemma AdvancesExactly(s: State, t: TxId)
    requires Inv(s) && Pending(s, t)
    ensures (exists l :: Advances(s, t, l)) <==> (forall u :: !WaitsFor(s, t, u)) && !WaitsForConnection(s, t)
  {
    var l, u := AdvancesOrWaits(s, t);
    forall v, k | WaitsFor(s, t, v) ensures !Advances(s, t, k) {
      WaiterIsBlocked(s, t, v, k);
    }
  }

  /** A walk with more entries than there are transactions repeats one. */
  lemma {:induction false} Pigeonhole(w: seq<TxId>, within: set<TxId>) returns (i: nat, j: nat)
    requires forall k :: 0 <= k < |w| ==> w[k] in within
    requires |w| > |within|
    ensures i < j < |w| && w[i] == w[j]
  {
    ElemsCardinality(w);
    assert Elems(w) <= within;
    SubsetCardinality(Elems(w), within);
    i, j :| 0 <= i < j < |w| && w[i] == w[j];
  }

  /** If nobody can advance and one request waits for something other than a connection, walks of any length
      exist: nobody waits for a request that has been rejected. */
  lemma {:induction false} LongWalk(s: State, t: TxId, n: nat) returns (w: seq<TxId>)
    requires Inv(s) && Pending(s, t) && !s.txs[t].phase.Rejected?
    requires forall u, l :: !Advances(s, u, l)
    ensures |w| == n + 1 && Walk(s, w)
    ensures (forall k :: 0 <= k < |w| ==> Pending(s, w[k]) && !s.txs[w[k]].phase.Rejected?)
    decreases n
  {
    if n == 0 {
      w := [t];
    } else {
      var front := LongWalk(s, t, n - 1);
      var l, u := AdvancesOrWaits(s, front[n - 1]);
      assert !Advances(s, front[n - 1], l);
      w := front + [u];
    }
  }

  lemma LongWalkHasCycle(s: State, w: seq<TxId>) returns (c: seq<TxId>)
    requires Walk(s, w) && |w| > |s.txs| && forall k :: 0 <= k < |w| ==> w[k] in s.txs
    ensures Cycle(s, c)
  {
    var i, j := Pigeonhole(w, s.txs.Keys);
    c := w[i..j + 1];
    forall k | 0 <= k < |c| - 1 ensures WaitsFor(s, c[k], c[k + 1]) {
      assert WaitsFor(s, w[i + k], w[i + k + 1]);
    }
  }

  /** The pool is used up by requests that each need a second connection to go on. */
  predicate Starved(s: State) {
    !HasFree(s) && forall t | t in s.txs :: Pending(s, t) ==> s.txs[t].phase.Rejected?
  }

  /** The exact condition for a standstill without a wait-for cycle: as long as some request is not over, nobody
      can advance exactly if the pool is starved. */
  lemma StandstillExactly(s: State, t: TxId)
    requires Inv(s) && Pending(s, t)
    requires forall w :: !Cycle(s, w)
    ensures (forall u, l :: !Advances(s, u, l)) <==> Starved(s)
  {
    if forall u, l :: !Advances(s, u, l) {
      forall u | Pending(s, u) ensures s.txs[u].phase.Rejected? && !HasFree(s) {
        if !s.txs[u].phase.Rejected? {
          var w := LongWalk(s, u, |s.txs|);
          var c := LongWalkHasCycle(s, w);
          assert false;
        }
        var l, v := AdvancesOrWaits(s, u);
        assert !Advances(s, u, l);
      }
    }
  }

  function PendingTxs(s: State): set<TxId> {
    set t | t in s.txs && Pending(s, t)
  }

  /** With fewer requests under way than the pool has connections nothing but a cycle can stop them all. */
  lemma FewRequestsNeverStarve(s: State, t: TxId)
    requires Inv(s) && PoolOk(s) && Pending(s, t) && |PendingTxs(s)| < s.pool
    requires forall w :: !Cycle(s, w)
    ensures exists u, l :: Advances(s, u, l)
  {
    StandstillExactly(s, t);
    SubsetCardinality(s.busy, PendingTxs(s));
  }

  /** A request under a key that has an order comes as far as 23505. */
  lemma Repeated(s: State, t: TxId, req: Request) returns (run: seq<Label>)
    requires t !in s.txs && HasFree(s) && KeyTaken(s, RequestKey(req))
    ensures forall i :: 0 <= i < |run| ==> run[i] == Begin(t, req) || run[i] == Reject(t)
    ensures forall u :: Pending(Exec(s, run), u) ==> u == t || Pending(s, u)
    ensures Exec(s, run) == s.(txs := s.txs[t := Tx(req, Rejected)], busy := s.busy + {t})
  {
    var s1 := s.(txs := s.txs[t := Tx(req, Started)], busy := s.busy + {t});
    assert Step(s, Begin(t, req)) == s1;
    assert KeyTaken(s1, RequestKey(req));
    assert s1.txs[t := Tx(req, Rejected)] == s.txs[t := Tx(req, Rejected)];
    run := [] + [Begin(t, req)] + [Reject(t)];
    ExecSnoc(s, [], Begin(t, req));
    ExecSnoc(s, [] + [Begin(t, req)], Reject(t));
  }

  /** One more connection is taken for good. */
  lemma TakesConnection(s: State, items: seq<OrderItemDto>) returns (run: seq<Label>)
    requires s.orders != [] && HasFree(s)
    requires forall t :: Pending(s, t) ==> s.txs[t].phase.Rejected?
    ensures forall i :: 0 <= i < |run| ==> run[i].Begin? || run[i].Reject?
    ensures forall t :: Pending(Exec(s, run), t) ==> Exec(s, run).txs[t].phase.Rejected?
    ensures Exec(s, run).orders == s.orders && Exec(s, run).pool == s.pool && |Exec(s, run).busy| == |s.busy| + 1
  {
    var t := UnusedId(s.txs.Keys + s.busy);
    var req := Request(s.orders[0].userId, s.orders[0].key, items);
    assert OrderKey(s.orders[0]) == RequestKey(req);
    run := Repeated(s, t, req);
  }

  /** For a pool of any size starvation is reachable: from every state with a committed order, in which nobody
      is doing anything else, as many requests under its key, with any items, as there are free connections. */
  lemma {:induction false} StarvationIsReachable(s: State, items: seq<OrderItemDto>) returns (run: seq<Label>)
    requires s.orders != [] && |s.busy| <= s.pool
    requires forall t :: Pending(s, t) ==> s.txs[t].phase.Rejected?
    ensures Starved(Exec(s, run))
    ensures Exec(s, run).pool == s.pool && |Exec(s, run).busy| == s.pool
    ensures forall i :: 0 <= i < |run| ==> run[i].Begin? || run[i].Reject?
    decreases s.pool - |s.busy|
  {
    run := [];
    if HasFree(s) {
      var first := TakesConnection(s, items);
      var rest := StarvationIsReachable(Exec(s, first), items);
      run := first + rest;
      ExecConcat(s, first, rest);
    }
  }
}
