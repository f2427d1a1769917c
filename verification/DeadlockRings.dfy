/** Which sets of requests can deadlock: exactly those that contain a ring, in which each request names a product
    its predecessor names too, all of them different. */
module DeadlockRings {
  import opened Domain
  import opened Reservation
  import opened SequentialShop
  import opened OrderProtocol
  import opened OrderInvariant
  import opened Deadlock

  /** Nothing is under way. */
  predicate Idle(s: State) {
    s.busy == {} && forall t :: t in s.txs ==> s.txs[t].phase.Finished?
  }

  /** No requests but these arrive. */
  predicate OnlyThese(run: seq<Label>, reqs: map<TxId, Request>) {
    forall i :: 0 <= i < |run| && run[i].Begin? ==> run[i].t in reqs && run[i].req == reqs[run[i].t]
  }

  /** Some run of these requests, with any failures, ends in a wait-for cycle. */
  ghost predicate CanDeadlock(s: State, reqs: map<TxId, Request>) {
    exists run, w :: OnlyThese(run, reqs) && Cycle(Exec(s, run), w)
  }

  function After(j: nat, n: nat): nat
    requires j < n
  {
    if j + 1 < n then j + 1 else 0
  }

  predicate Names(req: Request, catalog: set<ProductId>, p: ProductId) {
    p in Ids(req.items) && p in catalog
  }

  predicate RingMember(s: State, reqs: map<TxId, Request>, t: TxId, first: ProductId, next: ProductId) {
    && t in reqs && !KeyTaken(s, RequestKey(reqs[t]))
    && Names(reqs[t], s.products.Keys, first) && Names(reqs[t], s.products.Keys, next)
  }

  /** `ring[j]` locks `rows[j]` first and then wants the row of the next one. */
  predicate Ring(s: State, reqs: map<TxId, Request>, ring: seq<TxId>, rows: seq<ProductId>) {
    && 2 <= |ring| == |rows| <= s.pool && Distinct(ring) && Distinct(rows)
    && (forall j {:trigger ring[j]} :: 0 <= j < |ring| ==>
          RingMember(s, reqs, ring[j], rows[j], rows[After(j, |ring|)]))
    && (forall i, j :: 0 <= i < j < |ring| ==> RequestKey(reqs[ring[i]]) != RequestKey(reqs[ring[j]]))
  }

  ghost predicate HasRing(s: State, reqs: map<TxId, Request>) {
    exists ring, rows :: Ring(s, reqs, ring, rows)
  }

  // ---- A cycle needs a ring -----------------------------------------------------------------------------------

  /** What a run of these requests leaves of where it started. */
  predicate Arrived(s: State, s': State, reqs: map<TxId, Request>) {
    && s'.products.Keys == s.products.Keys && s.orders <= s'.orders && s'.pool <= s.pool
    && (forall t :: t in s'.txs ==> s'.txs[t].phase.Finished? || (t in reqs && s'.txs[t].req == reqs[t]))
  }

  lemma StepKeepsCatalog(s: State, l: Label)
    requires Inv(s) && Enabled(s, l)
    ensures Next(s, l).products.Keys == s.products.Keys && s.orders <= Next(s, l).orders && Next(s, l).pool <= s.pool
  {
    if l.Commit? || l.CommitUnseen? {
      CommitKeepsCatalog(s, l.t);
    }
  }

  lemma StepArrives(s: State, s': State, reqs: map<TxId, Request>, l: Label)
    requires Inv(s') && Arrived(s, s', reqs) && (l.Begin? ==> l.t in reqs && l.req == reqs[l.t])
    ensures Arrived(s, Step(s', l), reqs)
  {
    if Enabled(s', l) {
      StepKeepsCatalog(s', l);
      StepKeepsRequests(s', l);
      forall t | t in Next(s', l).txs
        ensures Next(s', l).txs[t].phase.Finished? || (t in reqs && Next(s', l).txs[t].req == reqs[t])
      {
        if t !in s'.txs {
          StepAddsOnlyBegun(s', l, t);
        } else if s'.txs[t].phase.Finished? {
          FinishedStays(s', l, t);
        }
      }
    }
  }

  lemma {:induction false} RunArrives(s: State, reqs: map<TxId, Request>, run: seq<Label>)
    requires Inv(s) && Idle(s) && OnlyThese(run, reqs)
    ensures Arrived(s, Exec(s, run), reqs)
    decreases |run|
  {
    if run != [] {
      RunArrives(s, reqs, run[..|run| - 1]);
      RunKeepsInv(s, run[..|run| - 1]);
      StepArrives(s, Exec(s, run[..|run| - 1]), reqs, run[|run| - 1]);
    }
  }

  /** A cycle that visits nobody twice. */
  lemma {:induction false} SimpleCycle(s: State, w: seq<TxId>) returns (c: seq<TxId>)
    requires Cycle(s, w)
    ensures Cycle(s, c) && Distinct(c[..|c| - 1])
    decreases |w|
  {
    c := w;
    if i, j :| 0 <= i < j < |w| - 1 && w[i] == w[j] {
      var part := w[i..j + 1];
      forall k | 0 <= k < |part| - 1 ensures WaitsFor(s, part[k], part[k + 1]) {
        assert WaitsFor(s, w[i + k], w[i + k + 1]);
      }
      c := SimpleCycle(s, part);
    }
  }

  function Before(j: nat, n: nat): nat
    requires j < n
  {
    if j == 0 then n - 1 else j - 1
  }

  predicate InFindByIds(s: State, t: TxId) {
    t in s.txs && s.txs[t].phase.Locking? && s.txs[t].phase.next < |s.txs[t].phase.plan|
  }

  /** In a simple cycle each member wants the row that the next one holds. */
  lemma CycleRows(s: State, c: seq<TxId>, j: nat)
    requires Inv(s) && Cycle(s, c) && j < |c| - 1
    ensures var n := |c| - 1;
            && n >= 2 && InFindByIds(s, c[j]) && InFindByIds(s, c[Before(j, n)])
            && Wanted(s, c[Before(j, n)]) in Rows(s.txs[c[j]].phase)
  {
    CycleShape(s, c, j);
    CycleShape(s, c, Before(j, |c| - 1));
    assert WaitsFor(s, c[0], c[0 + 1]);
    assert WaitsFor(s, c[Before(j, |c| - 1)], c[Before(j, |c| - 1) + 1]);
  }

  lemma HeldAndWantedAreNamed(s: State, t: TxId, p: ProductId)
    requires Inv(s) && InFindByIds(s, t) && (p in Rows(s.txs[t].phase) || p == Wanted(s, t))
    ensures Names(s.txs[t].req, s.products.Keys, p)
  {
    var ph := s.txs[t].phase;
    assert PhaseOk(s, s.txs[t].req, ph);
    assert Elems(ph.plan[..ph.next]) <= Elems(ph.plan);
    assert ph.plan[ph.next] in Elems(ph.plan);
  }

  lemma CycleMember(s: State, s': State, reqs: map<TxId, Request>, c: seq<TxId>, j: nat)
    requires Inv(s') && Arrived(s, s', reqs) && Cycle(s', c) && j < |c| - 1
    ensures var n := |c| - 1;
            && InFindByIds(s', c[j]) && InFindByIds(s', c[Before(j, n)])
            && RingMember(s, reqs, c[j], Wanted(s', c[Before(j, n)]), Wanted(s', c[j]))
            && reqs[c[j]] == s'.txs[c[j]].req
  {
    CycleRows(s', c, j);
    HeldAndWantedAreNamed(s', c[j], Wanted(s', c[Before(j, |c| - 1)]));
    HeldAndWantedAreNamed(s', c[j], Wanted(s', c[j]));
    assert HolderOk(s', s'.txs[c[j]].req, s'.txs[c[j]].phase);
    KeyStays(s.orders, s'.orders, RequestKey(reqs[c[j]]));
  }

  lemma KeyStays(orders: seq<Order>, orders': seq<Order>, k: (UserId, IdempotencyKey))
    requires orders <= orders'
    ensures HasKey(orders, k) ==> HasKey(orders', k)
  {
    if i :| 0 <= i < |orders| && OrderKey(orders[i]) == k {
      assert orders'[i] == orders[i];
    }
  }

  lemma CyclePair(s: State, c: seq<TxId>, i: nat, j: nat)
    requires Inv(s) && Cycle(s, c) && Distinct(c[..|c| - 1]) && i < j < |c| - 1
    ensures var n := |c| - 1;
            && InFindByIds(s, c[Before(i, n)]) && InFindByIds(s, c[Before(j, n)])
            && Wanted(s, c[Before(i, n)]) != Wanted(s, c[Before(j, n)])
            && c[i] in s.txs && c[j] in s.txs && RequestKey(s.txs[c[i]].req) != RequestKey(s.txs[c[j]].req)
  {
    CycleRows(s, c, i);
    CycleRows(s, c, j);
    assert c[..|c| - 1][i] != c[..|c| - 1][j];
    assert PairOk(s.txs[c[i]], s.txs[c[j]]);
  }

  lemma CycleFitsPool(s: State, c: seq<TxId>)
    requires Inv(s) && PoolOk(s) && Cycle(s, c) && Distinct(c[..|c| - 1])
    ensures |c| - 1 <= s.pool
  {
    var ring := c[..|c| - 1];
    forall j | 0 <= j < |ring| ensures ring[j] in s.busy {
      CycleRows(s, c, j);
    }
    ElemsCardinality(ring);
    SubsetCardinality(Elems(ring), s.busy);
  }

  /** The rows that the members of a cycle hold and their predecessors want. */
  predicate RowsOf(s: State, c: seq<TxId>, rows: seq<ProductId>) {
    && |rows| == |c| - 1
    && (forall j :: 0 <= j < |rows| ==>
          InFindByIds(s, c[Before(j, |rows|)]) && rows[j] == Wanted(s, c[Before(j, |rows|)]))
  }

  lemma CycleHasRows(s: State, c: seq<TxId>) returns (rows: seq<ProductId>)
    requires Inv(s) && Cycle(s, c)
    ensures RowsOf(s, c, rows)
  {
    var n := |c| - 1;
    forall j | 0 <= j < n ensures InFindByIds(s, c[Before(j, n)]) {
      CycleRows(s, c, j);
    }
    rows := seq(n, j requires 0 <= j < n => Wanted(s, c[Before(j, n)]));
  }

  lemma MemberOfRing(s: State, s': State, reqs: map<TxId, Request>, c: seq<TxId>, rows: seq<ProductId>, j: nat)
    requires Inv(s') && Arrived(s, s', reqs) && Cycle(s', c) && RowsOf(s', c, rows) && j < |rows|
    ensures RingMember(s, reqs, c[j], rows[j], rows[After(j, |rows|)]) && reqs[c[j]] == s'.txs[c[j]].req
  {
    CycleMember(s, s', reqs, c, j);
    assert Before(After(j, |rows|), |rows|) == j;
  }

  lemma PairOfRing(s: State, s': State, reqs: map<TxId, Request>, c: seq<TxId>, rows: seq<ProductId>, i: nat, j: nat)
    requires Inv(s') && Arrived(s, s', reqs) && Cycle(s', c) && Distinct(c[..|c| - 1]) && RowsOf(s', c, rows)
    requires i < j < |rows|
    ensures c[i] in reqs && c[j] in reqs && rows[i] != rows[j] && RequestKey(reqs[c[i]]) != RequestKey(reqs[c[j]])
  {
    MemberOfRing(s, s', reqs, c, rows, i);
    MemberOfRing(s, s', reqs, c, rows, j);
    CyclePair(s', c, i, j);
  }

  lemma CycleIsRing(s: State, s': State, reqs: map<TxId, Request>, c: seq<TxId>)
    requires Inv(s') && PoolOk(s') && Arrived(s, s', reqs) && Cycle(s', c) && Distinct(c[..|c| - 1])
    ensures HasRing(s, reqs)
  {
    var ring := c[..|c| - 1];
    var rows := CycleHasRows(s', c);
    CycleFitsPool(s', c);
    CycleRows(s', c, 0);
    assert Ring(s, reqs, ring, rows) by {
      forall j | 0 <= j < |ring| ensures RingMember(s, reqs, ring[j], rows[j], rows[After(j, |ring|)]) {
        MemberOfRing(s, s', reqs, c, rows, j);
      }
      forall i, j | 0 <= i < j < |ring|
        ensures ring[i] in reqs && ring[j] in reqs && rows[i] != rows[j]
        ensures RequestKey(reqs[ring[i]]) != RequestKey(reqs[ring[j]])
      {
        PairOfRing(s, s', reqs, c, rows, i, j);
      }
    }
  }

  // ---- A ring makes a cycle -----------------------------------------------------------------------------------

  /** Where a request stands that has locked one row of its scan and wants the next. */
  predicate Halfway(s: State, tx: Tx, req: Request, first: ProductId, next: ProductId) {
    && tx.req == req && tx.phase.Locking? && tx.phase.next == 1 < |tx.phase.plan| && tx.phase.plan[1] == next
    && first in s.products && tx.phase.rows == map[first := s.products[first]]
  }

  lemma ScanFrom(req: Request, catalog: set<ProductId>, p: ProductId, q: ProductId) returns (plan: seq<ProductId>)
    requires p != q && Names(req, catalog, p) && Names(req, catalog, q)
    ensures |plan| >= 2 && plan[0] == p && plan[1] == q && IsScan(plan, req.items, catalog)
  {
    var rest := Enumerate(Ids(req.items) * catalog - {p, q});
    plan := [p, q] + rest;
    assert forall i :: 0 <= i < |rest| ==> rest[i] in Elems(rest) && plan[i + 2] == rest[i];
    forall x | x in Ids(req.items) * catalog ensures x in Elems(plan) {
      if x in Elems(rest) {
        var i :| 0 <= i < |rest| && rest[i] == x;
        assert plan[i + 2] == x;
      } else {
        assert plan[0] == p && plan[1] == q;
      }
    }
    forall i, j | 0 <= i < j < |plan| ensures plan[i] != plan[j] {
      assert j >= 2 ==> plan[j] in Elems(rest);
    }
  }

  lemma FourSteps(s: State, a: Label, b: Label, c: Label, d: Label)
    ensures Exec(s, [] + [a] + [b] + [c] + [d]) == Step(Step(Step(Step(s, a), b), c), d)
  {
    ExecSnoc(s, [], a);
    ExecSnoc(s, [] + [a], b);
    ExecSnoc(s, [] + [a] + [b], c);
    ExecSnoc(s, [] + [a] + [b] + [c], d);
  }

  /** `s` with one more transaction. */
  function With(s: State, t: TxId, req: Request, ph: Phase): State {
    s.(txs := s.txs[t := Tx(req, ph)], busy := s.busy + {t})
  }

  lemma MoveWith(s: State, t: TxId, req: Request, ph: Phase, ph': Phase)
    ensures SetPhase(With(s, t, req, ph), t, ph') == With(s, t, req, ph')
  {
    assert s.txs[t := Tx(req, ph)][t := Tx(req, ph')] == s.txs[t := Tx(req, ph')];
  }

  lemma ApproachBegin(s: State, t: TxId, req: Request)
    requires t !in s.txs && HasFree(s)
    ensures Step(s, Begin(t, req)) == With(s, t, req, Started)
  {
  }

  lemma ApproachInsert(s: State, t: TxId, req: Request, oid: OrderId)
    requires t !in s.txs && !KeyTaken(s, RequestKey(req)) && !KeyHeldByOther(s, t, RequestKey(req)) && FreshId(s, oid)
    ensures Step(With(s, t, req, Started), Insert(t, oid)) == With(s, t, req, Inserted(oid))
  {
    MoveWith(s, t, req, Started, Inserted(oid));
  }

  lemma ApproachScan(s: State, t: TxId, req: Request, oid: OrderId, plan: seq<ProductId>)
    requires IsScan(plan, req.items, s.products.Keys) && req.items != []
    ensures Step(With(s, t, req, Inserted(oid)), Scan(t, plan)) == With(s, t, req, Locking(oid, plan, 0, map[]))
  {
    MoveWith(s, t, req, Inserted(oid), Locking(oid, plan, 0, map[]));
  }

  lemma ApproachLock(s: State, t: TxId, req: Request, oid: OrderId, plan: seq<ProductId>)
    requires t !in s.txs && plan != [] && plan[0] in s.products && !LockedByOther(s, t, plan[0])
    ensures Step(With(s, t, req, Locking(oid, plan, 0, map[])), Lock(t))
         == With(s, t, req, Locking(oid, plan, 1, map[plan[0] := s.products[plan[0]]]))
  {
    MoveWith(s, t, req, Locking(oid, plan, 0, map[]), Locking(oid, plan, 1, map[plan[0] := s.products[plan[0]]]));
  }

  /** A request whose key and row nobody has comes halfway without waiting. */
  lemma Approach(s: State, t: TxId, req: Request, p: ProductId, q: ProductId) returns (run: seq<Label>)
    requires t !in s.txs && HasFree(s) && p != q && Names(req, s.products.Keys, p) && Names(req, s.products.Keys, q)
    requires !KeyTaken(s, RequestKey(req)) && !KeyHeldByOther(s, t, RequestKey(req)) && !LockedByOther(s, t, p)
    ensures forall l :: l in run && l.Begin? ==> l == Begin(t, req)
    ensures var s' := Exec(s, run);
            && t in s'.txs && Halfway(s, s'.txs[t], req, p, q)
            && s' == s.(txs := s.txs[t := s'.txs[t]], busy := s.busy + {t})
  {
    var oid := FreshIdExists(s);
    var plan := ScanFrom(req, s.products.Keys, p, q);
    ApproachBegin(s, t, req);
    ApproachInsert(s, t, req, oid);
    ApproachScan(s, t, req, oid, plan);
    ApproachLock(s, t, req, oid, plan);
    run := [] + [Begin(t, req)] + [Insert(t, oid)] + [Scan(t, plan)] + [Lock(t)];
    FourSteps(s, Begin(t, req), Insert(t, oid), Scan(t, plan), Lock(t));
  }

  /** The first `k` members of the ring are halfway, and nothing else has happened. */
  predicate Tied(s: State, s': State, reqs: map<TxId, Request>, ring: seq<TxId>, rows: seq<ProductId>, k: nat)
    requires |ring| == |rows| && k <= |ring|
  {
    && s' == s.(txs := s'.txs, busy := Elems(ring[..k]))
    && (forall t :: t in s'.txs ==> (t in s.txs && s'.txs[t] == s.txs[t]) || (exists j :: 0 <= j < k && ring[j] == t))
    && (forall j {:trigger ring[j]} :: 0 <= j < k ==>
          && ring[j] in s'.txs && ring[j] in reqs
          && Halfway(s, s'.txs[ring[j]], reqs[ring[j]], rows[j], rows[After(j, |ring|)]))
  }

  lemma {:induction false} Tie(s: State, reqs: map<TxId, Request>, ring: seq<TxId>, rows: seq<ProductId>, k: nat)
    returns (run: seq<Label>)
    requires Idle(s) && reqs.Keys !! s.txs.Keys && Ring(s, reqs, ring, rows) && k <= |ring|
    ensures OnlyThese(run, reqs) && Tied(s, Exec(s, run), reqs, ring, rows, k)
  {
    if k == 0 {
      run := [];
      assert Elems(ring[..0]) == {};
    } else {
      var front := Tie(s, reqs, ring, rows, k - 1);
      var last := TieNext(s, Exec(s, front), reqs, ring, rows, k - 1);
      ExecConcat(s, front, last);
      run := front + last;
      forall i | 0 <= i < |run| && run[i].Begin? ensures run[i].t in reqs && run[i].req == reqs[run[i].t] {
        assert i >= |front| ==> run[i] in last;
      }
    }
  }

  /** Nobody has what the next member needs. */
  lemma OthersAreElsewhere(s: State, s': State, reqs: map<TxId, Request>, ring: seq<TxId>, rows: seq<ProductId>,
                           k: nat, u: TxId)
    requires Idle(s) && reqs.Keys !! s.txs.Keys && Ring(s, reqs, ring, rows) && k < |ring|
    requires Tied(s, s', reqs, ring, rows, k) && u in s'.txs
    ensures ring[k] in reqs && u != ring[k]
    ensures HoldsKey(s'.txs[u].phase) ==> RequestKey(s'.txs[u].req) != RequestKey(reqs[ring[k]])
    ensures rows[k] !in Rows(s'.txs[u].phase)
  {
    if j :| 0 <= j < k && ring[j] == u {
      assert Halfway(s, s'.txs[ring[j]], reqs[ring[j]], rows[j], rows[After(j, |ring|)]);
    }
  }

  lemma NextIsFree(s: State, s': State, reqs: map<TxId, Request>, ring: seq<TxId>, rows: seq<ProductId>, k: nat)
    requires Idle(s) && reqs.Keys !! s.txs.Keys && Ring(s, reqs, ring, rows) && k < |ring|
    requires Tied(s, s', reqs, ring, rows, k)
    ensures ring[k] in reqs && ring[k] !in s'.txs && HasFree(s')
    ensures !KeyHeldByOther(s', ring[k], RequestKey(reqs[ring[k]])) && !LockedByOther(s', ring[k], rows[k])
  {
    assert RingMember(s, reqs, ring[k], rows[k], rows[After(k, |ring|)]);
    ElemsCardinality(ring[..k]);
    forall u | u in s'.txs
      ensures u != ring[k]
      ensures HoldsKey(s'.txs[u].phase) ==> RequestKey(s'.txs[u].req) != RequestKey(reqs[ring[k]])
      ensures rows[k] !in Rows(s'.txs[u].phase)
    {
      OthersAreElsewhere(s, s', reqs, ring, rows, k, u);
    }
  }

  lemma TieNext(s: State, s': State, reqs: map<TxId, Request>, ring: seq<TxId>, rows: seq<ProductId>, k: nat)
    returns (run: seq<Label>)
    requires Idle(s) && reqs.Keys !! s.txs.Keys && Ring(s, reqs, ring, rows) && k < |ring|
    requires Tied(s, s', reqs, ring, rows, k)
    ensures forall l :: l in run && l.Begin? ==> l == Begin(ring[k], reqs[ring[k]])
    ensures Tied(s, Exec(s', run), reqs, ring, rows, k + 1)
  {
    var t, next := ring[k], rows[After(k, |ring|)];
    assert RingMember(s, reqs, t, rows[k], next);
    NextIsFree(s, s', reqs, ring, rows, k);
    run := Approach(s', t, reqs[t], rows[k], next);
    Tightened(s, s', Exec(s', run), reqs, ring, rows, k);
  }

  lemma Tightened(s: State, s': State, s'': State, reqs: map<TxId, Request>, ring: seq<TxId>, rows: seq<ProductId>,
                  k: nat)
    requires |ring| == |rows| && Distinct(ring) && k < |ring| && Tied(s, s', reqs, ring, rows, k)
    requires ring[k] in reqs && ring[k] !in s'.txs && ring[k] in s''.txs
    requires Halfway(s, s''.txs[ring[k]], reqs[ring[k]], rows[k], rows[After(k, |ring|)])
    requires s'' == s'.(txs := s'.txs[ring[k] := s''.txs[ring[k]]], busy := s'.busy + {ring[k]})
    ensures Tied(s, s'', reqs, ring, rows, k + 1)
  {
    assert ring[..k + 1] == ring[..k] + [ring[k]];
    assert Elems(ring[..k + 1]) == Elems(ring[..k]) + {ring[k]};
    forall t | t in s''.txs
      ensures (t in s.txs && s''.txs[t] == s.txs[t]) || (exists j :: 0 <= j < k + 1 && ring[j] == t)
    {
      assert t != ring[k] ==> s''.txs[t] == s'.txs[t];
    }
    forall j {:trigger ring[j]} | 0 <= j < k + 1
      ensures ring[j] in s''.txs && ring[j] in reqs
      ensures Halfway(s, s''.txs[ring[j]], reqs[ring[j]], rows[j], rows[After(j, |ring|)])
    {
      assert j < k ==> ring[j] != ring[k];
    }
  }

  lemma TiedWaits(s: State, s': State, reqs: map<TxId, Request>, ring: seq<TxId>, rows: seq<ProductId>, j: nat)
    requires 2 <= |ring| == |rows| && Distinct(ring) && Tied(s, s', reqs, ring, rows, |ring|) && j < |ring|
    ensures WaitsFor(s', ring[j], ring[After(j, |ring|)])
  {
    var next := After(j, |ring|);
    assert ring[j] in s'.txs && ring[next] in s'.txs && ring[j] != ring[next];
    assert WaitsForRow(s'.txs[ring[j]].phase, s'.txs[ring[next]].phase);
  }

  lemma TiedIsCycle(s: State, s': State, reqs: map<TxId, Request>, ring: seq<TxId>, rows: seq<ProductId>)
    requires 2 <= |ring| == |rows| && Distinct(ring) && Tied(s, s', reqs, ring, rows, |ring|)
    ensures Cycle(s', ring + [ring[0]])
  {
    var w := ring + [ring[0]];
    forall j | 0 <= j < |w| - 1 ensures WaitsFor(s', w[j], w[j + 1]) {
      TiedWaits(s, s', reqs, ring, rows, j);
      assert w[j] == ring[j] && w[j + 1] == ring[After(j, |ring|)];
    }
  }

  // ---- The exact condition --------------------------------------------------------------------------------------

  /** Requests that arrive while nothing else is under way can come to a deadlock exactly if they contain a ring:
      at least two of them, with different keys for which no order exists, no more than there are connections, and
      a different existing product for each that its predecessor names too. */
  lemma DeadlockExactly(s: State, reqs: map<TxId, Request>)
    requires Inv(s) && PoolOk(s) && Idle(s) && reqs.Keys !! s.txs.Keys
    ensures CanDeadlock(s, reqs) <==> HasRing(s, reqs)
  {
    if CanDeadlock(s, reqs) {
      var run, w :| OnlyThese(run, reqs) && Cycle(Exec(s, run), w);
      RunKeepsInv(s, run);
      RunKeepsPool(s, run);
      RunArrives(s, reqs, run);
      var c := SimpleCycle(Exec(s, run), w);
      CycleIsRing(s, Exec(s, run), reqs, c);
    }
    if ring, rows :| Ring(s, reqs, ring, rows) {
      var run := Tie(s, reqs, ring, rows, |ring|);
      TiedIsCycle(s, Exec(s, run), reqs, ring, rows);
    }
  }

  function Shared(s: State, a: Request, b: Request): set<ProductId> {
    Ids(a.items) * Ids(b.items) * s.products.Keys
  }

  /** Two requests can deadlock exactly if they share at least two existing products, have different keys, both
      without an order, and two connections. */
  lemma TwoRequestsDeadlock(s: State, t: TxId, a: Request, u: TxId, b: Request)
    requires Inv(s) && PoolOk(s) && Idle(s) && t !in s.txs && u !in s.txs && t != u
    ensures CanDeadlock(s, map[t := a, u := b]) <==>
              && |Shared(s, a, b)| >= 2 && s.pool >= 2
              && RequestKey(a) != RequestKey(b) && !KeyTaken(s, RequestKey(a)) && !KeyTaken(s, RequestKey(b))
  {
    var reqs := map[t := a, u := b];
    DeadlockExactly(s, reqs);
    if ring, rows :| Ring(s, reqs, ring, rows) {
      RingOfTwo(s, t, a, u, b, ring, rows);
    }
    if && |Shared(s, a, b)| >= 2 && s.pool >= 2
       && RequestKey(a) != RequestKey(b) && !KeyTaken(s, RequestKey(a)) && !KeyTaken(s, RequestKey(b)) {
      PairIsRing(s, t, a, u, b);
    }
  }

  lemma PairIsRing(s: State, t: TxId, a: Request, u: TxId, b: Request)
    requires t != u && |Shared(s, a, b)| >= 2 && s.pool >= 2
    requires RequestKey(a) != RequestKey(b) && !KeyTaken(s, RequestKey(a)) && !KeyTaken(s, RequestKey(b))
    ensures HasRing(s, map[t := a, u := b])
  {
    var p :| p in Shared(s, a, b);
    assert |Shared(s, a, b) - {p}| >= 1;
    var q :| q in Shared(s, a, b) - {p};
    assert Ring(s, map[t := a, u := b], [t, u], [p, q]);
  }

  lemma RingOfTwo(s: State, t: TxId, a: Request, u: TxId, b: Request, ring: seq<TxId>, rows: seq<ProductId>)
    requires t != u && Ring(s, map[t := a, u := b], ring, rows)
    ensures |Shared(s, a, b)| >= 2 && s.pool >= 2
    ensures RequestKey(a) != RequestKey(b) && !KeyTaken(s, RequestKey(a)) && !KeyTaken(s, RequestKey(b))
  {
    ElemsCardinality(ring);
    SubsetCardinality(Elems(ring), {t, u});
    assert |ring| == 2 && ring[0] != ring[1] && rows[0] != rows[1];
    assert Names(a, s.products.Keys, rows[0]) && Names(a, s.products.Keys, rows[1]);
    assert Names(b, s.products.Keys, rows[0]) && Names(b, s.products.Keys, rows[1]);
    SubsetCardinality({rows[0], rows[1]}, Shared(s, a, b));
  }
}
