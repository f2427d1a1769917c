/** Order creation comes to rest: a measure that every step of a request lowers, failures included, and a run that
    answers every request as long as no cycle and no starvation stops them. */
module OrderTermination {
  import opened Domain
  import opened Reservation
  import opened SequentialShop
  import opened OrderProtocol
  import opened OrderInvariant
  import opened Deadlock

  /** How many steps a request can still take, its connection included. */
  function Weight(tx: Tx, busy: bool): nat {
    (if busy then 1 else 0)
    + match tx.phase
      case Started => |tx.req.items| + 9
      case Rejected => 2
      case Recovered(_) => 1
      case Inserted(_) => |tx.req.items| + 8
      case Locking(_, plan, next, _) => 7 + if next <= |plan| then |plan| - next else 0
      case Reserved(_, _) => 6
      case ItemsSaved(_, _, _) => 5
      case Written(_, _, _, _) => 4
      case Throwing(_, _, _) => 1
      case Committed(_) => 2
      case Finished(_) => 0
  }

  function Weights(txs: map<TxId, Tx>, busy: set<TxId>): map<nat, nat> {
    map t | t in txs :: Weight(txs[t], t in busy)
  }

  ghost function Total(s: State): nat {
    Sum(Weights(s.txs, s.busy))
  }

  /** One transaction changes, with its connection. */
  lemma TotalPut(s: State, s': State, t: TxId)
    requires t in s.txs && t in s'.txs && s'.txs == s.txs[t := s'.txs[t]]
    requires forall u :: u != t ==> (u in s'.busy <==> u in s.busy)
    ensures Total(s') == Total(s) + Weight(s'.txs[t], t in s'.busy) - Weight(s.txs[t], t in s.busy)
  {
    assert Weights(s'.txs, s'.busy) == Weights(s.txs, s.busy)[t := Weight(s'.txs[t], t in s'.busy)];
    SumPut(Weights(s.txs, s.busy), t, Weight(s'.txs[t], t in s'.busy));
  }

  lemma ScanFits(plan: seq<ProductId>, items: seq<OrderItemDto>, catalog: set<ProductId>)
    requires IsScan(plan, items, catalog)
    ensures |plan| <= |items|
  {
    LengthCheckExact(plan, items, catalog);
  }

  lemma StepLowersWeight(s: State, l: Label)
    requires Enabled(s, l) && !l.Begin?
    ensures l.t in s.txs && l.t in Next(s, l).txs
    ensures Weight(Next(s, l).txs[l.t], l.t in Next(s, l).busy) < Weight(s.txs[l.t], l.t in s.busy)
  {
    if l.Scan? {
      ScanFits(l.plan, s.txs[l.t].req.items, s.products.Keys);
    }
  }

  lemma StepLowersTotal(s: State, l: Label)
    requires Enabled(s, l) && !l.Begin?
    ensures Total(Next(s, l)) < Total(s)
  {
    StepLowersWeight(s, l);
    if !l.Release? && !l.Strand? {
      MovesOne(s, l);
    }
    TotalPut(s, Next(s, l), l.t);
  }

  /** How many steps of a run were taken. */
  function StepsTaken(s: State, run: seq<Label>): nat
    decreases |run|
  {
    if run == [] then 0
    else StepsTaken(s, run[..|run| - 1]) + if Enabled(Exec(s, run[..|run| - 1]), run[|run| - 1]) then 1 else 0
  }

  /** Every schedule is finite: from any state, a run in which no new request arrives takes at most as many steps as
      the state weighs, whatever fails. */
  lemma {:induction false} RunsAreFinite(s: State, run: seq<Label>)
    requires forall i :: 0 <= i < |run| ==> !run[i].Begin?
    ensures StepsTaken(s, run) + Total(Exec(s, run)) <= Total(s)
    decreases |run|
  {
    if run != [] {
      var front, l := run[..|run| - 1], run[|run| - 1];
      RunsAreFinite(s, front);
      if Enabled(Exec(s, front), l) {
        StepLowersTotal(Exec(s, front), l);
      }
    }
  }

  // ---- All requests can be answered -------------------------------------------------------------------------------

  predicate ProgressRun(run: seq<Label>) {
    forall i :: 0 <= i < |run| ==> Progress(run[i])
  }

  /** Some request is not over and nobody can go on, or soon nobody of a cycle can. */
  ghost predicate Stands(s: State) {
    (exists w :: Cycle(s, w)) || (Starved(s) && exists t :: Pending(s, t))
  }

  /** No run without failures and new requests comes to a cycle or to starvation. */
  ghost predicate NeverStands(s: State) {
    forall run :: ProgressRun(run) ==> !Stands(Exec(s, run))
  }

  /** `l` and then `rest`. */
  lemma Prepend(s: State, l: Label, rest: seq<Label>) returns (run: seq<Label>)
    ensures Exec(s, run) == Exec(Step(s, l), rest)
    ensures Progress(l) && ProgressRun(rest) ==> ProgressRun(run)
  {
    run := [] + [l] + rest;
    ExecSnoc(s, [], l);
    ExecConcat(s, [] + [l], rest);
  }

  lemma StillNeverStands(s: State, l: Label)
    requires NeverStands(s) && Progress(l)
    ensures NeverStands(Step(s, l))
  {
    forall rest | ProgressRun(rest) ensures !Stands(Exec(Step(s, l), rest)) {
      var run := Prepend(s, l, rest);
    }
  }

  lemma CanGoOn(s: State, t: TxId) returns (l: Label)
    requires Inv(s) && Pending(s, t) && NeverStands(s)
    ensures Progress(l) && Enabled(s, l)
  {
    assert ProgressRun([]) && Exec(s, []) == s;
    assert !Stands(s);
    StandstillExactly(s, t);
    var u, k :| Advances(s, u, k);
    l := k;
  }

  lemma GoesOn(s: State, t: TxId) returns (l: Label)
    requires Inv(s) && Pending(s, t) && NeverStands(s)
    ensures Progress(l) && Inv(Step(s, l)) && NeverStands(Step(s, l)) && Total(Step(s, l)) < Total(s)
  {
    l := CanGoOn(s, t);
    StepLowersTotal(s, l);
    StepKeepsInv(s, l);
    StillNeverStands(s, l);
  }

  /** Without a cycle or starvation ahead all requests under way can be answered, and give their connections back. */
  lemma {:induction false} AllAnswered(s: State) returns (run: seq<Label>)
    requires Inv(s) && NeverStands(s)
    ensures ProgressRun(run) && PendingTxs(Exec(s, run)) == {}
    decreases Total(s)
  {
    run := [];
    if t :| t in PendingTxs(s) {
      var l := GoesOn(s, t);
      var rest := AllAnswered(Step(s, l));
      run := Prepend(s, l, rest);
    }
  }

  /** A request that names something and has not failed. */
  predicate Promising(tx: Tx) {
    tx.req.items != [] && !((tx.phase.Throwing? || tx.phase.Finished?) && tx.phase.reply.Failed?)
  }

  lemma {:induction false} ProgressKeepsPromise(s: State, run: seq<Label>, t: TxId)
    requires ProgressRun(run) && t in s.txs && Promising(s.txs[t])
    ensures t in Exec(s, run).txs && Promising(Exec(s, run).txs[t])
    decreases |run|
  {
    if run != [] {
      var s', l := Exec(s, run[..|run| - 1]), run[|run| - 1];
      ProgressKeepsPromise(s, run[..|run| - 1], t);
      StepKeepsRequests(s', l);
      if l.t == t {
        OwnProgressKeepsPromise(s', l);
      }
    }
  }

  lemma OwnProgressKeepsPromise(s: State, l: Label)
    requires Progress(l) && l.t in s.txs && Promising(s.txs[l.t])
    ensures Promising(Step(s, l).txs[l.t])
  {
  }

  /** Requests that name one product each, fewer than there are connections. */
  ghost predicate FewAndSingle(s: State) {
    Inv(s) && PoolOk(s) && |PendingTxs(s)| < s.pool && forall t :: t in s.txs ==> |s.txs[t].req.items| <= 1
  }

  lemma ProgressStaysFew(s: State, l: Label)
    requires FewAndSingle(s) && Progress(l)
    ensures FewAndSingle(Step(s, l))
  {
    StepKeepsInv(s, l);
    StepKeepsPool(s, l);
    if Enabled(s, l) {
      ProgressFreesOnly(s, l);
      SubsetCardinality(PendingTxs(Step(s, l)), PendingTxs(s));
    }
  }

  lemma ProgressFreesOnly(s: State, l: Label)
    requires Progress(l) && Enabled(s, l)
    ensures Next(s, l).pool == s.pool && Next(s, l).txs.Keys == s.txs.Keys
    ensures forall t :: t in s.txs ==> Next(s, l).txs[t].req == s.txs[t].req
    ensures PendingTxs(Next(s, l)) <= PendingTxs(s)
  {
    StepKeepsRequests(s, l);
    if !l.Release? {
      MovesOne(s, l);
    }
    forall t | t in PendingTxs(Next(s, l)) ensures t in PendingTxs(s) {
      if t == l.t && s.txs[t].phase.Finished? {
        FinishedStays(s, l, t);
      }
    }
  }

  lemma {:induction false} FewNeverStand(s: State, run: seq<Label>)
    requires FewAndSingle(s) && ProgressRun(run)
    ensures FewAndSingle(Exec(s, run)) && !Stands(Exec(s, run))
    decreases |run|
  {
    if run != [] {
      FewNeverStand(s, run[..|run| - 1]);
      ProgressStaysFew(Exec(s, run[..|run| - 1]), run[|run| - 1]);
    }
    var s' := Exec(s, run);
    forall w ensures !Cycle(s', w) {
      OneProductNeverDeadlocks(s', w);
    }
    if t :| Pending(s', t) {
      FewRequestsNeverStarve(s', t);
      StandstillExactly(s', t);
    }
  }

  /** If every request names one product at most and fewer are under way than there are connections, a run without
      failures answers all of them, and none that names something is answered with a failure. */
  lemma FewSingleRequestsAreAnswered(s: State) returns (run: seq<Label>)
    requires FewAndSingle(s)
    ensures ProgressRun(run) && PendingTxs(Exec(s, run)) == {}
    ensures forall t :: t in s.txs && Promising(s.txs[t]) ==>
              t in Exec(s, run).txs && Exec(s, run).txs[t].phase.Finished? && !Exec(s, run).txs[t].phase.reply.Failed?
  {
    forall more | ProgressRun(more) ensures !Stands(Exec(s, more)) {
      FewNeverStand(s, more);
    }
    run := AllAnswered(s);
    forall t | t in s.txs && Promising(s.txs[t])
      ensures t in Exec(s, run).txs && Exec(s, run).txs[t].phase.Finished? && !Exec(s, run).txs[t].phase.reply.Failed?
    {
      ProgressKeepsPromise(s, run, t);
      assert t !in PendingTxs(Exec(s, run));
    }
  }
}
