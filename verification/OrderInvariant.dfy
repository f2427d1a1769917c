/** Every label keeps the invariant of the order-creation machine, so every run does. */
module OrderInvariant {
  import opened Domain
  import opened Reservation
  import opened SequentialShop
  import opened OrderProtocol

  /** Labels that move one transaction and leave the tables and the outbox alone. */
  lemma PhaseChange(s: State, s': State, t: TxId, ph: Phase)
    requires Inv(s) && t in s.txs
    requires s'.products == s.products && s'.orders == s.orders && s'.outbox == s.outbox
    requires s'.txs == s.txs[t := s.txs[t].(phase := ph)]
    requires PhaseOk(s, s.txs[t].req, ph) && HolderOk(s, s.txs[t].req, ph)
    requires forall u :: u in s.txs && u != t ==> PairOk(s.txs[t].(phase := ph), s.txs[u])
    ensures Inv(s')
  {
    forall u | u in s'.txs
      ensures PhaseOk(s', s'.txs[u].req, s'.txs[u].phase) && HolderOk(s', s'.txs[u].req, s'.txs[u].phase)
    {
      assert PhaseOk(s, s'.txs[u].req, s'.txs[u].phase);
      assert HolderOk(s, s'.txs[u].req, s'.txs[u].phase);
      assert KeyTaken(s', RequestKey(s'.txs[u].req)) == KeyTaken(s, RequestKey(s'.txs[u].req));
    }
    forall u, v | u in s'.txs && v in s'.txs && u != v ensures PairOk(s'.txs[u], s'.txs[v]) {
      if u != t && v != t {
        assert PairOk(s.txs[u], s.txs[v]);
      }
    }
  }

  lemma BeginKeepsInv(s: State, l: Label)
    requires Inv(s) && l.Begin? && Enabled(s, l)
    ensures Inv(Next(s, l))
  {
  }

  lemma InsertKeepsInv(s: State, l: Label)
    requires Inv(s) && l.Insert? && Enabled(s, l)
    ensures Inv(Next(s, l))
  {
  }

  /** The next row of the scan, as committed, joins the locked ones. */
  lemma LockKeepsPhase(s: State, t: TxId)
    requires Inv(s) && Enabled(s, Lock(t))
    ensures PhaseOk(s, s.txs[t].req, Next(s, Lock(t)).txs[t].phase)
  {
    var ph := s.txs[t].phase;
    assert PhaseOk(s, s.txs[t].req, ph);
    assert ph.plan[..ph.next + 1] == ph.plan[..ph.next] + [ph.plan[ph.next]];
    assert Elems(ph.plan[..ph.next + 1]) == Elems(ph.plan[..ph.next]) + {ph.plan[ph.next]};
  }

  lemma LockKeepsInv(s: State, l: Label)
    requires Inv(s) && l.Lock? && Enabled(s, l)
    ensures Inv(Next(s, l))
  {
    var t, ph := l.t, Next(s, l).txs[l.t].phase;
    LockKeepsPhase(s, t);
    assert HolderOk(s, s.txs[t].req, s.txs[t].phase);
    forall u | u in s.txs && u != t ensures PairOk(s.txs[t].(phase := ph), s.txs[u]) {
      assert PairOk(s.txs[t], s.txs[u]);
    }
    PhaseChange(s, Next(s, l), t, ph);
  }

  lemma ReserveKeepsInv(s: State, l: Label)
    requires Inv(s) && l.Reserve? && Enabled(s, l)
    ensures Inv(Next(s, l))
  {
    var ph, req := s.txs[l.t].phase, s.txs[l.t].req;
    assert PhaseOk(s, req, ph) && HolderOk(s, req, ph);
    assert ph.plan[..ph.next] == ph.plan;
    LengthCheckExact(ph.plan, req.items, s.products.Keys);
    assert Ids(req.items) * s.products.Keys == Ids(req.items);
    forall p | p in ph.rows ensures Covered(req.items, ph.rows, p) {
      assert p in Elems(ph.plan);
    }
    QuietKeepsInv(s, l, Reserved(ph.oid, ph.rows));
  }

  /** The transaction keeps its id, its key and its locks, or gives some of them up. */
  lemma QuietKeepsInv(s: State, l: Label, ph: Phase)
    requires Inv(s) && Enabled(s, l) && !l.Begin?
    requires Next(s, l).products == s.products && Next(s, l).orders == s.orders && Next(s, l).outbox == s.outbox
    requires Next(s, l).txs == s.txs[l.t := s.txs[l.t].(phase := ph)]
    requires HoldsKey(ph) ==> HoldsKey(s.txs[l.t].phase) && ph.oid == s.txs[l.t].phase.oid
    requires Rows(ph).Keys <= Rows(s.txs[l.t].phase).Keys
    requires forall p :: p in Rows(ph) ==> Rows(ph)[p] == Rows(s.txs[l.t].phase)[p]
    requires !ph.Committed? && PhaseOk(s, s.txs[l.t].req, ph)
    ensures Inv(Next(s, l))
  {
    assert HolderOk(s, s.txs[l.t].req, s.txs[l.t].phase);
    forall u | u in s.txs && u != l.t ensures PairOk(s.txs[l.t].(phase := ph), s.txs[u]) {
      assert PairOk(s.txs[l.t], s.txs[u]);
    }
    PhaseChange(s, Next(s, l), l.t, ph);
  }

  /** Most labels move one transaction and leave the connections alone. */
  lemma MovesOne(s: State, l: Label)
    requires Enabled(s, l) && !l.Begin? && !l.Release? && !l.Strand?
    ensures l.t in s.txs && l.t in Next(s, l).txs
    ensures Next(s, l).txs == s.txs[l.t := s.txs[l.t].(phase := Next(s, l).txs[l.t].phase)]
    ensures Next(s, l).busy == s.busy && Next(s, l).pool == s.pool
    ensures Open(Next(s, l).txs[l.t].phase) ==> Open(s.txs[l.t].phase)
  {
  }

  predicate Quiet(l: Label) {
    !l.Begin? && !l.Insert? && !l.Lock? && !l.Reserve? && !l.Commit? && !l.CommitUnseen?
    && !l.Publish? && !l.Release? && !l.Strand?
  }

  lemma QuietKeepsHolding(s: State, l: Label)
    requires Quiet(l) && Enabled(s, l)
    ensures Next(s, l).products == s.products && Next(s, l).orders == s.orders && Next(s, l).outbox == s.outbox
    ensures var before, ph := s.txs[l.t].phase, Next(s, l).txs[l.t].phase;
            && !ph.Committed? && (HoldsKey(ph) ==> HoldsKey(before) && ph.oid == before.oid)
            && Rows(ph).Keys <= Rows(before).Keys && (forall p :: p in Rows(ph) ==> Rows(ph)[p] == Rows(before)[p])
  {
  }

  lemma QuietLabelKeepsInv(s: State, l: Label)
    requires Inv(s) && Quiet(l) && Enabled(s, l)
    ensures Inv(Next(s, l))
  {
    assert PhaseOk(s, s.txs[l.t].req, s.txs[l.t].phase);
    MovesOne(s, l);
    QuietKeepsHolding(s, l);
    QuietKeepsInv(s, l, Next(s, l).txs[l.t].phase);
  }

  /** What COMMIT does to the rest: the new order's key and id were held by the committing transaction alone and
      the rows it changes are locked by it alone. */
  lemma InstallKeepsOthers(s: State, s': State, t: TxId, u: TxId)
    requires Inv(s) && t in s.txs && u in s.txs && t != u && s.txs[t].phase.Written?
    requires s'.products == Install(s, t).products && s'.orders == Install(s, t).orders && s'.outbox == s.outbox
    ensures PhaseOk(s', s.txs[u].req, s.txs[u].phase)
    ensures HolderOk(s', s.txs[u].req, s.txs[u].phase)
  {
    var ph, req := s.txs[u].phase, s.txs[u].req;
    var o := OrderOf(s.txs[t].req, s.txs[t].phase);
    assert PhaseOk(s, req, ph) && HolderOk(s, req, ph) && PairOk(s.txs[t], s.txs[u]);
    CommitKeepsCatalog(s, t);
    assert forall i :: 0 <= i < |s.orders| ==> s'.orders[i] == s.orders[i];
    if KeyTaken(s, RequestKey(req)) {
      var i :| 0 <= i < |s.orders| && OrderKey(s.orders[i]) == RequestKey(req);
      assert OrderKey(s'.orders[i]) == RequestKey(req);
    }
    if HoldsKey(ph) {
      forall i | 0 <= i < |s'.orders| ensures OrderKey(s'.orders[i]) != RequestKey(req) && s'.orders[i].id != ph.oid {
        if i < |s.orders| {
          assert OrderKey(s.orders[i]) != RequestKey(req);
        } else {
          assert s'.orders[i] == o;
        }
      }
    }
  }

  lemma CommitKeepsCatalog(s: State, t: TxId)
    requires Inv(s) && t in s.txs && s.txs[t].phase.Written?
    ensures Install(s, t).products.Keys == s.products.Keys
    ensures s.txs[t].phase.stocks.Keys == s.txs[t].phase.rows.Keys == Ids(s.txs[t].req.items)
  {
  }

  lemma InstallKeepsTables(s: State, t: TxId)
    requires Inv(s) && t in s.txs && s.txs[t].phase.Written?
    ensures TablesOk(Install(s, t).orders, s.outbox)
    ensures Install(s, t).orders[|s.orders|] == OrderOf(s.txs[t].req, s.txs[t].phase)
    ensures s.txs[t].phase.oid !in s.outbox
  {
    var orders := Install(s, t).orders;
    var o := OrderOf(s.txs[t].req, s.txs[t].phase);
    assert HolderOk(s, s.txs[t].req, s.txs[t].phase);
    assert forall i :: 0 <= i < |s.orders| ==> orders[i] == s.orders[i];
    forall i, j | 0 <= i < j < |orders|
      ensures orders[i].id != orders[j].id && OrderKey(orders[i]) != OrderKey(orders[j])
    {
      if j == |s.orders| {
        assert !KeyTaken(s, OrderKey(o));
      }
    }
    forall i | 0 <= i < |s.outbox| ensures HasId(orders, s.outbox[i]) && s.outbox[i] != o.id {
      var j :| 0 <= j < |s.orders| && s.orders[j].id == s.outbox[i];
      assert orders[j].id == s.outbox[i];
    }
  }

  lemma InstallKeepsInv(s: State, l: Label)
    requires Inv(s) && (l.Commit? || l.CommitUnseen?) && Enabled(s, l)
    ensures Inv(Next(s, l))
  {
    var t, s' := l.t, Next(s, l);
    InstallKeepsTables(s, t);
    assert s'.orders[|s.orders|] == OrderOf(s.txs[t].req, s.txs[t].phase);
    forall u | u in s'.txs
      ensures PhaseOk(s', s'.txs[u].req, s'.txs[u].phase) && HolderOk(s', s'.txs[u].req, s'.txs[u].phase)
    {
      if u != t {
        InstallKeepsOthers(s, s', t, u);
      }
    }
    forall u, v | u in s'.txs && v in s'.txs && u != v ensures PairOk(s'.txs[u], s'.txs[v]) {
      InstallKeepsPairs(s, l, u, v);
    }
  }

  lemma InstallKeepsPairs(s: State, l: Label, u: TxId, v: TxId)
    requires Inv(s) && (l.Commit? || l.CommitUnseen?) && Enabled(s, l)
    requires u in s.txs && v in s.txs && u != v
    ensures PairOk(Next(s, l).txs[u], Next(s, l).txs[v])
  {
    var t := l.t;
    assert PairOk(s.txs[u], s.txs[v]);
    assert HolderOk(s, s.txs[t].req, s.txs[t].phase);
    var w := if u == t then v else u;
    if s.txs[w].phase.Committed? {
      assert PhaseOk(s, s.txs[w].req, s.txs[w].phase);
    }
  }

  lemma PublishKeepsInv(s: State, l: Label)
    requires Inv(s) && l.Publish? && Enabled(s, l)
    ensures Inv(Next(s, l))
  {
  }

  /** Giving a connection back or losing it touches no table and no transaction. */
  lemma DisposeKeepsInv(s: State, l: Label)
    requires Inv(s) && (l.Release? || l.Strand?) && Enabled(s, l)
    ensures Inv(Next(s, l))
  {
    var s' := Next(s, l);
    forall t | t in s'.txs
      ensures PhaseOk(s', s'.txs[t].req, s'.txs[t].phase) && HolderOk(s', s'.txs[t].req, s'.txs[t].phase)
    {
      assert PhaseOk(s, s.txs[t].req, s.txs[t].phase) && HolderOk(s, s.txs[t].req, s.txs[t].phase);
      assert KeyTaken(s', RequestKey(s.txs[t].req)) == KeyTaken(s, RequestKey(s.txs[t].req));
    }
  }

  lemma StepKeepsInv(s: State, l: Label)
    requires Inv(s)
    ensures Inv(Step(s, l))
  {
    if Enabled(s, l) {
      if Quiet(l) {
        QuietLabelKeepsInv(s, l);
      } else {
        LoudLabelKeepsInv(s, l);
      }
    }
  }

  lemma LoudLabelKeepsInv(s: State, l: Label)
    requires Inv(s) && !Quiet(l) && Enabled(s, l)
    ensures Inv(Next(s, l))
  {
    match l
    case Begin(_, _) => BeginKeepsInv(s, l);
    case Insert(_, _) => InsertKeepsInv(s, l);
    case Lock(_) => LockKeepsInv(s, l);
    case Reserve(_) => ReserveKeepsInv(s, l);
    case Commit(_) => InstallKeepsInv(s, l);
    case CommitUnseen(_) => InstallKeepsInv(s, l);
    case Publish(_) => PublishKeepsInv(s, l);
    case Release(_) => DisposeKeepsInv(s, l);
    case Strand(_) => DisposeKeepsInv(s, l);
  }

  lemma {:induction false} RunKeepsInv(s: State, run: seq<Label>)
    requires Inv(s)
    ensures Inv(Exec(s, run))
    decreases |run|
  {
    if run != [] {
      RunKeepsInv(s, run[..|run| - 1]);
      StepKeepsInv(Exec(s, run[..|run| - 1]), run[|run| - 1]);
    }
  }

  /** The order a rejected insert clashed with: committed, and the only one of its key. */
  lemma OnlyOrderOfKey(s: State, t: TxId) returns (at: nat)
    requires Inv(s) && t in s.txs && s.txs[t].phase.Rejected?
    ensures at < |s.orders| && OrderKey(s.orders[at]) == RequestKey(s.txs[t].req)
    ensures forall other :: 0 <= other < |s.orders| && OrderKey(s.orders[other]) == RequestKey(s.txs[t].req) ==>
              other == at
    ensures forall other :: Enabled(s, Recover(t, other)) <==> HasFree(s) && other == at
  {
    assert PhaseOk(s, s.txs[t].req, s.txs[t].phase);
    at :| 0 <= at < |s.orders| && OrderKey(s.orders[at]) == RequestKey(s.txs[t].req);
  }

  // ---- Frames ---------------------------------------------------------------------------------------------

  lemma StepKeepsRequests(s: State, l: Label)
    ensures forall t :: t in s.txs ==> t in Step(s, l).txs && Step(s, l).txs[t].req == s.txs[t].req
    ensures forall t :: t in s.txs && t != l.t ==> Step(s, l).txs[t] == s.txs[t]
  {
    if Enabled(s, l) && !l.Begin? && !l.Release? && !l.Strand? {
      MovesOne(s, l);
    }
  }

  lemma FinishedStays(s: State, l: Label, t: TxId)
    requires Enabled(s, l) && t in s.txs && s.txs[t].phase.Finished?
    ensures t in Next(s, l).txs && Next(s, l).txs[t] == s.txs[t]
  {
  }

  lemma StepAddsOnlyBegun(s: State, l: Label, t: TxId)
    requires Enabled(s, l) && t in Next(s, l).txs && t !in s.txs
    ensures l == Begin(t, Next(s, l).txs[t].req)
  {
  }

  // ---- Connections ----------------------------------------------------------------------------------------

  lemma BusyShrinks(busy: set<TxId>, t: TxId)
    requires t in busy
    ensures |busy - {t}| == |busy| - 1
  {
  }

  lemma StepKeepsPool(s: State, l: Label)
    requires PoolOk(s)
    ensures PoolOk(Step(s, l)) && Step(s, l).pool <= s.pool
  {
    if Enabled(s, l) {
      if l.Release? || l.Strand? {
        BusyShrinks(s.busy, l.t);
      } else if !l.Begin? {
        MovesOne(s, l);
      }
    }
  }

  lemma {:induction false} RunKeepsPool(s: State, run: seq<Label>)
    requires PoolOk(s)
    ensures PoolOk(Exec(s, run)) && Exec(s, run).pool <= s.pool
    decreases |run|
  {
    if run != [] {
      RunKeepsPool(s, run[..|run| - 1]);
      StepKeepsPool(Exec(s, run[..|run| - 1]), run[|run| - 1]);
    }
  }
}
