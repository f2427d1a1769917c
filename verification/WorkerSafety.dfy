/** Safety of order processing over every run, crashes included: no message is lost, the effect of a message
    commits at most once, the order rows are a function of the ledger, and copies are conserved. */
module WorkerSafety {
  import opened Domain
  import opened WorkerProtocol
  import opened WorkerInvariant

  // ---- No message is lost ---------------------------------------------------------------------------------

  /** A copy that stands for its message: ready, unacknowledged or dead-lettered, but not one whose successor
      has already been sent. */
  predicate Live(cp: Copy) {
    !cp.place.Gone? && !At(cp, Sent)
  }

  predicate HasLive(s: State, mid: MessageId) {
    exists d :: d in s.copies && Live(s.copies[d]) && s.copies[d].msg.mid == mid
  }

  predicate Safe(s: State, mid: MessageId) {
    InLedger(s.ledger, mid) || HasLive(s, mid)
  }

  predicate NothingLost(s: State) {
    forall c :: c in s.copies ==> Safe(s, s.copies[c].msg.mid)
  }

  /** `d` stands for `c` after the step. */
  lemma LiveAgain(s: State, mid: MessageId, d: CopyId)
    requires d in s.copies && Live(s.copies[d]) && s.copies[d].msg.mid == mid
    ensures HasLive(s, mid)
  {
  }

  lemma MovedStaysLive(s: State, l: Label, d: CopyId)
    requires (Moves(l) || l.CommitUnseen?) && !l.Ack? && Enabled(s, l) && d in s.copies && Live(s.copies[d])
    ensures d in Next(s, l).copies && Live(Next(s, l).copies[d]) && Next(s, l).copies[d].msg == s.copies[d].msg
  {
    MovesOneCopy(s, l);
  }

  /** A live copy stays live, or its successor is, or its message has come into the ledger. */
  lemma StepKeepsLive(s: State, l: Label, d: CopyId)
    requires Inv(s) && Enabled(s, l) && d in s.copies && Live(s.copies[d])
    ensures Safe(Next(s, l), s.copies[d].msg.mid)
  {
    var s', mid := Next(s, l), s.copies[d].msg.mid;
    assert CopyOk(s, s.copies[d]);
    if (Moves(l) || l.CommitUnseen?) && !l.Ack? {
      MovedStaysLive(s, l, d);
      LiveAgain(s', mid, d);
    } else {
      match l
      case Commit(c) => if c == d { LedgerGrows(s.ledger, s'.ledger[|s.ledger|], mid); } else { LiveAgain(s', mid, d); }
      case Retry(c, child) => LiveAgain(s', mid, if c == d then child else d);
      case DeadLetter(c, child) => LiveAgain(s', mid, if c == d then child else d);
      case Ack(c) => if c != d { LiveAgain(s', mid, d); }
      case CreateOrder(_) => LiveAgain(s', mid, d);
      case Publish(_, _, _) => LiveAgain(s', mid, d);
      case Crash(_) => LiveAgain(s', mid, d);
    }
  }

  lemma LedgerStays(ledger: seq<Entry>, ledger': seq<Entry>, mid: MessageId)
    requires ledger <= ledger' && InLedger(ledger, mid)
    ensures InLedger(ledger', mid)
  {
  }

  lemma StepKeepsMessage(s: State, l: Label, mid: MessageId)
    requires Inv(s) && Enabled(s, l) && Safe(s, mid)
    ensures Safe(Next(s, l), mid)
  {
    if InLedger(s.ledger, mid) {
      StepKeepsInv(s, l);
      LedgerStays(s.ledger, Next(s, l).ledger, mid);
    } else {
      var d :| d in s.copies && Live(s.copies[d]) && s.copies[d].msg.mid == mid;
      StepKeepsLive(s, l, d);
    }
  }

  lemma StepLosesNothing(s: State, l: Label)
    requires Inv(s) && NothingLost(s)
    ensures NothingLost(Step(s, l))
  {
    if Enabled(s, l) {
      var s' := Next(s, l);
      forall c | c in s'.copies ensures Safe(s', s'.copies[c].msg.mid) {
        if c in s.copies {
          assert s'.copies[c].msg == s.copies[c].msg;
          StepKeepsMessage(s, l, s.copies[c].msg.mid);
        } else if l.Publish? {
          LiveAgain(s', s'.copies[c].msg.mid, c);
        } else {
          assert s'.copies[c].msg.mid == s.copies[l.c].msg.mid;
          StepKeepsMessage(s, l, s.copies[l.c].msg.mid);
        }
      }
    }
  }

  /** Every message ever published is in the ledger or has a copy that is ready, unacknowledged or in the
      dead-letter queue, after any number of crashes. */
  lemma {:induction false} NoMessageLost(base: State, run: seq<Label>)
    requires Init(base)
    ensures NothingLost(Exec(base, run))
    decreases |run|
  {
    if run != [] {
      NoMessageLost(base, run[..|run| - 1]);
      RunKeepsInv(base, run[..|run| - 1]);
      StepLosesNothing(Exec(base, run[..|run| - 1]), run[|run| - 1]);
    }
  }

  /** The acknowledgement that drops a copy for good follows a ledger commit, a republish or a dead-letter. */
  lemma AckIsJustified(base: State, run: seq<Label>, c: CopyId)
    requires Init(base) && Enabled(Exec(base, run), Ack(c))
    ensures var s := Exec(base, run);
            InLedger(s.ledger, s.copies[c].msg.mid)
            || exists d :: d in s.copies && d != c && Live(s.copies[d]) && s.copies[d].msg.mid == s.copies[c].msg.mid
  {
    var s := Exec(base, run);
    RunKeepsInv(base, run);
    NoMessageLost(base, run);
    assert CopyOk(s, s.copies[c]);
    assert Safe(s, s.copies[c].msg.mid);
    if !InLedger(s.ledger, s.copies[c].msg.mid) {
      var d :| d in s.copies && Live(s.copies[d]) && s.copies[d].msg.mid == s.copies[c].msg.mid;
      assert At(s.copies[c], Sent);
    }
  }

  // ---- The ledger, the rows, and the effect -----------------------------------------------------------------

  /** The last update of an order among the committed dedup rows. */
  function LastWrite(ledger: seq<Entry>, o: OrderId): Option<Time>
    decreases |ledger|
  {
    if ledger == [] then None
    else
      var e := ledger[|ledger| - 1];
      if e.orderId == o && e.write.Some? then e.write else LastWrite(ledger[..|ledger| - 1], o)
  }

  function RowAfter(ledger: seq<Entry>, o: OrderId): Row {
    var w := LastWrite(ledger, o);
    if w.Some? then Row(PROCESSED, w) else Row(CREATED, None)
  }

  /** The copy a dedup row came from. */
  predicate CommittedFrom(cp: Copy, e: Entry) {
    && e.mid == cp.msg.mid && e.orderId == cp.msg.orderId && e.attempt == cp.msg.attempt
    && (e.write.Some? ==> cp.msg.simulateFailure.None?)
    && (cp.msg.simulateFailure.Some? ==> Stops(cp.msg))
  }

  predicate HasSource(s: State, e: Entry) {
    exists c :: c in s.copies && CommittedFrom(s.copies[c], e)
  }

  /** Processing ended only where it may. */
  predicate AppliedOk(s: State, cp: Copy) {
    cp.place.Held? && cp.place.h.Applied? ==>
      && (cp.msg.simulateFailure.Some? ==> Stops(cp.msg) && cp.place.h.write.None?)
  }

  predicate RowsOk(s: State) {
    && (forall o :: o in s.rows ==> s.rows[o] == RowAfter(s.ledger, o))
    && (forall i :: 0 <= i < |s.ledger| ==>
          HasSource(s, s.ledger[i]) && (s.ledger[i].write.Some? ==> s.ledger[i].orderId in s.rows))
    && (forall c :: c in s.copies ==> AppliedOk(s, s.copies[c]))
  }

  lemma LastWriteSnoc(ledger: seq<Entry>, e: Entry, o: OrderId)
    ensures LastWrite(ledger + [e], o) == if e.orderId == o && e.write.Some? then e.write else LastWrite(ledger, o)
  {
  }

  lemma {:induction false} NoWriteWithoutEntry(ledger: seq<Entry>, o: OrderId)
    ensures LastWrite(ledger, o).Some?
        <==> exists i :: 0 <= i < |ledger| && ledger[i].orderId == o && ledger[i].write.Some?
    decreases |ledger|
  {
    if ledger != [] {
      var front := ledger[..|ledger| - 1];
      NoWriteWithoutEntry(front, o);
      if i :| 0 <= i < |front| && front[i].orderId == o && front[i].write.Some? {
        assert ledger[i] == front[i];
      }
      if i :| 0 <= i < |ledger| && ledger[i].orderId == o && ledger[i].write.Some? {
        assert i < |front| ==> front[i] == ledger[i];
      }
    }
  }

  lemma StepKeepsSources(s: State, l: Label, e: Entry)
    requires Enabled(s, l) && HasSource(s, e)
    ensures HasSource(Next(s, l), e)
  {
    var c :| c in s.copies && CommittedFrom(s.copies[c], e);
    assert Next(s, l).copies[c].msg == s.copies[c].msg;
  }

  lemma CommitKeepsRows(s: State, l: Label)
    requires Inv(s) && RowsOk(s) && (l.Commit? || l.CommitUnseen?) && Enabled(s, l)
    ensures RowsOk(Next(s, l))
  {
    var s', c := Next(s, l), l.c;
    var e := s'.ledger[|s.ledger|];
    assert CopyOk(s, s.copies[c]) && AppliedOk(s, s.copies[c]);
    assert CommittedFrom(s'.copies[c], e);
    forall o | o in s'.rows ensures s'.rows[o] == RowAfter(s'.ledger, o) {
      LastWriteSnoc(s.ledger, e, o);
    }
    forall i | 0 <= i < |s'.ledger|
      ensures HasSource(s', s'.ledger[i]) && (s'.ledger[i].write.Some? ==> s'.ledger[i].orderId in s'.rows)
    {
      if i < |s.ledger| {
        assert s'.ledger[i] == s.ledger[i];
        StepKeepsSources(s, l, s.ledger[i]);
      }
    }
    forall d | d in s'.copies ensures AppliedOk(s', s'.copies[d]) {
      assert AppliedOk(s, s.copies[d]);
    }
  }

  lemma StepKeepsRows(s: State, l: Label)
    requires Inv(s) && RowsOk(s)
    ensures RowsOk(Step(s, l))
  {
    if Enabled(s, l) {
      if l.Commit? || l.CommitUnseen? {
        CommitKeepsRows(s, l);
      } else {
        OthersKeepRows(s, l);
      }
    }
  }

  lemma OthersKeepApplied(s: State, l: Label)
    requires RowsOk(s) && Enabled(s, l) && !l.Commit? && !l.CommitUnseen?
    ensures forall c :: c in Next(s, l).copies ==> AppliedOk(Next(s, l), Next(s, l).copies[c])
  {
  }

  lemma OthersKeepRows(s: State, l: Label)
    requires RowsOk(s) && Enabled(s, l) && !l.Commit? && !l.CommitUnseen?
    ensures RowsOk(Next(s, l))
  {
    var s' := Next(s, l);
    OthersKeepApplied(s, l);
    assert s'.ledger == s.ledger;
    forall i | 0 <= i < |s.ledger| ensures HasSource(s', s.ledger[i]) {
      StepKeepsSources(s, l, s.ledger[i]);
    }
    forall o | o in s'.rows ensures s'.rows[o] == RowAfter(s'.ledger, o) {
      if o !in s.rows {
        NoWriteWithoutEntry(s.ledger, o);
      }
    }
  }

  lemma {:induction false} RunKeepsRowsFrom(s: State, run: seq<Label>)
    requires Inv(s) && RowsOk(s)
    ensures Inv(Exec(s, run)) && RowsOk(Exec(s, run))
    decreases |run|
  {
    RunKeepsInv(s, run);
    if run != [] {
      RunKeepsRowsFrom(s, run[..|run| - 1]);
      StepKeepsRows(Exec(s, run[..|run| - 1]), run[|run| - 1]);
    }
  }

  lemma RunKeepsRows(base: State, run: seq<Label>)
    requires Init(base)
    ensures Inv(Exec(base, run)) && RowsOk(Exec(base, run))
  {
    RunKeepsRowsFrom(base, run);
  }

  /** Exactly-once effect: whatever is redelivered or crashes, at most one dedup row and so at most one order
      update commits for a message id, and an order's row is exactly what the ledger's last update says. */
  lemma EffectAtMostOnce(base: State, run: seq<Label>, o: OrderId)
    requires Init(base)
    ensures var s := Exec(base, run);
            && LedgerOk(s.ledger)
            && (o in s.rows ==> s.rows[o] == RowAfter(s.ledger, o))
            && (o in s.rows ==> (s.rows[o].status == PROCESSED <==>
                  exists i :: 0 <= i < |s.ledger| && s.ledger[i].orderId == o && s.ledger[i].write.Some?))
  {
    RunKeepsRows(base, run);
    NoWriteWithoutEntry(Exec(base, run).ledger, o);
  }

  lemma {:induction false} RunGrows(base: State, run1: seq<Label>, run2: seq<Label>)
    requires Init(base)
    ensures Exec(base, run1).ledger <= Exec(base, run1 + run2).ledger
    ensures Exec(base, run1).rows.Keys <= Exec(base, run1 + run2).rows.Keys
    decreases |run2|
  {
    if run2 == [] {
      assert run1 + run2 == run1;
    } else {
      var front, l := run2[..|run2| - 1], run2[|run2| - 1];
      RunGrows(base, run1, front);
      assert run1 + run2 == (run1 + front) + [l];
      ExecSnoc(base, run1 + front, l);
      RunKeepsInv(base, run1 + front);
      StepKeepsInv(Exec(base, run1 + front), l);
    }
  }

  /** Status only moves from created to processed, and an order whose messages all carry the order's id as
      message id never has its `processedAt` changed once it is written. `run2` continues `run1`. */
  lemma ProcessedAtIsFinal(base: State, run1: seq<Label>, run2: seq<Label>, o: OrderId)
    requires Init(base) && o in Exec(base, run1).rows && Exec(base, run1).rows[o].status == PROCESSED
    ensures o in Exec(base, run1 + run2).rows && Exec(base, run1 + run2).rows[o].status == PROCESSED
    ensures (forall c :: c in Exec(base, run1 + run2).copies && Exec(base, run1 + run2).copies[c].msg.orderId == o ==>
               Exec(base, run1 + run2).copies[c].msg.mid == o)
            ==> Exec(base, run1 + run2).rows[o] == Exec(base, run1).rows[o]
  {
    var s, s' := Exec(base, run1), Exec(base, run1 + run2);
    RunGrows(base, run1, run2);
    RunKeepsRows(base, run1);
    RunKeepsRows(base, run1 + run2);
    NoWriteWithoutEntry(s.ledger, o);
    NoWriteWithoutEntry(s'.ledger, o);
    var i :| 0 <= i < |s.ledger| && s.ledger[i].orderId == o && s.ledger[i].write.Some?;
    assert s'.ledger[i] == s.ledger[i];
    if forall c :: c in s'.copies && s'.copies[c].msg.orderId == o ==> s'.copies[c].msg.mid == o {
      forall j | 0 <= j < |s'.ledger| && s'.ledger[j].orderId == o ensures s'.ledger[j].mid == o && j == i {
        assert HasSource(s', s'.ledger[j]) && HasSource(s', s'.ledger[i]);
      }
      OnlyWrite(s.ledger, i, o);
      OnlyWrite(s'.ledger, i, o);
    }
  }

  lemma {:induction false} OnlyWrite(ledger: seq<Entry>, i: nat, o: OrderId)
    requires i < |ledger| && ledger[i].orderId == o && ledger[i].write.Some?
    requires forall j :: 0 <= j < |ledger| && ledger[j].orderId == o ==> j == i
    ensures LastWrite(ledger, o) == ledger[i].write
    decreases |ledger|
  {
    if i < |ledger| - 1 {
      var front := ledger[..|ledger| - 1];
      assert forall j :: 0 <= j < |front| ==> front[j] == ledger[j];
      OnlyWrite(front, i, o);
    }
  }
}
