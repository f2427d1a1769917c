/** The closed form of the retry loop, and when a dead-lettered message was never processed. */
module RetryLoop {
  import opened Domain
  import opened WorkerProtocol
  import opened WorkerInvariant
  import opened WorkerSafety
  import opened WorkerTermination
  import opened WorkerAccounting

  datatype Fate = LedgerAt(attempt: int) | DeadAt(attempt: int)

  /** Where a message that enters with attempt `a` ends, without running the loop. */
  function FateOf(maxRetries: int, a: int, failure: Option<Failure>): Fate {
    if failure.None? then LedgerAt(a)
    else
      match failure.value.stopOnAttempt
      case None => DeadAt(Max(a, maxRetries))
      case Some(stop) => if a <= stop <= Max(a, maxRetries) then LedgerAt(stop) else DeadAt(Max(a, maxRetries))
  }

  /** The documented rule is that a message succeeds exactly if `stopOnAttempt` is at most the retry limit. It is
      right exactly if the message enters at or before that attempt, or, beyond the limit, not exactly at it. */
  lemma DocumentedRule(maxRetries: int, a: int, stop: int)
    ensures (FateOf(maxRetries, a, Some(Failure(Some(stop)))).LedgerAt? <==> stop <= maxRetries)
       <==> (if stop <= maxRetries then a <= stop else stop != a)
  {
  }

  predicate Of(s: State, c: CopyId, mid: MessageId) {
    c in s.copies && s.copies[c].msg.mid == mid
  }

  /** What may not happen to message `mid`: a crash between its commit or its sending and the ack, a commit that is
      applied but reported as an error, and a second publication under its id. */
  ghost predicate Orderly(s: State, l: Label, mid: MessageId) {
    match l
    case Crash(w) =>
      forall c :: Of(s, c, mid) ==> s.copies[c].place != Held(w, Done) && s.copies[c].place != Held(w, Sent)
    case CommitUnseen(c) => !Of(s, c, mid)
    case Publish(_, m, _) => m.mid == mid ==> forall c :: c in s.copies ==> s.copies[c].msg.mid != mid
    case _ => true
  }

  ghost predicate OrderlyRun(base: State, run: seq<Label>, mid: MessageId) {
    forall i :: 0 <= i < |run| ==> Orderly(Exec(base, run[..i]), run[i], mid)
  }

  lemma OrderlyPrefix(base: State, run: seq<Label>, mid: MessageId)
    requires OrderlyRun(base, run, mid) && run != []
    ensures OrderlyRun(base, run[..|run| - 1], mid)
    ensures Orderly(Exec(base, run[..|run| - 1]), run[|run| - 1], mid)
  {
    var front := run[..|run| - 1];
    forall i | 0 <= i < |front| ensures Orderly(Exec(base, front[..i]), front[i], mid) {
      assert front[..i] == run[..i];
    }
  }

  // ---- Dead-lettered means not processed ------------------------------------------------------------------

  /** Once the message is in the ledger, a copy that counts is done. */
  predicate FinishedOk(s: State, cp: Copy) {
    Counts(cp) && InLedger(s.ledger, cp.msg.mid) ==> At(cp, Done) || cp.place == Gone(Processed)
  }

  /** One copy of the message counts, and once the message is in the ledger that copy is done. */
  ghost predicate Single(s: State, mid: MessageId) {
    && (forall c, d :: Of(s, c, mid) && Of(s, d, mid) && Counts(s.copies[c]) && Counts(s.copies[d]) ==> c == d)
    && (forall c :: Of(s, c, mid) ==> FinishedOk(s, s.copies[c]))
  }

  /** A copy changes place but counts as before. */
  lemma PutKeepsSingle(s: State, s': State, c: CopyId, cp: Copy, mid: MessageId)
    requires Single(s, mid) && c in s.copies && s'.ledger == s.ledger && s'.copies == s.copies[c := cp]
    requires Counts(cp) == Counts(s.copies[c]) && cp.msg == s.copies[c].msg && (cp.msg.mid == mid ==> FinishedOk(s, cp))
    ensures Single(s', mid)
  {
    forall d | Of(s', d, mid)
      ensures Of(s, d, mid) && FinishedOk(s', s'.copies[d]) && Counts(s'.copies[d]) == Counts(s.copies[d])
    {
      assert Of(s, d, mid);
    }
  }

  lemma MoveKeepsFinished(s: State, l: Label)
    requires Inv(s) && Moves(l) && Enabled(s, l) && FinishedOk(s, s.copies[l.c])
    ensures FinishedOk(s, Next(s, l).copies[l.c])
  {
    MovesOneCopy(s, l);
    assert CopyOk(s, s.copies[l.c]);
  }

  lemma MoveKeepsSingle(s: State, l: Label, mid: MessageId)
    requires Inv(s) && Single(s, mid) && Moves(l) && Enabled(s, l)
    ensures Single(Next(s, l), mid)
  {
    MovesOneCopy(s, l);
    MoveKeepsCounting(s, l);
    if Of(s, l.c, mid) {
      MoveKeepsFinished(s, l);
    }
    PutKeepsSingle(s, Next(s, l), l.c, Next(s, l).copies[l.c], mid);
  }

  lemma PublishKeepsSingle(s: State, l: Label, mid: MessageId)
    requires RowsOk(s) && Single(s, mid) && l.Publish? && Enabled(s, l) && Orderly(s, l, mid)
    ensures Single(Next(s, l), mid)
  {
    var s' := Next(s, l);
    assert forall c :: c in s.copies ==> s'.copies[c] == s.copies[c];
    if l.msg.mid == mid {
      NewIdIsNotInLedger(s, mid);
    } else {
      forall c | Of(s', c, mid) ensures Of(s, c, mid) && FinishedOk(s', s'.copies[c]) {
        assert Of(s, c, mid);
      }
    }
  }

  lemma SendKeepsSingle(s: State, l: Label, mid: MessageId)
    requires Single(s, mid) && (l.Retry? || l.DeadLetter?) && Enabled(s, l)
    ensures Single(Next(s, l), mid)
  {
    var s' := Next(s, l);
    assert Counts(s.copies[l.c]) && !Counts(s'.copies[l.c]) && Of(s', l.child, mid) == Of(s, l.c, mid);
    assert Of(s, l.c, mid) ==> FinishedOk(s, s.copies[l.c]);
    forall c | Of(s', c, mid)
      ensures FinishedOk(s', s'.copies[c])
      ensures Counts(s'.copies[c]) ==>
                var c0 := if c == l.child then l.c else c; c != l.c && Of(s, c0, mid) && Counts(s.copies[c0])
    {
      if c != l.child && c != l.c {
        assert Of(s, c, mid) && FinishedOk(s, s.copies[c]);
      }
    }
  }

  lemma CommitKeepsSingle(s: State, l: Label, mid: MessageId)
    requires Single(s, mid) && (l.Commit? || l.CommitUnseen?) && Enabled(s, l) && Orderly(s, l, mid)
    ensures Single(Next(s, l), mid)
  {
    var s' := Next(s, l);
    MovesOneCopy(s, l);
    MoveKeepsCounting(s, l);
    LedgerGrows(s.ledger, s'.ledger[|s.ledger|], mid);
    assert Of(s, l.c, mid) && l.Commit? ==> Counts(s.copies[l.c]);
    forall c | Of(s', c, mid)
      ensures Of(s, c, mid) && Counts(s'.copies[c]) == Counts(s.copies[c]) && FinishedOk(s', s'.copies[c])
    {
      assert Of(s, c, mid) && FinishedOk(s, s.copies[c]);
    }
  }

  lemma CrashKeepsSingle(s: State, l: Label, mid: MessageId)
    requires Single(s, mid) && l.Crash? && Orderly(s, l, mid)
    ensures Single(Next(s, l), mid)
  {
    var s' := Next(s, l);
    forall c | Of(s', c, mid)
      ensures Of(s, c, mid) && Counts(s'.copies[c]) == Counts(s.copies[c]) && FinishedOk(s', s'.copies[c])
    {
      assert Of(s, c, mid) && FinishedOk(s, s.copies[c]);
    }
  }

  lemma StepKeepsSingle(s: State, l: Label, mid: MessageId)
    requires Inv(s) && RowsOk(s) && Single(s, mid) && Enabled(s, l) && Orderly(s, l, mid)
    ensures Single(Next(s, l), mid)
  {
    match l
    case CreateOrder(_) =>
      assert forall c :: Of(Next(s, l), c, mid) ==> Of(s, c, mid);
    case Publish(_, _, _) => PublishKeepsSingle(s, l, mid);
    case Commit(_) => CommitKeepsSingle(s, l, mid);
    case CommitUnseen(_) => CommitKeepsSingle(s, l, mid);
    case Retry(_, _) => SendKeepsSingle(s, l, mid);
    case DeadLetter(_, _) => SendKeepsSingle(s, l, mid);
    case Crash(_) => CrashKeepsSingle(s, l, mid);
    case _ => MoveKeepsSingle(s, l, mid);
  }

  lemma {:induction false} RunKeepsSingle(base: State, run: seq<Label>, mid: MessageId)
    requires Init(base) && OrderlyRun(base, run, mid)
    ensures Single(Exec(base, run), mid)
    decreases |run|
  {
    if run != [] {
      var s, l := Exec(base, run[..|run| - 1]), run[|run| - 1];
      OrderlyPrefix(base, run, mid);
      RunKeepsSingle(base, run[..|run| - 1], mid);
      RunKeepsRows(base, run[..|run| - 1]);
      if Enabled(s, l) {
        StepKeepsSingle(s, l, mid);
      }
    }
  }

  /** A dead-lettered message was never processed and has no second copy, in the queue, with a handler or
      dead-lettered again, if nothing of what `Orderly` names has happened to it. Whatever happens to other messages
      does not matter. */
  lemma DeadMeansUnprocessed(base: State, run: seq<Label>, c: CopyId)
    requires Init(base) && c in Exec(base, run).copies && Exec(base, run).copies[c].place.Dead?
    requires OrderlyRun(base, run, Exec(base, run).copies[c].msg.mid)
    ensures var s := Exec(base, run);
            && !InLedger(s.ledger, s.copies[c].msg.mid)
            && (forall d :: d in s.copies && d != c && Live(s.copies[d]) ==> s.copies[d].msg.mid != s.copies[c].msg.mid)
  {
    var s := Exec(base, run);
    var mid := s.copies[c].msg.mid;
    RunKeepsSingle(base, run, mid);
    assert Of(s, c, mid) && Counts(s.copies[c]) && FinishedOk(s, s.copies[c]);
    forall d | d in s.copies && d != c && Live(s.copies[d]) ensures s.copies[d].msg.mid != mid {
      assert Counts(s.copies[d]) && (s.copies[d].msg.mid == mid ==> Of(s, d, mid));
    }
  }

  // ---- The closed form --------------------------------------------------------------------------------------

  /** `stopOnAttempt` lies in [lo, hi). */
  predicate StopsWithin(m: Msg, lo: int, hi: int) {
    && m.simulateFailure.Some? && m.simulateFailure.value.stopOnAttempt.Some?
    && lo <= m.simulateFailure.value.stopOnAttempt.value < hi
  }

  /** The attempts before this one failed, and so did this one if the copy has left its handler by failing. */
  predicate HistoryOk(cp: Copy) {
    && !StopsWithin(cp.msg, cp.first, cp.msg.attempt)
    && (cp.msg.simulateFailure.None? ==> cp.msg.attempt == cp.first)
    && (cp.place.Dead? || At(cp, Failing) || At(cp, Timer) ==> Fails(cp.msg))
  }

  predicate SameSource(a: Copy, b: Copy) {
    a.first == b.first && a.msg.simulateFailure == b.msg.simulateFailure
  }

  /** All copies of the message stem from one publication and failed where it asked for it. */
  ghost predicate Clean(s: State, mid: MessageId) {
    && (forall c :: Of(s, c, mid) ==> HistoryOk(s.copies[c]))
    && (forall c, d :: Of(s, c, mid) && Of(s, d, mid) ==> SameSource(s.copies[c], s.copies[d]))
  }

  /** No database error hits a handler of the message. */
  predicate Spared(s: State, l: Label, mid: MessageId) {
    Faulty(l) ==> !Of(s, l.c, mid)
  }

  predicate SparedRun(base: State, run: seq<Label>, mid: MessageId) {
    forall i :: 0 <= i < |run| ==> Spared(Exec(base, run[..i]), run[i], mid)
  }

  lemma SparedPrefix(base: State, run: seq<Label>, mid: MessageId)
    requires SparedRun(base, run, mid) && run != []
    ensures SparedRun(base, run[..|run| - 1], mid)
    ensures Spared(Exec(base, run[..|run| - 1]), run[|run| - 1], mid)
  {
    var front := run[..|run| - 1];
    forall i | 0 <= i < |front| ensures Spared(Exec(base, front[..i]), front[i], mid) {
      assert front[..i] == run[..i];
    }
  }

  /** Steps that leave a handler by failing do so after a failing attempt. */
  lemma FailingFails(s: State, l: Label, c: CopyId, mid: MessageId)
    requires Clean(s, mid) && Enabled(s, l) && Orderly(s, l, mid) && Spared(s, l, mid) && Of(s, c, mid)
    ensures At(Next(s, l).copies[c], Failing) || At(Next(s, l).copies[c], Timer) ==> Fails(s.copies[c].msg)
  {
    assert HistoryOk(s.copies[c]);
    if Moves(l) || l.Commit? || l.CommitUnseen? {
      MovesOneCopy(s, l);
    }
  }

  /** A copy of a new state stands for one that was there before: itself or its parent. */
  predicate StandsFor(s: State, cp: Copy, c0: CopyId, mid: MessageId) {
    Of(s, c0, mid) && SameSource(cp, s.copies[c0]) && HistoryOk(cp)
  }

  lemma OldCopyStands(s: State, l: Label, c: CopyId, mid: MessageId)
    requires Clean(s, mid) && Enabled(s, l) && Orderly(s, l, mid) && Spared(s, l, mid) && Of(s, c, mid)
    ensures c in Next(s, l).copies && StandsFor(s, Next(s, l).copies[c], c, mid)
  {
    StepEvolves(s, l);
    FailingFails(s, l, c, mid);
    assert HistoryOk(s.copies[c]);
  }

  lemma SentCopyStands(s: State, l: Label, c: CopyId, mid: MessageId)
    requires Clean(s, mid) && Enabled(s, l) && c !in s.copies && Of(Next(s, l), c, mid) && !l.Publish?
    ensures Next(s, l).copies[c].parent.Some?
    ensures StandsFor(s, Next(s, l).copies[c], Next(s, l).copies[c].parent.value, mid)
  {
    StepEvolves(s, l);
    assert NewCopy(s, Next(s, l).copies[c]);
    assert Of(s, Next(s, l).copies[c].parent.value, mid) && HistoryOk(s.copies[Next(s, l).copies[c].parent.value]);
  }

  lemma PublishKeepsClean(s: State, l: Label, mid: MessageId)
    requires Clean(s, mid) && Enabled(s, l) && l.Publish? && Orderly(s, l, mid)
    ensures Clean(Next(s, l), mid)
  {
    forall c | Of(Next(s, l), c, mid) ensures HistoryOk(Next(s, l).copies[c]) && (c != l.c ==> Of(s, c, mid)) {
      assert c != l.c ==> Of(s, c, mid);
    }
  }

  lemma StepKeepsClean(s: State, l: Label, mid: MessageId)
    requires Clean(s, mid) && Enabled(s, l) && Orderly(s, l, mid) && Spared(s, l, mid) && !l.Publish?
    ensures Clean(Next(s, l), mid)
  {
    var s' := Next(s, l);
    forall c | Of(s', c, mid) ensures exists c0 :: StandsFor(s, s'.copies[c], c0, mid) {
      if c in s.copies {
        StepEvolves(s, l);
        OldCopyStands(s, l, c, mid);
      } else {
        SentCopyStands(s, l, c, mid);
      }
    }
    forall c, d | Of(s', c, mid) && Of(s', d, mid) ensures SameSource(s'.copies[c], s'.copies[d]) {
      var c0 :| StandsFor(s, s'.copies[c], c0, mid);
      var d0 :| StandsFor(s, s'.copies[d], d0, mid);
      assert SameSource(s.copies[c0], s.copies[d0]);
    }
  }

  lemma {:induction false} RunKeepsClean(base: State, run: seq<Label>, mid: MessageId)
    requires Init(base) && OrderlyRun(base, run, mid) && SparedRun(base, run, mid)
    ensures Clean(Exec(base, run), mid)
    decreases |run|
  {
    if run != [] {
      var s, l := Exec(base, run[..|run| - 1]), run[|run| - 1];
      OrderlyPrefix(base, run, mid);
      SparedPrefix(base, run, mid);
      RunKeepsClean(base, run[..|run| - 1], mid);
      if Enabled(s, l) {
        if l.Publish? {
          PublishKeepsClean(s, l, mid);
        } else {
          StepKeepsClean(s, l, mid);
        }
      }
    }
  }

  function DeadCopies(s: State, mid: MessageId): set<CopyId> {
    set d | d in s.copies && s.copies[d].place.Dead? && s.copies[d].msg.mid == mid
  }

  /** A message is where `fate` says and nowhere else. */
  predicate EndsAs(s: State, mid: MessageId, fate: Fate) {
    match fate
    case LedgerAt(a) =>
      DeadCopies(s, mid) == {} && exists i :: 0 <= i < |s.ledger| && s.ledger[i].mid == mid && s.ledger[i].attempt == a
    case DeadAt(a) =>
      && !InLedger(s.ledger, mid) && |DeadCopies(s, mid)| == 1
      && forall d :: d in DeadCopies(s, mid) ==> s.copies[d].msg.attempt == a
  }

  function FateOfCopy(s: State, cp: Copy): Fate {
    FateOf(s.config.maxRetries, cp.first, cp.msg.simulateFailure)
  }

  lemma ProcessedEndsAsFate(s: State, c: CopyId, i: nat)
    requires Inv(s) && RowsOk(s) && c in s.copies && i < |s.ledger| && s.ledger[i].mid == s.copies[c].msg.mid
    requires Clean(s, s.copies[c].msg.mid) && Single(s, s.copies[c].msg.mid)
    ensures EndsAs(s, s.copies[c].msg.mid, FateOfCopy(s, s.copies[c]))
  {
    var mid := s.copies[c].msg.mid;
    assert HasSource(s, s.ledger[i]);
    var d :| d in s.copies && CommittedFrom(s.copies[d], s.ledger[i]);
    assert Of(s, c, mid) && Of(s, d, mid) && CopyOk(s, s.copies[d]) && HistoryOk(s.copies[d]);
    assert SameSource(s.copies[c], s.copies[d]);
    forall e | Of(s, e, mid) ensures !s.copies[e].place.Dead? {
      assert FinishedOk(s, s.copies[e]);
    }
  }

  lemma DeadEndsAsFate(s: State, c: CopyId, d: CopyId)
    requires Inv(s) && c in s.copies && d in DeadCopies(s, s.copies[c].msg.mid)
    requires Clean(s, s.copies[c].msg.mid) && Single(s, s.copies[c].msg.mid)
    ensures EndsAs(s, s.copies[c].msg.mid, FateOfCopy(s, s.copies[c]))
  {
    var mid := s.copies[c].msg.mid;
    assert Of(s, c, mid) && Of(s, d, mid) && CopyOk(s, s.copies[d])
           && HistoryOk(s.copies[d]) && FinishedOk(s, s.copies[d]);
    assert SameSource(s.copies[c], s.copies[d]);
    forall e | e in DeadCopies(s, mid) ensures e == d {
      assert Of(s, e, mid) && Counts(s.copies[e]) && Counts(s.copies[d]);
    }
    assert DeadCopies(s, mid) == {d};
  }

  /** The closed form: a message that is not in flight any more is where `FateOf` puts it and nowhere else, if
      nothing of what `Orderly` and `Spared` name has happened to it. Other messages may do and suffer anything. */
  lemma RetryLoopClosedForm(base: State, run: seq<Label>, c: CopyId)
    requires Init(base) && c in Exec(base, run).copies && Exec(base, run).copies[c].parent.None?
    requires var mid := Exec(base, run).copies[c].msg.mid;
             OrderlyRun(base, run, mid) && SparedRun(base, run, mid) && Settled(Exec(base, run), mid)
    ensures var cp := Exec(base, run).copies[c];
            EndsAs(Exec(base, run), cp.msg.mid, FateOf(base.config.maxRetries, cp.msg.attempt, cp.msg.simulateFailure))
  {
    var s := Exec(base, run);
    var mid := s.copies[c].msg.mid;
    RunKeepsInv(base, run);
    RunKeepsRows(base, run);
    RunKeepsClean(base, run, mid);
    RunKeepsSingle(base, run, mid);
    NoMessageLost(base, run);
    assert CopyOk(s, s.copies[c]) && Safe(s, mid);
    RestSettles(s, mid);
    if i :| 0 <= i < |s.ledger| && s.ledger[i].mid == mid {
      ProcessedEndsAsFate(s, c, i);
    } else {
      var d :| d in s.copies && s.copies[d].place.Dead? && s.copies[d].msg.mid == mid;
      DeadEndsAsFate(s, c, d);
    }
  }
}
