/** Counting copies and retries, and when the ledger and the order status agree. */
module WorkerAccounting {
  import opened Domain
  import opened WorkerProtocol
  import opened WorkerInvariant
  import opened WorkerSafety

  // ---- Copies are conserved up to one per crash ---------------------------------------------------------

  /** Ready, unacknowledged, dead-lettered, or acknowledged after success or dedup. */
  predicate Counts(cp: Copy) {
    !At(cp, Sent) && cp.place != Gone(Superseded)
  }

  function Counted(copies: map<CopyId, Copy>): set<CopyId> {
    set c | c in copies && Counts(copies[c])
  }

  /** The copies published from outside. */
  function Roots(copies: map<CopyId, Copy>): set<CopyId> {
    set c | c in copies && copies[c].parent.None?
  }

  predicate Conserved(s: State) {
    |Roots(s.copies)| <= |Counted(s.copies)| <= |Roots(s.copies)| + s.crashes
  }

  lemma PutCounts(copies: map<CopyId, Copy>, c: CopyId, cp: Copy)
    ensures Counted(copies[c := cp]) == if Counts(cp) then Counted(copies) + {c} else Counted(copies) - {c}
    ensures Roots(copies[c := cp]) == if cp.parent.None? then Roots(copies) + {c} else Roots(copies) - {c}
  {
  }

  lemma CrashRoots(s: State, w: WorkerId)
    ensures Roots(Next(s, Crash(w)).copies) == Roots(s.copies)
  {
  }

  lemma CrashCounts(s: State, w: WorkerId, extra: set<CopyId>)
    requires extra == set c | c in s.copies && s.copies[c].place == Held(w, Sent)
    ensures Counted(Next(s, Crash(w)).copies) == Counted(s.copies) + extra
  {
  }

  /** A process is between a send and its ack with at most one copy. */
  lemma OneSent(s: State, w: WorkerId, extra: set<CopyId>, c: CopyId)
    requires Inv(s) && c in extra && extra == set d | d in s.copies && s.copies[d].place == Held(w, Sent)
    ensures extra == {c}
  {
    assert forall d :: d in s.copies && d != c ==> PairOk(s.copies[c], s.copies[d]);
  }

  lemma CrashAddsOne(s: State, w: WorkerId)
    requires Inv(s)
    ensures |Counted(s.copies)| <= |Counted(Next(s, Crash(w)).copies)| <= |Counted(s.copies)| + 1
  {
    var extra := set c | c in s.copies && s.copies[c].place == Held(w, Sent);
    CrashCounts(s, w, extra);
    if c :| c in extra {
      OneSent(s, w, extra, c);
    } else {
      assert Counted(s.copies) + extra == Counted(s.copies);
    }
  }

  lemma SwapCardinality(a: set<CopyId>, b: set<CopyId>, c: CopyId, d: CopyId)
    requires c in a && d !in a && b == a - {c} + {d}
    ensures |b| == |a|
  {
  }

  lemma ReplaceConserves(copies: map<CopyId, Copy>, c: CopyId, sent: Copy, d: CopyId, child: Copy)
    requires c in copies && Counts(copies[c]) && !Counts(sent) && sent.parent == copies[c].parent
    requires d !in copies && Counts(child) && child.parent.Some?
    ensures |Counted(copies[c := sent][d := child])| == |Counted(copies)|
    ensures Roots(copies[c := sent][d := child]) == Roots(copies)
  {
    var mid := copies[c := sent];
    PutCounts(copies, c, sent);
    PutCounts(mid, d, child);
    SwapCardinality(Counted(copies), Counted(mid[d := child]), c, d);
    assert d !in Roots(copies);
  }

  lemma SendConserves(s: State, l: Label)
    requires (l.Retry? || l.DeadLetter?) && Enabled(s, l)
    ensures |Counted(Next(s, l).copies)| == |Counted(s.copies)| && Roots(Next(s, l).copies) == Roots(s.copies)
  {
    var sent, child := Next(s, l).copies[l.c], Next(s, l).copies[l.child];
    assert Next(s, l).copies == s.copies[l.c := sent][l.child := child];
    ReplaceConserves(s.copies, l.c, sent, l.child, child);
  }

  lemma PublishConserves(s: State, l: Label)
    requires l.Publish? && Enabled(s, l)
    ensures |Counted(Next(s, l).copies)| == |Counted(s.copies)| + 1
    ensures |Roots(Next(s, l).copies)| == |Roots(s.copies)| + 1
  {
    PutCounts(s.copies, l.c, Next(s, l).copies[l.c]);
    assert l.c !in Counted(s.copies) && l.c !in Roots(s.copies);
  }

  lemma MoveKeepsCounting(s: State, l: Label)
    requires (Moves(l) || l.Commit? || l.CommitUnseen?) && Enabled(s, l)
    ensures l.c in s.copies && l.c in Next(s, l).copies && Counts(Next(s, l).copies[l.c]) == Counts(s.copies[l.c])
  {
  }

  lemma MoveConserves(s: State, l: Label)
    requires (Moves(l) || l.Commit? || l.CommitUnseen?) && Enabled(s, l)
    ensures Counted(Next(s, l).copies) == Counted(s.copies) && Roots(Next(s, l).copies) == Roots(s.copies)
  {
    MovesOneCopy(s, l);
    MoveKeepsCounting(s, l);
    PutCounts(s.copies, l.c, Next(s, l).copies[l.c]);
  }

  lemma StepConserves(s: State, l: Label)
    requires Inv(s) && Conserved(s)
    ensures Conserved(Step(s, l))
  {
    if Enabled(s, l) {
      if Moves(l) || l.Commit? || l.CommitUnseen? {
        MoveConserves(s, l);
        assert Next(s, l).crashes == s.crashes;
      } else {
        OthersConserve(s, l);
      }
    }
  }

  lemma OthersConserve(s: State, l: Label)
    requires Inv(s) && Conserved(s) && Enabled(s, l) && !Moves(l) && !l.Commit? && !l.CommitUnseen?
    ensures Conserved(Next(s, l))
  {
    match l
    case Publish(_, _, _) => PublishConserves(s, l);
    case Retry(_, _) => SendConserves(s, l);
    case DeadLetter(_, _) => SendConserves(s, l);
    case Crash(w) => CrashAddsOne(s, w); CrashRoots(s, w);
    case CreateOrder(_) => assert Next(s, l).copies == s.copies;
  }

  /** Copies are neither lost nor multiplied: there are as many as were published from outside plus at most one
      extra copy per crash (a crash between a send and its ack), so without crashes exactly as many. */
  lemma {:induction false} CopiesConserved(base: State, run: seq<Label>)
    requires Init(base)
    ensures Inv(Exec(base, run)) && Conserved(Exec(base, run))
    decreases |run|
  {
    RunKeepsInv(base, run);
    if run == [] {
      assert Counted(base.copies) == {} && Roots(base.copies) == {};
    } else {
      CopiesConserved(base, run[..|run| - 1]);
      StepConserves(Exec(base, run[..|run| - 1]), run[|run| - 1]);
    }
  }

  // ---- Lineage ------------------------------------------------------------------------------------------

  /** `cp` is `par` sent once more: one attempt later, or with the same attempt to the dead-letter queue. */
  predicate Descends(cp: Copy, par: Copy) {
    && !par.place.Dead?
    && cp.first == par.first
    && cp.msg == par.msg.(attempt := par.msg.attempt + if cp.place.Dead? then 0 else 1)
  }

  predicate LineageOk(s: State) {
    forall c :: c in s.copies && s.copies[c].parent.Some? ==>
      s.copies[c].parent.value in s.copies && Descends(s.copies[c], s.copies[s.copies[c].parent.value])
  }

  lemma EvolvingKeepsLineage(s: State, s': State)
    requires LineageOk(s) && Evolves(s, s')
    ensures LineageOk(s')
  {
  }

  lemma {:induction false} RunKeepsLineage(base: State, run: seq<Label>)
    requires Init(base)
    ensures LineageOk(Exec(base, run))
    decreases |run|
  {
    if run != [] {
      RunKeepsLineage(base, run[..|run| - 1]);
      StepEvolves(Exec(base, run[..|run| - 1]), run[|run| - 1]);
      EvolvingKeepsLineage(Exec(base, run[..|run| - 1]), Exec(base, run));
    }
  }

  /** A published copy, a republished copy of it, and so on. */
  predicate Chain(s: State, path: seq<CopyId>) {
    && path != []
    && (forall i :: 0 <= i < |path| ==> path[i] in s.copies && !s.copies[path[i]].place.Dead?)
    && s.copies[path[0]].parent.None?
    && (forall i :: 0 < i < |path| ==> s.copies[path[i]].parent == Some(path[i - 1]))
  }

  lemma {:induction false} ChainAttempts(s: State, path: seq<CopyId>, i: nat)
    requires Inv(s) && LineageOk(s) && Chain(s, path) && i < |path|
    ensures s.copies[path[i]].first == s.copies[path[0]].first
    ensures s.copies[path[i]].msg.attempt == s.copies[path[0]].first + i
  {
    if i == 0 {
      assert CopyOk(s, s.copies[path[0]]);
    } else {
      ChainAttempts(s, path, i - 1);
      assert Descends(s.copies[path[i]], s.copies[path[i - 1]]);
    }
  }

  /** A message that entered with attempt a is republished at most max(0, maxRetries - a) times in a row,
      whatever crashes. */
  lemma RepublishBound(base: State, run: seq<Label>, path: seq<CopyId>)
    requires Init(base) && Chain(Exec(base, run), path)
    ensures |path| - 1 <= Max(0, base.config.maxRetries - Exec(base, run).copies[path[0]].msg.attempt)
  {
    var s := Exec(base, run);
    RunKeepsInv(base, run);
    RunKeepsLineage(base, run);
    ChainAttempts(s, path, |path| - 1);
    assert CopyOk(s, s.copies[path[|path| - 1]]) && CopyOk(s, s.copies[path[0]]);
  }

  // ---- Ledger and status --------------------------------------------------------------------------------

  /** Every message published about order `o` finds the order there and carries no `simulateFailure`. */
  predicate Plain(base: State, run: seq<Label>, o: OrderId) {
    forall i :: 0 <= i < |run| && run[i].Publish? && run[i].readable && run[i].msg.orderId == o ==>
      run[i].msg.simulateFailure.None? && o in Exec(base, run[..i]).rows
  }

  predicate PlainCopy(s: State, cp: Copy, o: OrderId) {
    cp.readable && cp.msg.orderId == o ==>
      && cp.msg.simulateFailure.None? && o in s.rows
      && (cp.place.Held? && cp.place.h.Applied? ==> cp.place.h.write.Some?)
  }

  predicate AllPlain(s: State, o: OrderId) {
    && (forall c :: c in s.copies ==> PlainCopy(s, s.copies[c], o))
    && (forall i :: 0 <= i < |s.ledger| && s.ledger[i].orderId == o ==> s.ledger[i].write.Some?)
  }

  lemma OldCopyStaysPlain(s: State, l: Label, c: CopyId, o: OrderId)
    requires Inv(s) && c in s.copies && PlainCopy(s, s.copies[c], o) && Enabled(s, l)
    ensures c in Next(s, l).copies && PlainCopy(Next(s, l), Next(s, l).copies[c], o)
  {
    StepKeepsInv(s, l);
    StepKeepsCopies(s, l);
    assert CopyOk(s, s.copies[c]);
  }

  lemma StepKeepsPlain(s: State, l: Label, o: OrderId)
    requires Inv(s) && AllPlain(s, o)
    requires l.Publish? && l.readable && l.msg.orderId == o ==> l.msg.simulateFailure.None? && o in s.rows
    ensures AllPlain(Step(s, l), o)
  {
    if Enabled(s, l) {
      var s' := Next(s, l);
      StepAddsCopies(s, l);
      StepKeepsInv(s, l);
      forall c | c in s'.copies ensures PlainCopy(s', s'.copies[c], o) {
        if c in s.copies {
          OldCopyStaysPlain(s, l, c, o);
        }
      }
      if l.Commit? || l.CommitUnseen? {
        assert PlainCopy(s, s.copies[l.c], o) && CopyOk(s, s.copies[l.c]);
      }
    }
  }

  lemma {:induction false} RunKeepsPlain(s: State, run: seq<Label>, o: OrderId)
    requires Inv(s) && AllPlain(s, o) && Plain(s, run, o)
    ensures AllPlain(Exec(s, run), o)
    decreases |run|
  {
    if run != [] {
      var front := run[..|run| - 1];
      assert forall i :: 0 <= i < |front| ==> front[i] == run[i] && front[..i] == run[..i];
      RunKeepsPlain(s, front, o);
      RunKeepsInv(s, front);
      StepKeepsPlain(Exec(s, front), run[|run| - 1], o);
    }
  }

  predicate LedgerNames(ledger: seq<Entry>, o: OrderId) {
    exists i :: 0 <= i < |ledger| && ledger[i].orderId == o
  }

  /** If the order exists, it is processed exactly when the ledger names it. */
  predicate Agree(s: State, o: OrderId) {
    o in s.rows ==> (s.rows[o].status == PROCESSED <==> LedgerNames(s.ledger, o))
  }

  lemma PlainAgrees(s: State, o: OrderId)
    requires RowsOk(s) && AllPlain(s, o)
    ensures Agree(s, o)
  {
    NoWriteWithoutEntry(s.ledger, o);
    if i :| 0 <= i < |s.ledger| && s.ledger[i].orderId == o {
      assert s.ledger[i].write.Some?;
    }
  }

  /** Ledger and status agree about an order in every run whose messages about it find it there and carry no
      `simulateFailure`. Messages about other orders do not matter. */
  lemma LedgerAndStatusAgree(base: State, run: seq<Label>, o: OrderId)
    requires Init(base) && Plain(base, run, o)
    ensures Agree(Exec(base, run), o)
  {
    RunKeepsRows(base, run);
    RunKeepsPlain(base, run, o);
    PlainAgrees(Exec(base, run), o);
  }

  /** They agree now and, as long as the messages about the order are plain, for ever. */
  ghost predicate AlwaysAgree(s: State, o: OrderId) {
    forall more :: Plain(s, more, o) ==> Agree(Exec(s, more), o)
  }

  /** `c` carries a new message that overtakes its order. */
  predicate Overtaking(s: State, c: CopyId) {
    && c in s.copies && s.copies[c].readable && s.copies[c].msg.simulateFailure.None?
    && s.copies[c].msg.orderId !in s.rows && !InLedger(s.ledger, s.copies[c].msg.mid)
    && (forall d :: d in s.copies && d != c ==> s.copies[d].msg.mid != s.copies[c].msg.mid)
  }

  lemma NobodyLocks(s: State, c: CopyId, p: Place)
    requires Inv(s) && c in s.copies && s.copies[c].msg.orderId !in s.rows
    ensures !RowLockedByOther(Put(s, c, p), c, s.copies[c].msg.orderId)
  {
    forall d | d in s.copies && d != c ensures !LocksRow(s.copies[d], s.copies[c].msg.orderId) {
      assert CopyOk(s, s.copies[d]);
    }
  }

  lemma PutPut(s: State, c: CopyId, p: Place, q: Place)
    requires c in s.copies
    ensures Put(Put(s, c, p), c, q) == Put(s, c, q)
  {
    assert s.copies[c := s.copies[c].(place := p)][c := s.copies[c].(place := q)]
        == s.copies[c := s.copies[c].(place := q)];
  }

  lemma OvertakingIsInserted(s: State, c: CopyId, w: WorkerId)
    requires Overtaking(s, c)
    ensures Step(Put(s, c, Held(w, Received)), Insert(c)) == Put(s, c, Held(w, Inserted))
  {
    PutPut(s, c, Held(w, Received), Held(w, Inserted));
  }

  /** The update finds no row. */
  lemma OvertakingUpdatesNothing(s: State, c: CopyId, w: WorkerId)
    requires Inv(s) && Overtaking(s, c)
    ensures Step(Put(s, c, Held(w, Inserted)), Update(c, 0)) == Put(s, c, Held(w, Applied(None)))
  {
    NobodyLocks(s, c, Held(w, Inserted));
    PutPut(s, c, Held(w, Inserted), Held(w, Applied(None)));
  }

  lemma OvertakingCommits(s: State, c: CopyId, w: WorkerId)
    requires Overtaking(s, c)
    ensures var s' := Step(Put(s, c, Held(w, Applied(None))), Commit(c));
            s'.rows == s.rows && LedgerNames(s'.ledger, s.copies[c].msg.orderId)
  {
    var s' := Step(Put(s, c, Held(w, Applied(None))), Commit(c));
    assert s'.ledger[|s.ledger|].orderId == s.copies[c].msg.orderId;
  }

  /** A process that has nothing to do takes the message and records it. */
  lemma OvertakingIsRecorded(s: State, c: CopyId) returns (run: seq<Label>)
    requires Inv(s) && Overtaking(s, c) && s.copies[c].place.Ready?
    ensures forall i :: 0 <= i < |run| ==> !run[i].Publish?
    ensures Exec(s, run).rows == s.rows && LedgerNames(Exec(s, run).ledger, s.copies[c].msg.orderId)
  {
    var w := IdleWorker(s);
    assert HeldBy(s, w) == {};
    assert Step(s, Deliver(c, w)) == Put(s, c, Held(w, Received));
    OvertakingIsInserted(s, c, w);
    OvertakingUpdatesNothing(s, c, w);
    OvertakingCommits(s, c, w);
    run := [] + [Deliver(c, w)] + [Insert(c)] + [Update(c, 0)] + [Commit(c)];
    FourSteps(s, Deliver(c, w), Insert(c), Update(c, 0), Commit(c));
  }

  lemma IdleWorker(s: State) returns (w: WorkerId)
    ensures forall c :: c in s.copies && s.copies[c].place.Held? ==> s.copies[c].place.w != w
  {
    var busy := set c | c in s.copies && s.copies[c].place.Held? :: s.copies[c].place.w;
    w := UnusedId(busy);
    assert forall c :: c in s.copies && s.copies[c].place.Held? ==> s.copies[c].place.w in busy;
  }

  lemma FourSteps(s: State, a: Label, b: Label, c: Label, d: Label)
    ensures Exec(s, [] + [a] + [b] + [c] + [d]) == Step(Step(Step(Step(s, a), b), c), d)
  {
    ExecSnoc(s, [], a);
    ExecSnoc(s, [] + [a], b);
    ExecSnoc(s, [] + [a] + [b], c);
    ExecSnoc(s, [] + [a] + [b] + [c], d);
  }

  predicate Stopping(s: State, c: CopyId) {
    && c in s.copies && s.copies[c].readable && Stops(s.copies[c].msg) && !InLedger(s.ledger, s.copies[c].msg.mid)
    && forall d :: d in s.copies && d != c ==> s.copies[d].msg.mid != s.copies[c].msg.mid
  }

  lemma StoppingIsApplied(s: State, c: CopyId, w: WorkerId)
    requires Stopping(s, c)
    ensures Step(Put(s, c, Held(w, Received)), Insert(c)) == Put(s, c, Held(w, Inserted))
    ensures Step(Put(s, c, Held(w, Inserted)), Skip(c)) == Put(s, c, Held(w, Applied(None)))
  {
    PutPut(s, c, Held(w, Received), Held(w, Inserted));
    PutPut(s, c, Held(w, Inserted), Held(w, Applied(None)));
  }

  /** What recording a message without an update leaves. */
  predicate RecordedOnly(s: State, s': State, c: CopyId, p: Place)
    requires c in s.copies
  {
    && s'.rows == s.rows && s'.config == s.config && InLedger(s'.ledger, s.copies[c].msg.mid)
    && s'.copies == s.copies[c := s.copies[c].(place := p)]
  }

  lemma StoppingCommits(s: State, c: CopyId, w: WorkerId)
    requires c in s.copies
    ensures RecordedOnly(s, Step(Put(s, c, Held(w, Applied(None))), Commit(c)), c, Held(w, Done))
  {
    var s' := Step(Put(s, c, Held(w, Applied(None))), Commit(c));
    assert s'.ledger[|s.ledger|].mid == s.copies[c].msg.mid;
    PutPut(s, c, Held(w, Applied(None)), Held(w, Done));
  }

  lemma DoneIsAcked(s: State, s': State, c: CopyId, w: WorkerId)
    requires c in s.copies && RecordedOnly(s, s', c, Held(w, Done))
    ensures RecordedOnly(s, Step(s', Ack(c)), c, Gone(Processed))
  {
  }

  /** A new message that stops without touching its order is recorded by a process that has nothing to do. */
  lemma StoppingIsRecorded(s: State, c: CopyId) returns (run: seq<Label>)
    requires Stopping(s, c) && s.copies[c].place.Ready?
    ensures forall i :: 0 <= i < |run| ==> !run[i].CreateOrder?
    ensures RecordedOnly(s, Exec(s, run), c, Gone(Processed))
  {
    var w := IdleWorker(s);
    assert HeldBy(s, w) == {};
    assert Step(s, Deliver(c, w)) == Put(s, c, Held(w, Received));
    StoppingIsApplied(s, c, w);
    StoppingCommits(s, c, w);
    DoneIsAcked(s, Step(Put(s, c, Held(w, Applied(None))), Commit(c)), c, w);
    var four := [] + [Deliver(c, w)] + [Insert(c)] + [Skip(c)] + [Commit(c)];
    FourSteps(s, Deliver(c, w), Insert(c), Skip(c), Commit(c));
    ExecSnoc(s, four, Ack(c));
    run := four + [Ack(c)];
  }

  lemma KnownSteps(s: State, c: CopyId, w: WorkerId)
    requires c in s.copies && s.copies[c].readable && InLedger(s.ledger, s.copies[c].msg.mid)
    ensures Step(Put(s, c, Held(w, Received)), Dedup(c)) == Put(s, c, Held(w, Duplicated))
    ensures Step(Put(s, c, Held(w, Duplicated)), Ack(c)) == Put(s, c, Gone(Deduped))
  {
    PutPut(s, c, Held(w, Received), Held(w, Duplicated));
    PutPut(s, c, Held(w, Duplicated), Gone(Deduped));
  }

  lemma ThreeSteps(s: State, a: Label, b: Label, c: Label)
    ensures Exec(s, [] + [a] + [b] + [c]) == Step(Step(Step(s, a), b), c)
  {
    ExecSnoc(s, [], a);
    ExecSnoc(s, [] + [a], b);
    ExecSnoc(s, [] + [a] + [b], c);
  }

  /** A message that is in the ledger is dropped at its next delivery. */
  lemma KnownIsDropped(s: State, c: CopyId) returns (run: seq<Label>)
    requires c in s.copies && s.copies[c].place.Ready? && s.copies[c].readable
    requires InLedger(s.ledger, s.copies[c].msg.mid)
    ensures forall i :: 0 <= i < |run| ==> !run[i].CreateOrder?
    ensures Exec(s, run) == Put(s, c, Gone(Deduped))
  {
    var w := IdleWorker(s);
    assert HeldBy(s, w) == {};
    assert Step(s, Deliver(c, w)) == Put(s, c, Held(w, Received));
    KnownSteps(s, c, w);
    run := [] + [Deliver(c, w)] + [Dedup(c)] + [Ack(c)];
    ThreeSteps(s, Deliver(c, w), Dedup(c), Ack(c));
  }

  /** The ledger then names the order, which is created after all and stays `created`. */
  lemma OvertakingBreaksAgreement(s: State, c: CopyId)
    requires Inv(s) && Overtaking(s, c) && s.copies[c].place.Ready?
    ensures !AlwaysAgree(s, s.copies[c].msg.orderId)
  {
    var o := s.copies[c].msg.orderId;
    var run := OvertakingIsRecorded(s, c);
    var more := run + [CreateOrder(o)];
    ExecSnoc(s, run, CreateOrder(o));
    assert Exec(s, more).rows[o] == Row(CREATED, None);
    assert Plain(s, more, o) && !Agree(Exec(s, more), o);
  }

  lemma PublishedIsPlain(s: State, l: Label, o: OrderId)
    requires Inv(s) && RowsOk(s) && AllPlain(s, o) && l.Publish? && Enabled(s, l)
    requires l.readable && l.msg.orderId == o ==> l.msg.simulateFailure.None? && o in s.rows
    ensures AlwaysAgree(Next(s, l), o)
  {
    var s' := Next(s, l);
    StepKeepsInv(s, l);
    StepKeepsRows(s, l);
    StepKeepsPlain(s, l, o);
    forall more | Plain(s', more, o) ensures Agree(Exec(s', more), o) {
      RunKeepsRowsFrom(s', more);
      RunKeepsPlain(s', more, o);
      PlainAgrees(Exec(s', more), o);
    }
  }

  lemma NewIdIsNotInLedger(s: State, mid: MessageId)
    requires RowsOk(s) && forall d :: d in s.copies ==> s.copies[d].msg.mid != mid
    ensures !InLedger(s.ledger, mid)
  {
    forall i | 0 <= i < |s.ledger| ensures s.ledger[i].mid != mid {
      assert HasSource(s, s.ledger[i]);
    }
  }

  /** The exact condition: after any run whose messages about its order are plain, a message that is new and carries
      no `simulateFailure` leaves ledger and status in agreement for ever exactly if its order exists when it is
      published (or its body cannot be parsed, and it is never processed). Otherwise a worker may record it before the
      order is there; the order then stays `created`, and the ledger blocks every later delivery of that message id. */
  lemma AgreementExactly(base: State, run: seq<Label>, c: CopyId, m: Msg, readable: bool)
    requires Init(base) && Plain(base, run, m.orderId) && c !in Exec(base, run).copies
    requires m.simulateFailure.None?
    requires forall d :: d in Exec(base, run).copies ==> Exec(base, run).copies[d].msg.mid != m.mid
    ensures AlwaysAgree(Next(Exec(base, run), Publish(c, m, readable)), m.orderId)
       <==> (readable ==> m.orderId in Exec(base, run).rows)
  {
    var s, l := Exec(base, run), Publish(c, m, readable);
    RunKeepsRows(base, run);
    RunKeepsPlain(base, run, m.orderId);
    if readable ==> m.orderId in s.rows {
      PublishedIsPlain(s, l, m.orderId);
    } else {
      NewIdIsNotInLedger(s, m.mid);
      StepKeepsInv(s, l);
      OvertakingBreaksAgreement(Next(s, l), c);
    }
  }
}
