/** Order processing comes to rest: a measure that every step of a handler lowers, and a step for every state
    that is not at rest. */
module WorkerTermination {
  import opened Domain
  import opened WorkerProtocol
  import opened WorkerInvariant
  import opened WorkerSafety

  /** What a copy can still cause: ten per retry left, plus its distance to the end of the current attempt. */
  function Weight(config: Config, cp: Copy): nat {
    var retries := 10 * Max(0, config.maxRetries - cp.msg.attempt);
    match cp.place
    case Dead => 0
    case Gone(_) => 0
    case Ready => retries + 9
    case Held(_, h) =>
      match h
      case Received => retries + 8
      case Inserted => retries + 7
      case Applied(_) => retries + 6
      case Duplicated => retries + 6
      case Failing => retries + 5
      case Timer => retries + 4
      case Done => 1
      case Sent => 1
  }

  function Weights(config: Config, copies: map<CopyId, Copy>): map<nat, nat> {
    map c | c in copies :: Weight(config, copies[c])
  }

  ghost function Total(config: Config, copies: map<CopyId, Copy>): nat {
    Sum(Weights(config, copies))
  }

  lemma TotalPut(config: Config, copies: map<CopyId, Copy>, c: CopyId, cp: Copy)
    ensures Total(config, copies[c := cp])
         == Total(config, copies) + Weight(config, cp) - (if c in copies then Weight(config, copies[c]) else 0)
  {
    assert Weights(config, copies[c := cp]) == Weights(config, copies)[c := Weight(config, cp)];
    SumPut(Weights(config, copies), c, Weight(config, cp));
  }

  /** No message arrives from outside, nothing crashes, no send throws and every body parses. Processing may
      fail at any point. */
  predicate Calm(l: Label) {
    !l.Publish? && !l.Crash? && !l.SendError? && !l.RejectBody?
  }

  /** An error of the database, not one that the message asks for. */
  predicate Faulty(l: Label) {
    l.DbError? || l.UseAborted?
  }

  predicate Works(s: State, l: Label) {
    Calm(l) && !l.CreateOrder? && Enabled(s, l)
  }

  lemma TotalReplace(config: Config, copies: map<CopyId, Copy>, c: CopyId, sent: Copy, d: CopyId, child: Copy)
    requires c in copies && d !in copies
    requires Weight(config, sent) + Weight(config, child) < Weight(config, copies[c])
    ensures Total(config, copies[c := sent][d := child]) < Total(config, copies)
  {
    TotalPut(config, copies, c, sent);
    TotalPut(config, copies[c := sent], d, child);
  }

  lemma SendLowersWeight(s: State, l: Label)
    requires Inv(s) && (l.Retry? || l.DeadLetter?) && Enabled(s, l)
    ensures Total(s.config, Next(s, l).copies) < Total(s.config, s.copies)
  {
    var sent, child := Next(s, l).copies[l.c], Next(s, l).copies[l.child];
    assert CopyOk(s, s.copies[l.c]);
    assert Next(s, l).copies == s.copies[l.c := sent][l.child := child];
    TotalReplace(s.config, s.copies, l.c, sent, l.child, child);
  }

  lemma MoveLowersWeight(s: State, l: Label)
    requires Works(s, l) && !l.Retry? && !l.DeadLetter?
    ensures l.c in s.copies && Next(s, l).copies == s.copies[l.c := Next(s, l).copies[l.c]]
    ensures Weight(s.config, Next(s, l).copies[l.c]) < Weight(s.config, s.copies[l.c])
  {
  }

  lemma WorkLowersWeight(s: State, l: Label)
    requires Inv(s) && Works(s, l)
    ensures Total(s.config, Next(s, l).copies) < Total(s.config, s.copies)
  {
    if l.Retry? || l.DeadLetter? {
      SendLowersWeight(s, l);
    } else {
      MoveLowersWeight(s, l);
      TotalPut(s.config, s.copies, l.c, Next(s, l).copies[l.c]);
    }
  }

  /** How many steps of a run were steps of a handler or of the broker. */
  function StepsTaken(s: State, run: seq<Label>): nat
    decreases |run|
  {
    if run == [] then 0
    else StepsTaken(s, run[..|run| - 1]) + if Works(Exec(s, run[..|run| - 1]), run[|run| - 1]) then 1 else 0
  }

  lemma CalmStep(s: State, l: Label)
    requires Inv(s) && Calm(l)
    ensures Step(s, l).config == s.config
    ensures Total(s.config, Step(s, l).copies) + (if Works(s, l) then 1 else 0) <= Total(s.config, s.copies)
  {
    if Works(s, l) {
      WorkLowersWeight(s, l);
    }
  }

  /** Every schedule is finite: from any state, a calm run takes at most as many steps as the state weighs. */
  lemma {:induction false} CalmRunsAreFinite(s: State, run: seq<Label>)
    requires Inv(s) && forall i :: 0 <= i < |run| ==> Calm(run[i])
    ensures Exec(s, run).config == s.config
    ensures StepsTaken(s, run) + Total(s.config, Exec(s, run).copies) <= Total(s.config, s.copies)
    decreases |run|
  {
    if run != [] {
      var front := run[..|run| - 1];
      CalmRunsAreFinite(s, front);
      RunKeepsInv(s, front);
      CalmStep(Exec(s, front), run[|run| - 1]);
    }
  }

  // ---- No state is stuck ----------------------------------------------------------------------------------

  predicate AllReadable(s: State) {
    forall c :: c in s.copies ==> s.copies[c].readable
  }

  predicate InFlight(cp: Copy) {
    cp.place.Ready? || cp.place.Held?
  }

  /** The main queue is empty and nothing is unacknowledged. */
  predicate AtRest(s: State) {
    forall c :: c in s.copies ==> !InFlight(s.copies[c])
  }

  /** A handler with the dedup row inserted can go on, or waits for one that can commit. */
  lemma InsertedGoesOn(s: State, c: CopyId) returns (l: Label)
    requires c in s.copies && At(s.copies[c], Inserted)
    ensures Works(s, l) && !Faulty(l)
  {
    var m := s.copies[c].msg;
    if Fails(m) {
      l := Throw(c);
    } else if Stops(m) {
      l := Skip(c);
    } else if RowLockedByOther(s, c, m.orderId) {
      var d :| d in s.copies && d != c && LocksRow(s.copies[d], m.orderId);
      l := Commit(d);
    } else {
      l := Update(c, 0);
    }
  }

  lemma ReceivedGoesOn(s: State, c: CopyId) returns (l: Label)
    requires c in s.copies && At(s.copies[c], Received) && s.copies[c].readable
    ensures Works(s, l) && !Faulty(l)
  {
    var mid := s.copies[c].msg.mid;
    if InLedger(s.ledger, mid) {
      l := Dedup(c);
    } else if EntryHeldByOther(s, c, mid) {
      var d :| d in s.copies && d != c && HoldsEntry(s.copies[d]) && s.copies[d].msg.mid == mid;
      if s.copies[d].place.h.Applied? {
        l := Commit(d);
      } else {
        l := InsertedGoesOn(s, d);
      }
    } else {
      l := Insert(c);
    }
  }

  /** What a copy's own handler or timer does next, at the start of a turn. */
  lemma TurnGoesOn(s: State, c: CopyId) returns (l: Label)
    requires Inv(s) && c in s.copies && s.copies[c].place.Held? && s.copies[c].readable
    requires TurnFree(s, s.copies[c].place.w)
    ensures Works(s, l) && !Faulty(l)
  {
    var child := UnusedId(s.copies.Keys);
    var h := s.copies[c].place.h;
    if h.Received? {
      l := ReceivedGoesOn(s, c);
    } else if h.Inserted? {
      l := InsertedGoesOn(s, c);
    } else if h.Applied? {
      l := Commit(c);
    } else if h.Failing? {
      l := if s.copies[c].msg.attempt < s.config.maxRetries then Schedule(c) else DeadLetter(c, child);
    } else {
      l := if h.Timer? then Retry(c, child) else Ack(c);
    }
  }

  lemma HeldGoesOn(s: State, c: CopyId) returns (l: Label)
    requires Inv(s) && c in s.copies && s.copies[c].place.Held? && s.copies[c].readable
    ensures Works(s, l) && !Faulty(l)
  {
    if TurnFree(s, s.copies[c].place.w) {
      l := TurnGoesOn(s, c);
    } else {
      var d :| d in s.copies && s.copies[d].place == Held(s.copies[c].place.w, Sent);
      l := Ack(d);
    }
  }

  /** As long as a copy is ready or unacknowledged, some step other than a failure is possible: the handlers
      never deadlock, and the prefetch limit never blocks for good. */
  lemma NeverStuck(s: State) returns (l: Label)
    requires Inv(s) && AllReadable(s) && !AtRest(s)
    ensures Works(s, l) && !Faulty(l)
  {
    if c :| c in s.copies && s.copies[c].place.Held? {
      l := HeldGoesOn(s, c);
    } else {
      var c :| c in s.copies && InFlight(s.copies[c]);
      assert HeldBy(s, 0) == {};
      l := Deliver(c, 0);
    }
  }

  predicate DeadLettered(s: State, mid: MessageId) {
    exists d :: d in s.copies && s.copies[d].place.Dead? && s.copies[d].msg.mid == mid
  }

  /** No copy of this message is ready or unacknowledged. */
  predicate Settled(s: State, mid: MessageId) {
    forall c :: c in s.copies && s.copies[c].msg.mid == mid ==> !InFlight(s.copies[c])
  }

  lemma RestSettles(s: State, mid: MessageId)
    requires Settled(s, mid) && Safe(s, mid)
    ensures InLedger(s.ledger, mid) || DeadLettered(s, mid)
  {
  }

  /** Where a schedule that cannot go on has ended: the queue is empty, and every message is in the ledger or in
      the dead-letter queue. */
  lemma StoppedMeansSettled(base: State, run: seq<Label>)
    requires Init(base) && AllReadable(Exec(base, run))
    requires forall l :: Works(Exec(base, run), l) ==> Faulty(l)
    ensures var s := Exec(base, run);
            && AtRest(s)
            && (forall c :: c in s.copies ==>
                  InLedger(s.ledger, s.copies[c].msg.mid) || DeadLettered(s, s.copies[c].msg.mid))
  {
    var s := Exec(base, run);
    RunKeepsInv(base, run);
    NoMessageLost(base, run);
    if !AtRest(s) {
      var l := NeverStuck(s);
      assert false;
    }
    forall c | c in s.copies ensures InLedger(s.ledger, s.copies[c].msg.mid) || DeadLettered(s, s.copies[c].msg.mid) {
      RestSettles(s, s.copies[c].msg.mid);
    }
  }

  lemma CalmKeepsReadable(s: State, l: Label)
    requires AllReadable(s) && Calm(l)
    ensures AllReadable(Step(s, l))
  {
  }

  /** From every reachable state such an end can be reached without any failure of the database. */
  lemma {:induction false} CanComeToRest(s: State) returns (run: seq<Label>)
    requires Inv(s) && AllReadable(s)
    ensures AtRest(Exec(s, run)) && forall i :: 0 <= i < |run| ==> Calm(run[i]) && !Faulty(run[i])
    decreases Total(s.config, s.copies)
  {
    run := [];
    if !AtRest(s) {
      var l := NeverStuck(s);
      CalmStep(s, l);
      StepKeepsInv(s, l);
      CalmKeepsReadable(s, l);
      var rest := CanComeToRest(Step(s, l));
      run := [l] + rest;
      ExecCons(s, l, rest);
    }
  }

  lemma {:induction false} ExecCons(s: State, l: Label, run: seq<Label>)
    ensures Exec(s, [l] + run) == Exec(Step(s, l), run)
    decreases |run|
  {
    if run == [] {
      assert [l] + run == [] + [l];
      ExecSnoc(s, [], l);
    } else {
      var front := run[..|run| - 1];
      ExecCons(s, l, front);
      assert [l] + run == ([l] + front) + [run[|run| - 1]];
      ExecSnoc(s, [l] + front, run[|run| - 1]);
    }
  }
}
