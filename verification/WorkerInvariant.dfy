/** What every step of the worker machine keeps. */
module WorkerInvariant {
  import opened WorkerProtocol

  function Max(a: int, b: int): int {
    if a < b then b else a
  }

  /** The states in which the copy's message is known to be in the ledger. */
  predicate KnowsLedger(p: Place) {
    || (p.Held? && (p.h.Duplicated? || p.h.Done?))
    || (p.Gone? && !p.how.Superseded?)
  }

  predicate CopyOk(s: State, cp: Copy) {
    && cp.first <= cp.msg.attempt <= Max(cp.first, s.config.maxRetries)
    && (cp.parent.None? ==> cp.msg.attempt == cp.first)
    && (At(cp, Timer) ==> cp.msg.attempt < s.config.maxRetries)
    && (cp.place.Dead? ==> cp.msg.attempt == Max(cp.first, s.config.maxRetries))
    && (!cp.readable ==> cp.place.Ready? || At(cp, Received))
    && (HoldsEntry(cp) ==> !InLedger(s.ledger, cp.msg.mid))
    && (KnowsLedger(cp.place) ==> InLedger(s.ledger, cp.msg.mid))
    && (LocksRow(cp, cp.msg.orderId) ==> cp.msg.orderId in s.rows && cp.msg.simulateFailure.None?)
  }

  predicate PairOk(a: Copy, b: Copy) {
    && (HoldsEntry(a) && HoldsEntry(b) ==> a.msg.mid != b.msg.mid)
    && (LocksRow(a, a.msg.orderId) && LocksRow(b, b.msg.orderId) ==> a.msg.orderId != b.msg.orderId)
    && (At(a, Sent) && At(b, Sent) ==> a.place.w != b.place.w)
  }

  /** A dedup row is unique per message. */
  predicate LedgerOk(ledger: seq<Entry>) {
    forall i, j :: 0 <= i < j < |ledger| ==> ledger[i].mid != ledger[j].mid
  }

  predicate Inv(s: State) {
    && LedgerOk(s.ledger)
    && (forall c :: c in s.copies ==> CopyOk(s, s.copies[c]))
    && (forall c, d :: c in s.copies && d in s.copies && c != d ==> PairOk(s.copies[c], s.copies[d]))
  }

  /** One copy changes place, or a new one appears; the ledger and the rows only grow. */
  lemma OneCopyChanges(s: State, s': State, c: CopyId, cp: Copy)
    requires Inv(s) && s'.config == s.config && s'.ledger == s.ledger && s'.rows == s.rows
    requires s'.copies == s.copies[c := cp]
    requires CopyOk(s, cp)
    requires forall d :: d in s.copies && d != c ==> PairOk(cp, s.copies[d])
    ensures Inv(s')
  {
  }

  predicate Moves(l: Label) {
    || l.Deliver? || l.RejectBody? || l.Insert? || l.Dedup? || l.Update? || l.Skip? || l.Throw?
    || l.DbError? || l.UseAborted?
    || l.Ack? || l.Schedule? || l.SendError?
  }

  /** Most labels give one copy a new place. */
  lemma MovesOneCopy(s: State, l: Label)
    requires (Moves(l) || l.Commit? || l.CommitUnseen?) && Enabled(s, l)
    ensures l.c in s.copies && l.c in Next(s, l).copies
    ensures Next(s, l).copies == s.copies[l.c := s.copies[l.c].(place := Next(s, l).copies[l.c].place)]
    ensures !s.copies[l.c].place.Dead? && !Next(s, l).copies[l.c].place.Dead?
  {
  }

  lemma MovedCopyOk(s: State, l: Label)
    requires Inv(s) && Moves(l) && Enabled(s, l)
    ensures Next(s, l) == s.(copies := s.copies[l.c := Next(s, l).copies[l.c]])
    ensures CopyOk(s, Next(s, l).copies[l.c])
  {
    MovesOneCopy(s, l);
    assert CopyOk(s, s.copies[l.c]);
  }

  lemma MovedPairOk(s: State, l: Label, d: CopyId)
    requires Inv(s) && Moves(l) && Enabled(s, l) && d in s.copies && d != l.c
    ensures PairOk(Next(s, l).copies[l.c], s.copies[d])
  {
    assert PairOk(s.copies[l.c], s.copies[d]);
  }

  lemma MoveKeepsInv(s: State, l: Label)
    requires Inv(s) && Moves(l) && Enabled(s, l)
    ensures Inv(Next(s, l))
  {
    var cp := Next(s, l).copies[l.c];
    MovedCopyOk(s, l);
    forall d | d in s.copies && d != l.c ensures PairOk(cp, s.copies[d]) {
      MovedPairOk(s, l, d);
    }
    OneCopyChanges(s, Next(s, l), l.c, cp);
  }

  lemma PublishKeepsInv(s: State, l: Label)
    requires Inv(s) && l.Publish? && Enabled(s, l)
    ensures Inv(Next(s, l))
  {
  }

  lemma SendKeepsInv(s: State, l: Label)
    requires Inv(s) && (l.Retry? || l.DeadLetter?) && Enabled(s, l)
    ensures Inv(Next(s, l))
  {
    var s1, s2 := Move(s, l.c, Sent), Next(s, l);
    assert CopyOk(s, s.copies[l.c]);
    forall d | d in s.copies && d != l.c ensures PairOk(s1.copies[l.c], s.copies[d]) {
      assert PairOk(s.copies[l.c], s.copies[d]);
      assert s.copies[d].place != Held(s.copies[l.c].place.w, Sent);
    }
    OneCopyChanges(s, s1, l.c, s1.copies[l.c]);
    OneCopyChanges(s1, s2, l.child, s2.copies[l.child]);
  }

  lemma CommitKeepsInv(s: State, l: Label)
    requires Inv(s) && (l.Commit? || l.CommitUnseen?) && Enabled(s, l)
    ensures Inv(Next(s, l))
  {
    var s', c := Next(s, l), l.c;
    var e := s'.ledger[|s.ledger|];
    assert CopyOk(s, s.copies[c]);
    assert forall i :: 0 <= i < |s.ledger| ==> s'.ledger[i] == s.ledger[i];
    assert InLedger(s'.ledger, e.mid);
    forall d | d in s'.copies ensures CopyOk(s', s'.copies[d]) {
      assert CopyOk(s, s.copies[d]);
      if d != c {
        assert PairOk(s.copies[c], s.copies[d]);
        LedgerGrows(s.ledger, e, s.copies[d].msg.mid);
      }
    }
    forall d, f | d in s'.copies && f in s'.copies && d != f ensures PairOk(s'.copies[d], s'.copies[f]) {
      assert PairOk(s.copies[d], s.copies[f]);
    }
  }

  lemma LedgerGrows(ledger: seq<Entry>, e: Entry, mid: MessageId)
    ensures InLedger(ledger + [e], mid) <==> InLedger(ledger, mid) || mid == e.mid
  {
    if InLedger(ledger, mid) {
      var i :| 0 <= i < |ledger| && ledger[i].mid == mid;
      assert (ledger + [e])[i].mid == mid;
    }
    if mid == e.mid {
      assert (ledger + [e])[|ledger|].mid == mid;
    }
  }

  lemma CrashKeepsInv(s: State, w: WorkerId)
    requires Inv(s)
    ensures Inv(Next(s, Crash(w)))
  {
    var s' := Next(s, Crash(w));
    forall c | c in s'.copies ensures CopyOk(s', s'.copies[c]) {
      assert CopyOk(s, s.copies[c]);
    }
    forall c, d | c in s'.copies && d in s'.copies && c != d ensures PairOk(s'.copies[c], s'.copies[d]) {
      assert PairOk(s.copies[c], s.copies[d]);
    }
  }

  lemma CreateKeepsInv(s: State, l: Label)
    requires Inv(s) && l.CreateOrder? && Enabled(s, l)
    ensures Inv(Next(s, l))
  {
  }

  lemma StepKeepsInv(s: State, l: Label)
    requires Inv(s)
    ensures Inv(Step(s, l)) && Step(s, l).config == s.config
    ensures s.ledger <= Step(s, l).ledger && s.rows.Keys <= Step(s, l).rows.Keys
  {
    if Enabled(s, l) {
      if Moves(l) {
        MoveKeepsInv(s, l);
      } else {
        OthersKeepInv(s, l);
      }
    }
  }

  lemma OthersKeepInv(s: State, l: Label)
    requires Inv(s) && !Moves(l) && Enabled(s, l)
    ensures Inv(Next(s, l))
  {
    match l
    case CreateOrder(_) => CreateKeepsInv(s, l);
    case Publish(_, _, _) => PublishKeepsInv(s, l);
    case Commit(_) => CommitKeepsInv(s, l);
    case CommitUnseen(_) => CommitKeepsInv(s, l);
    case Retry(_, _) => SendKeepsInv(s, l);
    case DeadLetter(_, _) => SendKeepsInv(s, l);
    case Crash(w) => CrashKeepsInv(s, w);
  }

  lemma {:induction false} RunKeepsInv(s: State, run: seq<Label>)
    requires Inv(s)
    ensures Inv(Exec(s, run)) && Exec(s, run).config == s.config
    decreases |run|
  {
    if run != [] {
      RunKeepsInv(s, run[..|run| - 1]);
      StepKeepsInv(Exec(s, run[..|run| - 1]), run[|run| - 1]);
    }
  }

  /** A copy of the next state that was not there before: published, or sent by a handler. */
  predicate NewCopy(s: State, cp: Copy) {
    if cp.parent.None? then cp.place.Ready? && cp.first == cp.msg.attempt
    else
      && cp.parent.value in s.copies && cp.readable && !s.copies[cp.parent.value].place.Dead?
      && var par := s.copies[cp.parent.value];
      && cp.first == par.first
      && (if cp.place.Dead? then cp.msg == par.msg && At(par, Failing)
          else cp.place.Ready? && cp.msg == par.msg.(attempt := par.msg.attempt + 1) && At(par, Timer))
  }

  /** Copies are never dropped and only change place; a dead copy stays dead and no copy but a new one dies. */
  predicate Evolves(s: State, s': State) {
    && (forall c :: c in s.copies ==>
          && c in s'.copies && s'.copies[c] == s.copies[c].(place := s'.copies[c].place)
          && (s'.copies[c].place.Dead? <==> s.copies[c].place.Dead?))
    && (forall c :: c in s'.copies && c !in s.copies ==> NewCopy(s, s'.copies[c]))
  }

  lemma StepKeepsCopies(s: State, l: Label)
    ensures forall c :: c in s.copies ==>
              && c in Step(s, l).copies && Step(s, l).copies[c] == s.copies[c].(place := Step(s, l).copies[c].place)
              && (Step(s, l).copies[c].place.Dead? <==> s.copies[c].place.Dead?)
  {
    if Enabled(s, l) && (Moves(l) || l.Commit? || l.CommitUnseen?) {
      MovesOneCopy(s, l);
    }
  }

  lemma StepAddsCopies(s: State, l: Label)
    ensures forall c :: c in Step(s, l).copies && c !in s.copies ==> NewCopy(s, Step(s, l).copies[c])
  {
  }

  lemma StepEvolves(s: State, l: Label)
    ensures Evolves(s, Step(s, l))
  {
    StepKeepsCopies(s, l);
    StepAddsCopies(s, l);
  }

  /** Attempts, whatever crashes: no copy's attempt leaves the range from the attempt its message entered with
      to the retry limit, and a dead-lettered copy sits exactly at the end of that range. */
  lemma AttemptBounds(base: State, run: seq<Label>, c: CopyId)
    requires Init(base) && c in Exec(base, run).copies
    ensures var cp, hi := Exec(base, run).copies[c], Max(Exec(base, run).copies[c].first, base.config.maxRetries);
            && cp.first <= cp.msg.attempt <= hi
            && (cp.place.Dead? ==> cp.msg.attempt == hi)
  {
    RunKeepsInv(base, run);
    assert CopyOk(Exec(base, run), Exec(base, run).copies[c]);
  }
}
