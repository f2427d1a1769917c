/** Every delivery is settled at most once, and no process holds more of them than the prefetch limit allows. */
module Settlement {
  import opened WorkerProtocol

  /** Deliveries of a copy, its acks and rejects, and the deliveries a crash took back. */
  datatype Tally = Tally(delivered: nat, acked: nat, rejected: nat, lost: nat)

  function Settle(s: State, l: Label, c: CopyId, t: Tally): Tally {
    if !Enabled(s, l) then t
    else
      match l
      case Deliver(d, _) => if d == c then t.(delivered := t.delivered + 1) else t
      case Ack(d) => if d == c then t.(acked := t.acked + 1) else t
      case RejectBody(d) => if d == c then t.(rejected := t.rejected + 1) else t
      case SendError(d) => if d == c then t.(rejected := t.rejected + 1) else t
      case Crash(w) =>
        if c in s.copies && s.copies[c].place.Held? && s.copies[c].place.w == w then t.(lost := t.lost + 1) else t
      case _ => t
  }

  function TallyOf(base: State, run: seq<Label>, c: CopyId): Tally
    decreases |run|
  {
    if run == [] then Tally(0, 0, 0, 0)
    else Settle(Exec(base, run[..|run| - 1]), run[|run| - 1], c, TallyOf(base, run[..|run| - 1], c))
  }

  function Open(s: State, c: CopyId): nat {
    if c in s.copies && s.copies[c].place.Held? then 1 else 0
  }

  function Over(s: State, c: CopyId): nat {
    if c in s.copies && s.copies[c].place.Gone? then 1 else 0
  }

  lemma StepSettles(s: State, l: Label, c: CopyId, t: Tally)
    requires t.delivered == t.acked + t.rejected + t.lost + Open(s, c) && t.acked == Over(s, c)
    ensures var t' := Settle(s, l, c, t);
            t'.delivered == t'.acked + t'.rejected + t'.lost + Open(Step(s, l), c) && t'.acked == Over(Step(s, l), c)
  {
  }

  /** Deliveries = acks + rejects + deliveries lost to a crash + the one whose handler is running or whose timer
      is pending; and a copy is acknowledged at most once, ever. */
  lemma {:induction false} SettledOnce(base: State, run: seq<Label>, c: CopyId)
    requires Init(base)
    ensures var t, s := TallyOf(base, run, c), Exec(base, run);
            && t.delivered == t.acked + t.rejected + t.lost + Open(s, c)
            && t.acked == Over(s, c) <= 1
    decreases |run|
  {
    if run != [] {
      SettledOnce(base, run[..|run| - 1], c);
      StepSettles(Exec(base, run[..|run| - 1]), run[|run| - 1], c, TallyOf(base, run[..|run| - 1], c));
    }
  }

  // ---- The prefetch limit -----------------------------------------------------------------------------------

  lemma OnlyDeliveryAdds(s: State, l: Label, w: WorkerId)
    requires Enabled(s, l)
    ensures HeldBy(Next(s, l), w) <= HeldBy(s, w) + if l.Deliver? && l.w == w then {l.c} else {}
    ensures Next(s, l).config == s.config
  {
  }

  lemma SmallerSet(a: set<CopyId>, b: set<CopyId>)
    requires a <= b
    ensures |a| <= |b|
  {
    assert b == a + (b - a);
  }

  /** `channel.prefetch`: no process ever has more unacknowledged deliveries than the limit, if there is one. */
  lemma {:induction false} PrefetchHolds(base: State, run: seq<Label>, w: WorkerId)
    requires Init(base)
    ensures Exec(base, run).config == base.config
    ensures base.config.prefetch == 0 || |HeldBy(Exec(base, run), w)| <= base.config.prefetch
    decreases |run|
  {
    if run == [] {
      assert HeldBy(base, w) == {};
    } else {
      var s, l := Exec(base, run[..|run| - 1]), run[|run| - 1];
      PrefetchHolds(base, run[..|run| - 1], w);
      if Enabled(s, l) {
        OnlyDeliveryAdds(s, l, w);
        SmallerSet(HeldBy(Next(s, l), w), HeldBy(s, w) + if l.Deliver? && l.w == w then {l.c} else {});
      }
    }
  }
}
