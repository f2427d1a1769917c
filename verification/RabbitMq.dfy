/** The broker and the worker's database as one handler sees them while everything else runs, and the
    `RabbitMqService` through which it sends. */
module RabbitMq {
  import opened WorkerProtocol
  import opened WorkerInvariant

  /** A step of the handler, the timer or the delivery of copy `c`. */
  predicate Touches(l: Label, c: CopyId) {
    !l.CreateOrder? && !l.Crash? && l.c == c
  }

  lemma OthersLeaveCopy(s: State, l: Label, c: CopyId)
    requires c in s.copies && s.copies[c].place.Held? && !Touches(l, c) && l != Crash(s.copies[c].place.w)
    requires Enabled(s, l)
    ensures c in Next(s, l).copies && Next(s, l).copies[c] == s.copies[c]
  {
  }

  lemma OneTurn(s: State, d: CopyId, w: WorkerId)
    requires Inv(s) && d in s.copies && s.copies[d].place == Held(w, Sent)
    ensures TurnFree(Next(s, Ack(d)), w)
  {
  }

  lemma TurnEnds(base: State, trace: seq<Label>, d: CopyId, w: WorkerId)
    requires Init(base) && d in Exec(base, trace).copies && Exec(base, trace).copies[d].place == Held(w, Sent)
    ensures TurnFree(Next(Exec(base, trace), Ack(d)), w)
  {
    RunKeepsInv(base, trace);
    OneTurn(Exec(base, trace), d, w);
  }

  /** The environment is going to crash process `w`. */
  predicate Doomed(schedule: seq<seq<Label>>, w: WorkerId) {
    exists batch :: batch in schedule && Crash(w) in batch
  }

  /** Copies are never dropped, and keep their message and their parent. */
  predicate CopiesStay(s: State, s': State) {
    forall c :: c in s.copies ==> c in s'.copies && s'.copies[c] == s.copies[c].(place := s'.copies[c].place)
  }

  /** The ledger and the order rows only grow. */
  predicate Grown(s: State, s': State) {
    s.ledger <= s'.ledger && s.rows.Keys <= s'.rows.Keys
  }

  lemma StepGrows(s: State, l: Label)
    requires Enabled(s, l)
    ensures Grown(s, Next(s, l))
  {
    if l.Commit? || l.CommitUnseen? {
      assert Next(s, l).ledger[..|s.ledger|] == s.ledger;
    }
  }

  /** A batch of the schedule, as far as process `w` survives it: the steps that are not of the handler of `c`, one
      after the other, up to a crash of `w`. */
  function Interleaved(s: State, batch: seq<Label>, c: CopyId, w: WorkerId): (State, bool)
    decreases |batch|
  {
    if batch == [] then (s, true)
    else
      var (before, alive) := Interleaved(s, batch[..|batch| - 1], c, w);
      var l := batch[|batch| - 1];
      if !alive then (before, false)
      else if l == Crash(w) then (Next(before, l), false)
      else (if Touches(l, c) then before else Step(before, l), true)
  }

  lemma InterleavedSnoc(s: State, batch: seq<Label>, l: Label, c: CopyId, w: WorkerId)
    ensures var (before, alive) := Interleaved(s, batch, c, w);
            Interleaved(s, batch + [l], c, w)
            == if !alive then (before, false)
               else if l == Crash(w) then (Next(before, l), false)
               else (if Touches(l, c) then before else Step(before, l), true)
  {
  }

  lemma {:induction false} DeadStays(s: State, batch: seq<Label>, n: nat, c: CopyId, w: WorkerId)
    requires n <= |batch| && !Interleaved(s, batch[..n], c, w).1
    ensures Interleaved(s, batch, c, w) == Interleaved(s, batch[..n], c, w)
    decreases |batch|
  {
    if n < |batch| {
      assert batch[..|batch| - 1][..n] == batch[..n];
      DeadStays(s, batch[..|batch| - 1], n, c, w);
    } else {
      assert batch[..n] == batch;
    }
  }

  class Cluster {
    const base: State
    /** No statement throws and no acknowledgement of a commit is lost. */
    const reliable: bool
    var s: State
    var schedule: seq<seq<Label>>
    ghost var trace: seq<Label>
    /** How many statements of the handler have thrown. */
    ghost var thrown: nat

    /** The state is the one the steps taken so far lead to. */
    ghost predicate Valid()
      reads this
    {
      Init(base) && s == Exec(base, trace) && (reliable ==> thrown == 0)
    }

    twostate predicate NoneThrown()
      reads this
    {
      thrown == old(thrown)
    }

    /** The handler of copy `c` in process `w` is running and its copy stands at `h`. */
    ghost predicate Running(c: CopyId, w: WorkerId, h: Handling)
      reads this
    {
      Valid() && c in s.copies && s.copies[c].readable && s.copies[c].place == Held(w, h)
    }

    /** Nothing fails, nobody else moves, and nobody holds a row that copy `c` could wait for. */
    ghost predicate Quiet(c: CopyId)
      reads this
    {
      && reliable && schedule == []
      && (forall d :: d in s.copies && d != c ==> !HoldsEntry(s.copies[d]) && !At(s.copies[d], Sent))
    }

    /** How many statements the handler of `c` has sent on its connection after 23505 had aborted it. */
    ghost function Misuses(c: CopyId): nat
      reads this
    {
      multiset(trace)[UseAborted(c)]
    }

    constructor (base: State, reliable: bool, schedule: seq<seq<Label>>)
      requires Init(base)
      ensures Valid() && this.base == base && this.s == base && trace == []
      ensures this.reliable == reliable && this.schedule == schedule
    {
      this.base, this.reliable, this.s, this.schedule, this.trace := base, reliable, base, schedule, [];
      this.thrown := 0;
    }

    /** Whether the next statement throws. */
    method Throws() returns (b: bool)
      requires Valid()
      modifies this`thrown
      ensures Valid() && thrown == old(thrown) + if b then 1 else 0
    {
      b := false;
      if !reliable {
        b := *;
      }
      thrown := thrown + if b then 1 else 0;
    }

    method Do(l: Label)
      requires Valid() && Enabled(s, l)
      modifies this`s, this`trace
      ensures Valid() && s == Next(old(s), l) && trace == old(trace) + [l]
    {
      ExecSnoc(base, trace, l);
      s := Next(s, l);
      trace := trace + [l];
    }

    /** Some steps, none of them a statement of the handler of `c` on an aborted connection. No throw is undone. */
    twostate predicate Went(c: CopyId)
      reads this
    {
      Valid() && old(trace) <= trace && Misuses(c) == old(Misuses(c)) && Grown(old(s), s)
      && old(thrown) <= thrown
    }

    /** A step of the handler of `c`. */
    method DoOwn(c: CopyId, l: Label)
      requires Valid() && Enabled(s, l) && Touches(l, c) && !l.UseAborted?
      modifies this`s, this`trace
      ensures s == Next(old(s), l) && trace == old(trace) + [l] && Went(c)
    {
      StepGrows(s, l);
      Do(l);
    }

    /** None of these steps was one of the handler of `c`. */
    twostate predicate Untouched(c: CopyId)
      reads this
    {
      && c in old(s).copies && c in s.copies && s.copies[c] == old(s).copies[c]
      && |old(trace)| <= |trace| && (forall i :: |old(trace)| <= i < |trace| ==> !Touches(trace[i], c))
    }

    method DoOther(c: CopyId, l: Label)
      requires Valid() && Enabled(s, l) && !Touches(l, c)
      modifies this`s, this`trace
      ensures s == Next(old(s), l) && trace == old(trace) + [l] && Went(c) && CopiesStay(old(s), s)
    {
      StepKeepsCopies(s, l);
      StepGrows(s, l);
      assert l != UseAborted(c);
      Do(l);
    }

    method RunBatch(c: CopyId, batch: seq<Label>) returns (alive: bool)
      requires Valid() && c in s.copies && s.copies[c].place.Held?
      modifies this`s, this`trace
      ensures Went(c) && CopiesStay(old(s), s) && (alive ==> Untouched(c))
      ensures (s, alive) == Interleaved(old(s), batch, c, old(s).copies[c].place.w)
      ensures !alive ==> Crash(old(s).copies[c].place.w) in batch
    {
      ghost var w := s.copies[c].place.w;
      for i := 0 to |batch|
        invariant Went(c) && CopiesStay(old(s), s) && Untouched(c)
        invariant (s, true) == Interleaved(old(s), batch[..i], c, w)
      {
        InterleavedSnoc(old(s), batch[..i], batch[i], c, w);
        assert batch[..i + 1] == batch[..i] + [batch[i]];
        if batch[i] == Crash(s.copies[c].place.w) {
          DoOther(c, batch[i]);
          DeadStays(old(s), batch, i + 1, c, w);
          return false;
        }
        if !Touches(batch[i], c) && Enabled(s, batch[i]) {
          OthersLeaveCopy(s, batch[i], c);
          DoOther(c, batch[i]);
        }
      }
      assert batch[..|batch|] == batch;
      alive := true;
    }

    /** What the schedule holds next, as far as process `w` survives it. */
    ghost function Upcoming(c: CopyId, w: WorkerId): (State, bool)
      reads this
    {
      if schedule == [] then (s, true) else Interleaved(s, schedule[0], c, w)
    }

    /** Steps of the broker, the database, other handlers and other processes. If the own process crashes, the
        handler is gone: `alive` is false and it must not act any more. */
    method Others(c: CopyId) returns (alive: bool)
      requires Valid() && c in s.copies && s.copies[c].place.Held?
      modifies this
      ensures Went(c) && CopiesStay(old(s), s) && (alive ==> Untouched(c))
      ensures (s, alive) == old(Upcoming(c, s.copies[c].place.w)) && NoneThrown()
      ensures schedule == if old(schedule) == [] then [] else old(schedule)[1..]
      ensures var w := old(s).copies[c].place.w;
              (!alive || Doomed(schedule, w)) ==> Doomed(old(schedule), w)
    {
      alive := true;
      if schedule != [] {
        var batch := schedule[0];
        assert batch in schedule && forall b :: b in schedule[1..] ==> b in schedule;
        schedule := schedule[1..];
        alive := RunBatch(c, batch);
      }
    }

    /** An `await`: when the handler goes on, no other handler of its process is in the middle of its turn. */
    method Await(c: CopyId) returns (alive: bool)
      requires Valid() && c in s.copies && s.copies[c].place.Held? && !s.copies[c].place.h.Sent?
      modifies this
      ensures Went(c) && CopiesStay(old(s), s) && (alive ==> Untouched(c) && TurnFree(s, s.copies[c].place.w))
      ensures var (after, survives) := old(Upcoming(c, s.copies[c].place.w));
              alive == survives && (TurnFree(after, old(s).copies[c].place.w) ==> s == after)
      ensures schedule == if old(schedule) == [] then [] else old(schedule)[1..]
      ensures var w := old(s).copies[c].place.w;
              (!alive || Doomed(schedule, w)) ==> Doomed(old(schedule), w)
      ensures old(Quiet(c)) ==> alive && Quiet(c) && s == old(s)
      ensures NoneThrown()
    {
      alive := Others(c);
      if alive {
        EndTurn(c);
      }
    }

    /** Another handler of the process that has just sent acknowledges first. */
    method EndTurn(c: CopyId)
      requires Valid() && c in s.copies && s.copies[c].place.Held? && !s.copies[c].place.h.Sent?
      modifies this`s, this`trace
      ensures Went(c) && CopiesStay(old(s), s) && Untouched(c) && TurnFree(s, s.copies[c].place.w)
      ensures TurnFree(old(s), old(s).copies[c].place.w) || old(Quiet(c)) ==> s == old(s)
    {
      var w := s.copies[c].place.w;
      if !TurnFree(s, w) {
        var d :| d in s.copies && s.copies[d].place == Held(w, Sent);
        TurnEnds(base, trace, d, w);
        OthersLeaveCopy(s, Ack(d), c);
        DoOther(c, Ack(d));
      }
    }
  }

  // ---- rabbit-mq.service.ts -----------------------------------------------------------------------------

  class RabbitMqService {
    var channel: bool

    constructor (channel: bool)
      ensures this.channel == channel
    {
      this.channel := channel;
    }

    /** Throws exactly if there is no channel; `send` then sends nothing. */
    method GetChannel() returns (ok: bool)
      ensures ok <==> channel
    {
      ok := channel;
    }
  }
}
