/** The database one request talks to while any number of others run. `Await` is every `await` of the code:
    the other requests take whatever steps the schedule holds before the awaited statement takes effect. The
    schedule is an arbitrary input, so what is proved holds for every interleaving. */
module Database {
  import opened Domain
  import opened SequentialShop
  import opened OrderProtocol
  import opened OrderInvariant
  import opened Deadlock

  /** The steps from `a` to `b` were all taken by transactions other than `t`. */
  predicate ByOthers(a: seq<Label>, b: seq<Label>, t: TxId) {
    a <= b && forall i :: |a| <= i < |b| ==> b[i].t != t
  }

  /** The slips of one transaction: statements sent on its connection after 23505 had aborted it, and what became of
      the connection. */
  datatype Tally = Tally(misused: nat, released: nat, lost: nat)

  function Counting(y: Tally, l: Label): Tally {
    Tally(y.misused + if l.UseAborted? then 1 else 0,
          y.released + if l.Release? then 1 else 0,
          y.lost + if l.Strand? then 1 else 0)
  }

  /** The count over a run. */
  function TallyIn(run: seq<Label>, t: TxId): Tally
    decreases |run|
  {
    if run == [] then Tally(0, 0, 0)
    else
      var before, l := TallyIn(run[..|run| - 1], t), run[|run| - 1];
      if l.t == t then Counting(before, l) else before
  }

  lemma TallySnoc(run: seq<Label>, l: Label, t: TxId)
    ensures TallyIn(run + [l], t) == if l.t == t then Counting(TallyIn(run, t), l) else TallyIn(run, t)
  {
  }

  /** `t` cannot go on: it waits for a connection, or for another transaction. */
  predicate Blocked(s: State, t: TxId) {
    || (t !in s.txs && !HasFree(s))
    || WaitsForConnection(s, t)
    || (exists u | u in s.txs :: WaitsFor(s, t, u))
  }

  /** ... or it names nothing, which makes the locking query fail. */
  predicate Unserved(s: State, t: TxId) {
    Blocked(s, t) || (t in s.txs && s.txs[t].phase.Throwing? && s.txs[t].req.items == [])
  }

  /** ... or the id generated for its order is in use. */
  predicate Hindered(s: State, t: TxId, oid: OrderId) {
    Unserved(s, t) || (t in s.txs && s.txs[t].phase.Started? && !FreshId(s, oid))
  }

  /** At some point of the run since `since` it was hindered. */
  ghost predicate HinderedSince(base: State, trace: seq<Label>, since: nat, t: TxId, oid: OrderId) {
    exists k :: since <= k <= |trace| && Hindered(Exec(base, trace[..k]), t, oid)
  }

  lemma HinderedNow(base: State, trace: seq<Label>, since: nat, t: TxId, oid: OrderId)
    requires since <= |trace|
    ensures Hindered(Exec(base, trace), t, oid) ==> HinderedSince(base, trace, since, t, oid)
  {
    assert trace[..|trace|] == trace;
  }

  /** What has been so since then has been so since earlier, and stays so. */
  lemma LongerAgo(base: State, trace: seq<Label>, trace': seq<Label>, since: nat, since': nat, t: TxId, oid: OrderId)
    requires trace <= trace' && since' <= since
    ensures HinderedSince(base, trace, since, t, oid) ==> HinderedSince(base, trace', since', t, oid)
  {
    assert forall k :: 0 <= k <= |trace| ==> trace'[..k] == trace[..k];
  }

  /** Without `t` at least two connections are free. */
  predicate LeavesTwo(busy: set<TxId>, pool: nat, t: TxId) {
    |busy - {t}| + 1 < pool
  }

  /** The others hold no key and no row, and leave `t` two connections. */
  predicate Alone(s: State, t: TxId) {
    LeavesTwo(s.busy, s.pool, t) && forall u :: u in s.txs && u != t ==> !HoldsKey(s.txs[u].phase)
  }

  lemma StaysAlone(s: State, l: Label)
    requires Alone(s, l.t) && Enabled(s, l) && !l.Strand?
    ensures Alone(Next(s, l), l.t) && Next(s, l).pool == s.pool && Next(s, l).busy - {l.t} == s.busy - {l.t}
  {
    if l.Begin? || l.Release? {
      assert Next(s, l).busy - {l.t} == s.busy - {l.t};
    } else {
      MovesOne(s, l);
    }
  }

  lemma OthersLeaveAlone(s: State, l: Label, t: TxId)
    requires Enabled(s, l) && l.t != t
    ensures (t in Next(s, l).txs <==> t in s.txs) && (t in s.txs ==> Next(s, l).txs[t] == s.txs[t])
    ensures t in Next(s, l).busy <==> t in s.busy
  {
    if !l.Begin? && !l.Release? && !l.Strand? {
      MovesOne(s, l);
    }
  }

  /** How many events of a log belong to others. */
  function Foreign(log: seq<Event>, t: TxId): nat
    decreases |log|
  {
    if log == [] then 0 else Foreign(log[..|log| - 1], t) + if log[|log| - 1].tid == t then 0 else 1
  }

  lemma OwnStepAddsNoForeign(s: State, l: Label)
    requires Enabled(s, l)
    ensures Foreign(Next(s, l).log, l.t) == Foreign(s.log, l.t)
  {
    if |Next(s, l).log| > |s.log| {
      assert Next(s, l).log[..|s.log|] == s.log;
    }
  }

  lemma {:induction false} NoForeignAdded(log: seq<Event>, log': seq<Event>, t: TxId)
    requires log <= log'
    ensures Foreign(log, t) <= Foreign(log', t)
    ensures Foreign(log, t) == Foreign(log', t) ==> forall i :: |log| <= i < |log'| ==> log'[i].tid == t
    decreases |log'|
  {
    if log != log' {
      var front := log'[..|log'| - 1];
      NoForeignAdded(log, front, t);
      assert forall i :: |log| <= i < |front| ==> front[i] == log'[i];
    }
  }

  lemma OneIsFree(busy: set<TxId>, pool: nat, t: TxId)
    requires LeavesTwo(busy, pool, t)
    ensures |busy| < pool
  {
    if t in busy {
      assert busy == (busy - {t}) + {t};
    } else {
      assert busy == busy - {t};
    }
  }

  /** The steps of a batch that are not of `t`, one after the other. */
  function Interleaved(s: State, batch: seq<Label>, t: TxId): State
    decreases |batch|
  {
    if batch == [] then s
    else
      var before, l := Interleaved(s, batch[..|batch| - 1], t), batch[|batch| - 1];
      if l.t == t then before else Step(before, l)
  }

  lemma InterleavedSnoc(s: State, batch: seq<Label>, l: Label, t: TxId)
    ensures Interleaved(s, batch + [l], t)
         == if l.t == t then Interleaved(s, batch, t) else Step(Interleaved(s, batch, t), l)
  {
  }

  class Postgres {
    const base: State
    /** No statement throws, no acknowledgement is lost. */
    const reliable: bool
    var s: State
    var schedule: seq<seq<Label>>
    ghost var trace: seq<Label>
    /** How many statements of the request have thrown. */
    ghost var thrown: nat

    /** The state is the one the steps taken so far lead to. */
    ghost predicate Valid()
      reads this
    {
      Init(base) && s == Exec(base, trace) && (reliable ==> thrown == 0)
    }

    twostate predicate NoneThrown()
      reads this
    {
      thrown == old(thrown)
    }

    /** Nothing fails, nobody else moves, and there is nothing `t` could wait for. */
    ghost predicate Quiet(t: TxId)
      reads this
    {
      reliable && schedule == [] && Alone(s, t)
    }

    /** A quiet database is still quiet, all that was logged is an event of `t`, and no connection but that of `t`
        has changed hands. No throw is undone. */
    twostate predicate StaysQuiet(t: TxId)
      reads this
    {
      && old(thrown) <= thrown
      && (old(Quiet(t)) ==>
        && Quiet(t) && Foreign(s.log, t) == Foreign(old(s).log, t)
        && s.pool == old(s).pool && s.busy - {t} == old(s).busy - {t})
    }

    ghost function TallyOf(t: TxId): Tally
      reads this
    {
      TallyIn(trace, t)
    }

    constructor (base: State, reliable: bool, schedule: seq<seq<Label>>)
      requires Init(base)
      ensures Valid() && this.base == base && this.s == base && this.schedule == schedule && trace == []
      ensures this.reliable == reliable
    {
      this.base, this.reliable, this.s, this.schedule, this.trace := base, reliable, base, schedule, [];
      this.thrown := 0;
    }

    /** Whether the next statement throws. */
    method Throws() returns (b: bool)
      requires Valid()
      modifies this`thrown
      ensures Valid() && thrown == old(thrown) + if b then 1 else 0
    {
      b := false;
      if !reliable {
        b := *;
      }
      thrown := thrown + if b then 1 else 0;
    }

    method Do(l: Label)
      requires Valid() && Enabled(s, l)
      modifies this`s, this`trace
      ensures Valid() && s == Next(old(s), l) && trace == old(trace) + [l]
      ensures TallyOf(l.t) == Counting(old(TallyOf(l.t)), l)
      ensures !l.Strand? ==> StaysQuiet(l.t)
    {
      ExecSnoc(base, trace, l);
      TallySnoc(trace, l, l.t);
      OwnStepAddsNoForeign(s, l);
      if Alone(s, l.t) && !l.Strand? {
        StaysAlone(s, l);
      }
      s := Next(s, l);
      trace := trace + [l];
    }

    method DoOther(t: TxId, l: Label)
      requires Valid() && Enabled(s, l) && l.t != t
      modifies this`s, this`trace
      ensures Valid() && s == Next(old(s), l) && trace == old(trace) + [l] && TallyOf(t) == old(TallyOf(t))
      ensures (t in s.txs <==> t in old(s).txs) && (t in s.txs ==> s.txs[t] == old(s).txs[t])
      ensures t in s.busy <==> t in old(s).busy
    {
      OthersLeaveAlone(s, l, t);
      ExecSnoc(base, trace, l);
      TallySnoc(trace, l, t);
      s := Next(s, l);
      trace := trace + [l];
    }

    method RunBatch(t: TxId, batch: seq<Label>)
      requires Valid()
      modifies this`s, this`trace
      ensures Valid() && ByOthers(old(trace), trace, t) && s == Interleaved(old(s), batch, t)
      ensures (t in s.txs <==> t in old(s).txs) && (t in s.txs ==> s.txs[t] == old(s).txs[t])
      ensures (t in s.busy <==> t in old(s).busy) && TallyOf(t) == old(TallyOf(t))
    {
      for i := 0 to |batch|
        invariant Valid() && ByOthers(old(trace), trace, t) && s == Interleaved(old(s), batch[..i], t)
        invariant (t in s.txs <==> t in old(s).txs) && (t in s.txs ==> s.txs[t] == old(s).txs[t])
        invariant (t in s.busy <==> t in old(s).busy) && TallyOf(t) == old(TallyOf(t))
      {
        InterleavedSnoc(old(s), batch[..i], batch[i], t);
        assert batch[..i + 1] == batch[..i] + [batch[i]];
        if batch[i].t != t && Enabled(s, batch[i]) {
          DoOther(t, batch[i]);
        }
      }
      assert batch[..|batch|] == batch;
    }

    /** The others take the next steps that the schedule holds. */
    method Await(t: TxId)
      requires Valid()
      modifies this
      ensures Valid() && ByOthers(old(trace), trace, t)
      ensures s == if old(schedule) == [] then old(s) else Interleaved(old(s), old(schedule)[0], t)
      ensures schedule == if old(schedule) == [] then [] else old(schedule)[1..]
      ensures t in s.txs <==> t in old(s).txs
      ensures t in s.txs ==> s.txs[t] == old(s).txs[t]
      ensures (t in s.busy <==> t in old(s).busy) && TallyOf(t) == old(TallyOf(t))
      ensures StaysQuiet(t) && NoneThrown()
    {
      if schedule != [] {
        var batch := schedule[0];
        schedule := schedule[1..];
        RunBatch(t, batch);
      }
    }
  }
}
