/** The order worker, statement by statement, while the broker, the database, other handlers and other
    processes run. Every step it takes is a step of the worker machine, so the theorems about all runs hold. */
module OrdersWorker {
  import opened Domain
  import opened WorkerProtocol
  import opened WorkerInvariant
  import opened RabbitMq

  /** How one invocation ended. After `Crashed` the process does nothing more. */
  datatype Ending = Acked | Rejected | Scheduled | Threw | Crashed

  /** The copy has a new place and nothing else has changed. */
  predicate OnlyMoved(s: State, s': State, c: CopyId, h: Handling) {
    c in s.copies && s.copies[c].place.Held? && s' == Move(s, c, h)
  }

  /** The order update of a message that is processed. */
  function WriteOf(s: State, m: Msg, now: Time): Option<Time> {
    if m.simulateFailure.None? && m.orderId in s.rows then Some(now) else None
  }

  /** The order is updated if it exists; nothing but a database error or the wait for its row ends otherwise. */
  predicate UpdatesOrThrows(s: State, c: CopyId, h: Handling, now: Time, none: bool)
    requires c in s.copies
  {
    || (none && h == Applied(if s.copies[c].msg.orderId in s.rows then Some(now) else None))
    || (h.Failing? && (!none || RowLockedByOther(s, c, s.copies[c].msg.orderId)))
  }

  /** The order update that a message leads to: of an order that was there the update is made, with the current
      time; a message that stops makes none. */
  predicate WritesNow(before: State, m: Msg, write: Option<Time>, now: Time) {
    && (write.Some? ==> write == Some(now) && m.simulateFailure.None?)
    && (m.simulateFailure.None? && m.orderId in before.rows ==> write == Some(now))
  }

  /** Whether a lone handler ends with an ack: the message is known already, or does not ask to fail. */
  predicate HandledAlone(s: State, c: CopyId)
    requires c in s.copies
  {
    InLedger(s.ledger, s.copies[c].msg.mid) || !Fails(s.copies[c].msg)
  }

  /** What a lone handler leaves: a known message changes nothing; a new one enters the ledger together with its
      order update; one that asks to fail is left to the retry. */
  function AfterHappyPath(s: State, c: CopyId, now: Time): State
    requires c in s.copies && s.copies[c].place.Held?
  {
    var m := s.copies[c].msg;
    if InLedger(s.ledger, m.mid) then Put(s, c, Gone(Deduped))
    else if Fails(m) then Move(s, c, Failing)
    else
      var write := WriteOf(s, m, now);
      Put(s, c, Gone(Processed)).(
        ledger := s.ledger + [Entry(m.mid, m.orderId, m.attempt, write)],
        rows := if write.Some? then s.rows[m.orderId := Row(PROCESSED, write)] else s.rows)
  }

  /** How far a lone handler comes before its transaction ends. */
  function Worked(s: State, m: Msg, now: Time): Handling {
    if InLedger(s.ledger, m.mid) then Duplicated else if Fails(m) then Failing else Applied(WriteOf(s, m, now))
  }

  /** The end of the transaction and the ack. */
  function Finish(s: State, c: CopyId): State
    requires c in s.copies && s.copies[c].place.Held?
    requires (s.copies[c].place.h.Applied? || s.copies[c].place.h.Duplicated?)
  {
    if s.copies[c].place.h.Duplicated? then Put(s, c, Gone(Deduped)) else Put(Install(s, c), c, Gone(Processed))
  }

  lemma FinishIs(s: State, c: CopyId)
    requires c in s.copies && s.copies[c].place.Held?
    ensures s.copies[c].place.h.Duplicated? ==> Next(s, Ack(c)) == Finish(s, c)
    ensures s.copies[c].place.h.Applied? ==> Next(Next(s, Commit(c)), Ack(c)) == Finish(s, c)
  {
  }

  lemma LoneHandler(s: State, c: CopyId, now: Time)
    requires c in s.copies && s.copies[c].place.Held?
    ensures var h := Worked(s, s.copies[c].msg, now);
            AfterHappyPath(s, c, now) == if h.Failing? then Move(s, c, h) else Finish(Move(s, c, h), c)
    ensures Worked(s, s.copies[c].msg, now).Failing? <==> !HandledAlone(s, c)
  {
  }

  /** How a lone handler ends. */
  function LoneEnding(s: State, c: CopyId, channel: bool): Ending
    requires c in s.copies
  {
    if HandledAlone(s, c) then Acked
    else if s.copies[c].msg.attempt < s.config.maxRetries then Scheduled
    else if channel then Acked
    else Threw
  }

  /** The steps of the handler of `c` in process `w`, and of anything else meanwhile: none was a statement on an
      aborted connection. If it is over before its end, the environment crashed its process. */
  twostate predicate Ran(cluster: Cluster, c: CopyId, w: WorkerId, alive: bool)
    reads cluster
  {
    && cluster.Went(c)
    && ((!alive || Doomed(cluster.schedule, w)) ==> Doomed(old(cluster.schedule), w))
  }

  /** The first step of copy `c` among the latest ones is `l`. */
  predicate NextStepIs(before: seq<Label>, after: seq<Label>, c: CopyId, l: Label) {
    exists at :: |before| <= at < |after| && after[at] == l && forall i :: |before| <= i < at ==> !Touches(after[i], c)
  }

  /** Why the processing of a message that is not in the ledger may fail when no statement throws: it asks for it, or
      its dedup row or its order row is held by another handler. */
  predicate Reason(s: State, c: CopyId) {
    && c in s.copies && !InLedger(s.ledger, s.copies[c].msg.mid)
    && (|| (At(s.copies[c], Received) && EntryHeldByOther(s, c, s.copies[c].msg.mid))
        || (At(s.copies[c], Inserted) && Fails(s.copies[c].msg))
        || (At(s.copies[c], Inserted) && RowLockedByOther(s, c, s.copies[c].msg.orderId)))
  }

  /** At some point of the run since `since` there was one. */
  ghost predicate ReasonSince(base: State, trace: seq<Label>, since: nat, c: CopyId) {
    exists k :: since <= k <= |trace| && Reason(Exec(base, trace[..k]), c)
  }

  /** A reason seen in the middle of a run. */
  lemma ReasonThen(base: State, trace: seq<Label>, trace': seq<Label>, since: nat, c: CopyId)
    requires trace <= trace' && since <= |trace|
    ensures Reason(Exec(base, trace), c) ==> ReasonSince(base, trace', since, c)
  {
    assert trace'[..|trace|] == trace;
  }

  /** What has been so since then has been so since earlier, and stays so. */
  lemma LongerAgo(base: State, trace: seq<Label>, trace': seq<Label>, since: nat, since': nat, c: CopyId)
    requires trace <= trace' && since' <= since
    ensures ReasonSince(base, trace, since, c) ==> ReasonSince(base, trace', since', c)
  {
    assert forall k :: 0 <= k <= |trace| ==> trace'[..k] == trace[..k];
  }

  /** A dedup row that is inserted and not committed is new. */
  lemma InsertedIsNew(base: State, trace: seq<Label>, c: CopyId)
    requires Init(base) && c in Exec(base, trace).copies && At(Exec(base, trace).copies[c], Inserted)
    ensures !InLedger(Exec(base, trace).ledger, Exec(base, trace).copies[c].msg.mid)
  {
    RunKeepsInv(base, trace);
    assert CopyOk(Exec(base, trace), Exec(base, trace).copies[c]);
  }

  lemma StaysInLedger(ledger: seq<Entry>, ledger': seq<Entry>, mid: MessageId)
    requires ledger <= ledger'
    ensures InLedger(ledger, mid) ==> InLedger(ledger', mid)
  {
    if i :| 0 <= i < |ledger| && ledger[i].mid == mid {
      assert ledger'[i] == ledger[i];
    }
  }

  /** The ledger holds the dedup row of this delivery with this order update. */
  predicate Recorded(ledger: seq<Entry>, m: Msg, write: Option<Time>) {
    exists i :: 0 <= i < |ledger| && ledger[i] == Entry(m.mid, m.orderId, m.attempt, write)
  }

  lemma CommitRecords(s: State, c: CopyId)
    requires Enabled(s, Commit(c))
    ensures Recorded(Next(s, Commit(c)).ledger, s.copies[c].msg, s.copies[c].place.h.write)
    ensures InLedger(Next(s, Commit(c)).ledger, s.copies[c].msg.mid)
  {
    var ledger := Next(s, Commit(c)).ledger;
    assert ledger[|s.ledger|] == Entry(s.copies[c].msg.mid, s.copies[c].msg.orderId, s.copies[c].msg.attempt,
                                       s.copies[c].place.h.write);
  }

  lemma OthersHoldTheSame(s: State, c: CopyId, h: Handling)
    requires c in s.copies && s.copies[c].place.Held?
    ensures EntryHeldByOther(Move(s, c, h), c, s.copies[c].msg.mid) == EntryHeldByOther(s, c, s.copies[c].msg.mid)
    ensures RowLockedByOther(Move(s, c, h), c, s.copies[c].msg.orderId)
            == RowLockedByOther(s, c, s.copies[c].msg.orderId)
  {
    var s' := Move(s, c, h);
    assert forall d :: d in s.copies && d != c ==> s'.copies[d] == s.copies[d];
    assert forall d :: d in s'.copies ==> d in s.copies;
  }

  lemma AckLeaves(s: State, c: CopyId, d: CopyId)
    requires Enabled(s, Ack(c)) && d in s.copies
    ensures d in Next(s, Ack(c)).copies
    ensures Next(s, Ack(c)).copies[d] == s.copies[d].(place := Next(s, Ack(c)).copies[d].place)
  {
  }

  lemma SettledKnowsLedger(cluster: Cluster, c: CopyId)
    requires cluster.Valid() && c in cluster.s.copies && KnowsLedger(cluster.s.copies[c].place)
    ensures InLedger(cluster.s.ledger, cluster.s.copies[c].msg.mid)
  {
    RunKeepsInv(cluster.base, cluster.trace);
    assert CopyOk(cluster.s, cluster.s.copies[c]);
  }

  class OrdersWorkerService {
    const rabbitmq: RabbitMqService
    const cluster: Cluster

    constructor (rabbitmq: RabbitMqService, cluster: Cluster)
      ensures this.rabbitmq == rabbitmq && this.cluster == cluster
    {
      this.rabbitmq, this.cluster := rabbitmq, cluster;
    }

    /** What may be left of copy `c` when process `w` has ended an invocation. */
    ghost predicate EndedAs(c: CopyId, w: WorkerId, e: Ending)
      reads this, cluster
    {
      && cluster.Valid()
      && (e != Crashed ==>
            c in cluster.s.copies
            && var p := cluster.s.copies[c].place;
            match e
            case Acked => p.Gone?
            case Rejected => p.Ready?
            case Scheduled => p == Held(w, Timer)
            case Threw => cluster.Running(c, w, Failing) && TurnFree(cluster.s, w)
            case Crashed => true)
    }

    /** `dedupRepo.insert`. Waiting for another handler's row that never ends is an error of the database. */
    method InsertDedup(c: CopyId, ghost w: WorkerId) returns (h: Handling, alive: bool)
      requires cluster.Running(c, w, Received)
      modifies cluster
      ensures Ran(cluster, c, w, alive)
      ensures alive ==>
                cluster.Running(c, w, h) && TurnFree(cluster.s, w) && (h.Inserted? || h.Duplicated? || h.Failing?)
      ensures alive ==> cluster.s.copies[c].msg == old(cluster.s.copies[c].msg)
      ensures alive && !h.Failing? ==> cluster.NoneThrown()
      ensures alive && h.Failing? && cluster.NoneThrown() ==>
                ReasonSince(cluster.base, cluster.trace, |old(cluster.trace)|, c)
      ensures alive && cluster.NoneThrown() && InLedger(old(cluster.s.ledger), old(cluster.s.copies[c].msg.mid)) ==>
                h.Duplicated?
      ensures old(cluster.Quiet(c)) ==>
                && alive && cluster.Quiet(c) && OnlyMoved(old(cluster.s), cluster.s, c, h)
                && h == if InLedger(old(cluster.s.ledger), old(cluster.s.copies[c].msg.mid))
                        then Duplicated else Inserted
    {
      h := Received;
      ghost var trace := cluster.trace;
      alive := cluster.Await(c);
      if alive {
        ghost var before := cluster.trace;
        StaysInLedger(old(cluster.s.ledger), cluster.s.ledger, cluster.s.copies[c].msg.mid);
        h := InsertNow(c, w);
        ReasonThen(cluster.base, before, cluster.trace, |trace|, c);
      }
    }

    /** The insert takes effect, or throws. */
    method InsertNow(c: CopyId, ghost w: WorkerId) returns (h: Handling)
      requires cluster.Running(c, w, Received) && TurnFree(cluster.s, w)
      modifies cluster`s, cluster`trace, cluster`thrown
      ensures cluster.Went(c) && cluster.Running(c, w, h) && TurnFree(cluster.s, w)
      ensures OnlyMoved(old(cluster.s), cluster.s, c, h) && (h.Inserted? || h.Duplicated? || h.Failing?)
      ensures !h.Failing? ==> cluster.NoneThrown()
      ensures h.Failing? && cluster.NoneThrown() ==> Reason(old(cluster.s), c)
      ensures cluster.NoneThrown() && InLedger(old(cluster.s.ledger), old(cluster.s.copies[c].msg.mid)) ==>
                h.Duplicated?
      ensures old(cluster.Quiet(c)) ==>
                h == if InLedger(old(cluster.s.ledger), old(cluster.s.copies[c].msg.mid)) then Duplicated else Inserted
    {
      var throws := cluster.Throws();
      if throws {
        cluster.DoOwn(c, DbError(c));
        return Failing;
      }
      h := TakeDedupRow(c, w);
    }

    /** The insert, when the database answers. */
    method TakeDedupRow(c: CopyId, ghost w: WorkerId) returns (h: Handling)
      requires cluster.Running(c, w, Received) && TurnFree(cluster.s, w)
      modifies cluster`s, cluster`trace
      ensures cluster.Went(c) && cluster.Running(c, w, h) && TurnFree(cluster.s, w)
      ensures OnlyMoved(old(cluster.s), cluster.s, c, h) && (h.Inserted? || h.Duplicated? || h.Failing?)
      ensures h.Duplicated? <==> InLedger(old(cluster.s.ledger), old(cluster.s.copies[c].msg.mid))
      ensures h.Failing? ==> Reason(old(cluster.s), c)
      ensures old(cluster.Quiet(c)) ==> !h.Failing?
    {
      if InLedger(cluster.s.ledger, cluster.s.copies[c].msg.mid) {
        cluster.DoOwn(c, Dedup(c));
        h := Duplicated;
      } else if EntryHeldByOther(cluster.s, c, cluster.s.copies[c].msg.mid) {
        cluster.DoOwn(c, DbError(c));
        h := Failing;
      } else {
        cluster.DoOwn(c, Insert(c));
        h := Inserted;
      }
    }

    /** `ordersRepo.update`: an order that does not exist (yet) is no error, and not updated. */
    method UpdateOrder(c: CopyId, ghost w: WorkerId, now: Time) returns (h: Handling, alive: bool)
      requires cluster.Running(c, w, Inserted) && cluster.s.copies[c].msg.simulateFailure.None?
      modifies cluster
      ensures Ran(cluster, c, w, alive)
      ensures alive ==>
                && cluster.Running(c, w, h) && TurnFree(cluster.s, w)
                && cluster.s.copies[c].msg == old(cluster.s.copies[c].msg)
                && UpdatesOrThrows(cluster.s, c, h, now, cluster.NoneThrown())
      ensures alive && h.Applied? && old(cluster.s.copies[c].msg.orderId in cluster.s.rows) ==> h == Applied(Some(now))
      ensures alive && !h.Failing? ==> cluster.NoneThrown()
      ensures alive && h.Failing? && cluster.NoneThrown() ==>
                ReasonSince(cluster.base, cluster.trace, |old(cluster.trace)|, c)
      ensures old(cluster.Quiet(c)) ==>
                && alive && cluster.Quiet(c) && OnlyMoved(old(cluster.s), cluster.s, c, h)
                && h == Applied(WriteOf(old(cluster.s), old(cluster.s.copies[c].msg), now))
    {
      h := Inserted;
      ghost var since := |cluster.trace|;
      alive := cluster.Await(c);
      if alive {
        ghost var before := cluster.trace;
        h := UpdateNow(c, w, now);
        ReasonThen(cluster.base, before, cluster.trace, since, c);
      }
    }

    /** The update takes effect, or throws. */
    method UpdateNow(c: CopyId, ghost w: WorkerId, now: Time) returns (h: Handling)
      requires cluster.Running(c, w, Inserted) && cluster.s.copies[c].msg.simulateFailure.None?
      requires TurnFree(cluster.s, w)
      modifies cluster`s, cluster`trace, cluster`thrown
      ensures cluster.Went(c) && cluster.Running(c, w, h) && TurnFree(cluster.s, w)
      ensures OnlyMoved(old(cluster.s), cluster.s, c, h) && UpdatesOrThrows(cluster.s, c, h, now, cluster.NoneThrown())
      ensures h.Failing? && cluster.NoneThrown() ==> Reason(old(cluster.s), c)
      ensures old(cluster.Quiet(c)) ==> h == Applied(WriteOf(old(cluster.s), old(cluster.s.copies[c].msg), now))
    {
      var m := cluster.s.copies[c].msg;
      InsertedIsNew(cluster.base, cluster.trace, c);
      var throws := cluster.Throws();
      if throws || RowLockedByOther(cluster.s, c, m.orderId) {
        OthersHoldTheSame(cluster.s, c, Failing);
        cluster.DoOwn(c, DbError(c));
        h := Failing;
      } else {
        h := Applied(if m.orderId in cluster.s.rows then Some(now) else None);
        cluster.DoOwn(c, Update(c, now));
      }
    }

    /** `processOrderMessage`, inside the transaction. */
    method ProcessOrderMessage(c: CopyId, ghost w: WorkerId, now: Time) returns (h: Handling, alive: bool)
      requires cluster.Running(c, w, Inserted)
      modifies cluster
      ensures Ran(cluster, c, w, alive)
      ensures alive ==> cluster.Running(c, w, h) && TurnFree(cluster.s, w) && (h.Applied? || h.Failing?)
      ensures old(cluster.Quiet(c)) ==>
                && alive && cluster.Quiet(c) && OnlyMoved(old(cluster.s), cluster.s, c, h)
                && h == if Fails(old(cluster.s.copies[c].msg)) then Failing
                        else Applied(WriteOf(old(cluster.s), old(cluster.s.copies[c].msg), now))
      ensures var m := old(cluster.s.copies[c].msg);
              alive ==>
                if m.simulateFailure.None? then UpdatesOrThrows(cluster.s, c, h, now, cluster.NoneThrown())
                else h == if Stops(m) then Applied(None) else Failing
      ensures alive ==> cluster.s.copies[c].msg == old(cluster.s.copies[c].msg)
      ensures alive && h.Applied? ==> WritesNow(old(cluster.s), old(cluster.s.copies[c].msg), h.write, now)
      ensures alive && !h.Failing? ==> cluster.NoneThrown()
      ensures alive && h.Failing? && cluster.NoneThrown() ==>
                ReasonSince(cluster.base, cluster.trace, |old(cluster.trace)|, c)
    {
      h := Inserted;
      ghost var since := |cluster.trace|;
      alive := cluster.Await(c);                 // sleep(2)
      if !alive {
        return;
      }
      ghost var before := cluster.trace;
      if cluster.s.copies[c].msg.simulateFailure.Some? {
        h := SimulateFailure(c, w);
        ReasonThen(cluster.base, before, cluster.trace, since, c);
      } else {
        h, alive := UpdateOrder(c, w, now);
        LongerAgo(cluster.base, cluster.trace, cluster.trace, |before|, since, c);
      }
    }

    /** Debug only: throw, or stop without touching the order. */
    method SimulateFailure(c: CopyId, ghost w: WorkerId) returns (h: Handling)
      requires cluster.Running(c, w, Inserted) && cluster.s.copies[c].msg.simulateFailure.Some?
      requires TurnFree(cluster.s, w)
      modifies cluster`s, cluster`trace
      ensures cluster.Went(c) && cluster.Running(c, w, h) && TurnFree(cluster.s, w)
      ensures OnlyMoved(old(cluster.s), cluster.s, c, h)
      ensures h == if Stops(old(cluster.s.copies[c].msg)) then Applied(None) else Failing
      ensures h.Failing? ==> Reason(old(cluster.s), c)
    {
      var m := cluster.s.copies[c].msg;
      InsertedIsNew(cluster.base, cluster.trace, c);
      if m.simulateFailure.value.stopOnAttempt == Some(m.attempt) {
        cluster.DoOwn(c, Skip(c));
        h := Applied(None);
      } else {
        cluster.DoOwn(c, Throw(c));
        h := Failing;
      }
    }

    /** The end of `datasource.transaction`: COMMIT, which on a connection aborted by 23505 only discards. */
    method EndTransaction(c: CopyId, ghost w: WorkerId, h: Handling) returns (ok: bool, alive: bool)
      requires cluster.Running(c, w, h) && (h.Applied? || h.Duplicated?)
      modifies cluster
      ensures Ran(cluster, c, w, alive)
      ensures alive ==>
                TurnFree(cluster.s, w)
                && cluster.Running(c, w, if !ok then Failing else if h.Applied? then Done else Duplicated)
      ensures alive ==> (ok <==> cluster.NoneThrown())
      ensures alive && ok ==> InLedger(cluster.s.ledger, cluster.s.copies[c].msg.mid)
      ensures alive ==> cluster.s.copies[c].msg == old(cluster.s.copies[c].msg)
      ensures alive && ok && h.Applied? ==> Recorded(cluster.s.ledger, old(cluster.s.copies[c].msg), h.write)
      ensures old(cluster.Quiet(c)) ==>
                && alive && ok && cluster.Quiet(c)
                && cluster.s == if h.Duplicated? then old(cluster.s) else Next(old(cluster.s), Commit(c))
    {
      ok := false;
      alive := cluster.Await(c);
      if alive {
        ok := EndNow(c, w, h);
      }
    }

    /** COMMIT takes effect, or throws, and then it may have taken effect nevertheless. */
    method EndNow(c: CopyId, ghost w: WorkerId, h: Handling) returns (ok: bool)
      requires cluster.Running(c, w, h) && (h.Applied? || h.Duplicated?) && TurnFree(cluster.s, w)
      modifies cluster`s, cluster`trace, cluster`thrown
      ensures cluster.Went(c) && TurnFree(cluster.s, w)
      ensures cluster.Running(c, w, if !ok then Failing else if h.Applied? then Done else Duplicated)
      ensures ok <==> cluster.NoneThrown()
      ensures ok ==> cluster.s == if h.Duplicated? then old(cluster.s) else Next(old(cluster.s), Commit(c))
      ensures cluster.s.copies[c].msg == old(cluster.s.copies[c].msg)
      ensures ok ==> InLedger(cluster.s.ledger, cluster.s.copies[c].msg.mid)
      ensures ok && h.Applied? ==> Recorded(cluster.s.ledger, old(cluster.s.copies[c].msg), h.write)
    {
      var throws := cluster.Throws();
      ok := !throws;
      if throws {
        var applied: bool := *;
        cluster.DoOwn(c, if h.Applied? && applied then CommitUnseen(c) else DbError(c));
      } else if h.Applied? {
        CommitRecords(cluster.s, c);
        cluster.DoOwn(c, Commit(c));
      } else {
        SettledKnowsLedger(cluster, c);
      }
    }

    /** The callback of `datasource.transaction`. */
    method InTransaction(c: CopyId, ghost w: WorkerId, now: Time) returns (h: Handling, alive: bool)
      requires cluster.Running(c, w, Received)
      modifies cluster
      ensures Ran(cluster, c, w, alive)
      ensures alive ==>
                cluster.Running(c, w, h) && TurnFree(cluster.s, w) && (h.Applied? || h.Duplicated? || h.Failing?)
      ensures alive ==> cluster.s.copies[c].msg == old(cluster.s.copies[c].msg)
      ensures alive && h.Applied? ==> WritesNow(old(cluster.s), old(cluster.s.copies[c].msg), h.write, now)
      ensures alive && !h.Failing? ==> cluster.NoneThrown()
      ensures alive && h.Failing? && cluster.NoneThrown() ==>
                ReasonSince(cluster.base, cluster.trace, |old(cluster.trace)|, c)
      ensures alive && cluster.NoneThrown() && InLedger(old(cluster.s.ledger), old(cluster.s.copies[c].msg.mid)) ==>
                h.Duplicated?
      ensures old(cluster.Quiet(c)) ==>
                && alive && cluster.Quiet(c) && OnlyMoved(old(cluster.s), cluster.s, c, h)
                && h == Worked(old(cluster.s), old(cluster.s.copies[c].msg), now)
    {
      ghost var since := |cluster.trace|;
      h, alive := InsertDedup(c, w);
      if alive && h.Inserted? {
        ghost var before := |cluster.trace|;
        h, alive := ProcessOrderMessage(c, w, now);
        LongerAgo(cluster.base, cluster.trace, cluster.trace, before, since, c);
      }
    }

    method CommitAndAck(c: CopyId, ghost w: WorkerId, h: Handling) returns (e: Ending)
      requires cluster.Running(c, w, h) && (h.Applied? || h.Duplicated?)
      modifies cluster
      ensures EndedAs(c, w, e) && Ran(cluster, c, w, e != Crashed)
      ensures e == Acked || e == Threw || e == Crashed
      ensures e == Acked ==> InLedger(cluster.s.ledger, cluster.s.copies[c].msg.mid)
      ensures e == Acked ==> cluster.s.copies[c].place == Gone(if h.Applied? then Processed else Deduped)
      ensures e == Acked && h.Applied? ==> Recorded(cluster.s.ledger, old(cluster.s.copies[c].msg), h.write)
      ensures e != Crashed ==> (e == Acked <==> cluster.NoneThrown())
      ensures old(cluster.Quiet(c)) ==> e == Acked && cluster.Quiet(c) && cluster.s == Finish(old(cluster.s), c)
    {
      ghost var before := cluster.s;
      var ok, alive := EndTransaction(c, w, h);
      if !alive {
        return Crashed;
      }
      if !ok {
        return Threw;
      }
      FinishIs(before, c);
      AckKnown(c, w);
      return Acked;
    }

    /** The ack of a message that is in the ledger. */
    method AckKnown(c: CopyId, ghost w: WorkerId)
      requires cluster.Running(c, w, Done) || cluster.Running(c, w, Duplicated)
      modifies cluster`s, cluster`trace
      ensures cluster.Went(c) && cluster.s == Next(old(cluster.s), Ack(c)) && cluster.s.ledger == old(cluster.s.ledger)
      ensures cluster.s.copies[c].msg == old(cluster.s.copies[c].msg)
      ensures cluster.s.copies[c].place == Gone(if old(cluster.s.copies[c].place.h).Done? then Processed else Deduped)
      ensures old(cluster.Quiet(c)) ==> cluster.Quiet(c)
    {
      cluster.DoOwn(c, Ack(c));
    }

    /** The ack follows a committed transaction, or a duplicate of one; an error leaves nothing of this attempt.
        When no statement throws, a known message is always acked, and a new one is left to the retry only if it
        asks for it or another handler holds its dedup row or its order row. A processed message is in the ledger with
        its order update. A lone handler leaves exactly `AfterHappyPath`. */
    method HandleHappyPath(c: CopyId, ghost w: WorkerId, now: Time) returns (e: Ending)
      requires cluster.Running(c, w, Received)
      modifies cluster
      ensures EndedAs(c, w, e) && Ran(cluster, c, w, e != Crashed)
      ensures e == Acked || e == Threw || e == Crashed
      ensures e == Acked ==> InLedger(cluster.s.ledger, cluster.s.copies[c].msg.mid)
      ensures e == Acked ==> EndedProcessed(c, old(cluster.s), now) || cluster.s.copies[c].place == Gone(Deduped)
      ensures e == Acked ==> cluster.NoneThrown()
      ensures e == Threw && cluster.NoneThrown() ==> ReasonSince(cluster.base, cluster.trace, |old(cluster.trace)|, c)
      ensures cluster.NoneThrown() && InLedger(old(cluster.s.ledger), old(cluster.s.copies[c].msg.mid)) ==>
                e == Crashed || (e == Acked && cluster.s.copies[c].place == Gone(Deduped))
      ensures old(cluster.Quiet(c)) ==>
                && e == (if HandledAlone(old(cluster.s), c) then Acked else Threw) && cluster.Quiet(c)
                && cluster.s == AfterHappyPath(old(cluster.s), c, now)
      ensures var m := old(cluster.s.copies[c].msg);
              old(cluster.Quiet(c)) && !InLedger(old(cluster.s.ledger), m.mid) && m.simulateFailure.None? ==>
                cluster.s.rows == if m.orderId in old(cluster.s.rows)
                                  then old(cluster.s.rows)[m.orderId := Row(PROCESSED, Some(now))]
                                  else old(cluster.s.rows)
    {
      ghost var before, since := cluster.s, |cluster.trace|;
      var h, alive := InTransaction(c, w, now);
      if !alive {
        return Crashed;
      }
      LoneHandler(before, c, now);
      if h.Failing? {
        return Threw;
      }
      e := CommitAndAck(c, w, h);
    }

    /** The message is recorded as processed, together with its order update. */
    ghost predicate EndedProcessed(c: CopyId, before: State, now: Time)
      reads this, cluster
    {
      && c in before.copies && c in cluster.s.copies && cluster.s.copies[c].place == Gone(Processed)
      && exists write :: Recorded(cluster.s.ledger, before.copies[c].msg, write)
                         && WritesNow(before, before.copies[c].msg, write, now)
    }

    /** `send` and then `ack`, with no await in between; only a crash can fall between them. */
    method SendAndAck(c: CopyId, ghost w: WorkerId, l: Label) returns (e: Ending)
      requires cluster.Valid() && Enabled(cluster.s, l) && (l.Retry? || l.DeadLetter?) && l.c == c
      requires cluster.s.copies[c].place.Held? && cluster.s.copies[c].place.w == w
      modifies cluster
      ensures EndedAs(c, w, e) && Ran(cluster, c, w, e != Crashed)
      ensures e == Acked || e == Crashed
      ensures e == Acked ==> cluster.s.copies[c].place == Gone(Superseded)
      ensures old(cluster.schedule) == [] ==> e == Acked && cluster.s == Next(Next(old(cluster.s), l), Ack(c))
      ensures |old(cluster.trace)| < |cluster.trace| && cluster.trace[|old(cluster.trace)|] == l
      ensures l.child in cluster.s.copies
      ensures cluster.s.copies[l.child].(place := Ready) == Next(old(cluster.s), l).copies[l.child].(place := Ready)
    {
      cluster.DoOwn(c, l);
      e := AckSent(c, w, l.child);
    }

    /** The ack that follows a send. */
    method AckSent(c: CopyId, ghost w: WorkerId, ghost child: CopyId) returns (e: Ending)
      requires cluster.Valid() && c in cluster.s.copies && cluster.s.copies[c].place == Held(w, Sent)
      requires child in cluster.s.copies
      modifies cluster
      ensures EndedAs(c, w, e) && Ran(cluster, c, w, e != Crashed)
      ensures e == Acked || e == Crashed
      ensures e == Acked ==> cluster.s.copies[c].place == Gone(Superseded)
      ensures old(cluster.schedule) == [] ==> e == Acked && cluster.s == Next(old(cluster.s), Ack(c))
      ensures child in cluster.s.copies
      ensures cluster.s.copies[child] == old(cluster.s.copies[child]).(place := cluster.s.copies[child].place)
    {
      var alive := cluster.Others(c);
      if !alive {
        return Crashed;
      }
      AckLeaves(cluster.s, c, child);
      cluster.DoOwn(c, Ack(c));
      return Acked;
    }

    /** Dead-letter at the retry limit, otherwise start a timer. A send without a channel throws. */
    method HandleFailedProcessing(c: CopyId, ghost w: WorkerId, child: CopyId) returns (e: Ending)
      requires cluster.Running(c, w, Failing) && TurnFree(cluster.s, w) && child !in cluster.s.copies
      modifies cluster
      ensures EndedAs(c, w, e) && Ran(cluster, c, w, e != Crashed) && e != Rejected
      ensures e == Acked ==> cluster.s.copies[c].place == Gone(Superseded)
      ensures e == Threw ==> cluster.s.copies[c].msg.attempt >= cluster.s.config.maxRetries
      ensures var m := old(cluster.s.copies[c].msg);
              if m.attempt < old(cluster.s.config.maxRetries) then e == Scheduled
              else (e == Acked || e == Crashed || e == Threw)
                   && (e == Threw <==> !rabbitmq.channel) && (old(cluster.schedule) == [] ==> e != Crashed)
                   && (e != Threw ==>
                         && |old(cluster.trace)| < |cluster.trace|
                         && cluster.trace[|old(cluster.trace)|] == DeadLetter(c, child))
    {
      if cluster.s.copies[c].msg.attempt >= cluster.s.config.maxRetries {
        var sends := rabbitmq.GetChannel();
        if !sends {
          return Threw;
        }
        e := SendAndAck(c, w, DeadLetter(c, child));
        return;
      }
      cluster.DoOwn(c, Schedule(c));
      return Scheduled;
    }

    /** Processing, and what follows its failure. Whatever is not acked as known or processed has a reason. */
    method Handle(c: CopyId, ghost w: WorkerId, now: Time) returns (e: Ending)
      requires cluster.Running(c, w, Received)
      modifies cluster
      ensures EndedAs(c, w, e) && Ran(cluster, c, w, e != Crashed) && e != Rejected
      ensures e == Threw ==> cluster.s.copies[c].msg.attempt >= cluster.s.config.maxRetries && !rabbitmq.channel
      ensures e == Acked ==> EndedWell(c, old(cluster.s), now) || cluster.s.copies[c].place == Gone(Superseded)
      ensures e == Acked && EndedWell(c, old(cluster.s), now) ==> cluster.NoneThrown()
      ensures cluster.NoneThrown() && e != Crashed && !(e == Acked && EndedWell(c, old(cluster.s), now)) ==>
                ReasonSince(cluster.base, cluster.trace, |old(cluster.trace)|, c)
      ensures cluster.NoneThrown() && InLedger(old(cluster.s.ledger), old(cluster.s.copies[c].msg.mid)) ==>
                e == Crashed || (e == Acked && cluster.s.copies[c].place == Gone(Deduped))
      ensures old(cluster.Quiet(c)) ==> e == LoneEnding(old(cluster.s), c, rabbitmq.channel)
    {
      ghost var since := |cluster.trace|;
      e := HandleHappyPath(c, w, now);
      if e == Threw {
        ghost var before := cluster.trace;
        var child := NewCopyId(cluster.s.copies.Keys);
        e := HandleFailedProcessing(c, w, child);
        LongerAgo(cluster.base, before, cluster.trace, since, since, c);
      }
    }

    /** Known and dropped, or recorded with its order update. */
    ghost predicate EndedWell(c: CopyId, before: State, now: Time)
      reads this, cluster
    {
      && c in cluster.s.copies && InLedger(cluster.s.ledger, cluster.s.copies[c].msg.mid)
      && (EndedProcessed(c, before, now) || cluster.s.copies[c].place == Gone(Deduped))
    }

    /** The callback given to `channel.consume`. Whatever happens, the delivery is acknowledged or rejected
        once, or waits for its timer, or was requeued by a crash of the process. A message that can be parsed is
        rejected only if its dead-lettering threw. */
    method OnDelivery(c: CopyId, ghost w: WorkerId, now: Time) returns (e: Ending)
      requires cluster.Valid() && c in cluster.s.copies && cluster.s.copies[c].place == Held(w, Received)
      modifies cluster
      ensures EndedAs(c, w, e) && Ran(cluster, c, w, e != Crashed) && e != Threw
      ensures old(cluster.Quiet(c)) && old(cluster.s.copies[c].readable) ==>
                var alone := LoneEnding(old(cluster.s), c, rabbitmq.channel);
                e == if alone == Threw then Rejected else alone
      ensures !old(cluster.s.copies[c].readable) ==> e == Rejected
      ensures e == Rejected ==>
                var reject := if old(cluster.s.copies[c].readable) then SendError(c) else RejectBody(c);
                |old(cluster.trace)| < |cluster.trace| && cluster.trace[|cluster.trace| - 1] == reject
      ensures old(cluster.s.copies[c].readable) && e == Acked ==>
                EndedWell(c, old(cluster.s), now) || cluster.s.copies[c].place == Gone(Superseded)
      ensures old(cluster.s.copies[c].readable) && e == Acked && EndedWell(c, old(cluster.s), now) ==>
                cluster.NoneThrown()
      ensures old(cluster.s.copies[c].readable) && cluster.NoneThrown() && e != Crashed
              && !(e == Acked && EndedWell(c, old(cluster.s), now)) ==>
                ReasonSince(cluster.base, cluster.trace, |old(cluster.trace)|, c)
      ensures e == Rejected && old(cluster.s.copies[c].readable) ==>
                cluster.s.copies[c].msg.attempt >= cluster.s.config.maxRetries && !rabbitmq.channel
    {
      if !cluster.s.copies[c].readable {
        cluster.DoOwn(c, RejectBody(c));
        return Rejected;
      }
      ghost var since := |cluster.trace|;
      e := Handle(c, w, now);
      if e == Threw {
        ghost var before := cluster.trace;
        cluster.DoOwn(c, SendError(c));
        LongerAgo(cluster.base, before, cluster.trace, since, since, c);
        return Rejected;
      }
    }

    /** The retry timer: the message is sent once more with the next attempt, then this delivery is acked. An
        exception in a timer callback ends the process. */
    method OnTimer(c: CopyId, ghost w: WorkerId) returns (e: Ending, ghost child: CopyId)
      requires cluster.Running(c, w, Timer)
      modifies cluster
      ensures EndedAs(c, w, e) && Ran(cluster, c, w, e != Crashed || !rabbitmq.channel)
      ensures e == Acked || e == Crashed
      ensures !rabbitmq.channel ==> e == Crashed
      ensures e == Acked ==>
                && child !in old(cluster.s.copies) && NextStepIs(old(cluster.trace), cluster.trace, c, Retry(c, child))
                && child in cluster.s.copies && cluster.s.copies[child].parent == Some(c)
                && var m := old(cluster.s.copies[c].msg); cluster.s.copies[child].msg == m.(attempt := m.attempt + 1)
      ensures old(cluster.Quiet(c)) && rabbitmq.channel ==> e == Acked
    {
      child := 0;
      var alive := cluster.Await(c);
      if !alive {
        return Crashed, child;
      }
      e, child := Republish(c, w);
    }

    /** What the timer does when its turn has come. */
    method Republish(c: CopyId, ghost w: WorkerId) returns (e: Ending, ghost child: CopyId)
      requires cluster.Running(c, w, Timer) && TurnFree(cluster.s, w)
      modifies cluster
      ensures EndedAs(c, w, e) && Ran(cluster, c, w, e != Crashed || !rabbitmq.channel)
      ensures e == Acked || e == Crashed
      ensures !rabbitmq.channel ==> e == Crashed
      ensures e == Acked ==>
                && child !in old(cluster.s.copies)
                && |old(cluster.trace)| < |cluster.trace| && cluster.trace[|old(cluster.trace)|] == Retry(c, child)
                && child in cluster.s.copies && cluster.s.copies[child].parent == Some(c)
                && var m := old(cluster.s.copies[c].msg); cluster.s.copies[child].msg == m.(attempt := m.attempt + 1)
      ensures old(cluster.schedule) == [] && rabbitmq.channel ==> e == Acked
    {
      var sends := rabbitmq.GetChannel();
      if !sends {
        cluster.DoOther(c, Crash(cluster.s.copies[c].place.w));
        return Crashed, 0;
      }
      var copy := NewCopyId(cluster.s.copies.Keys);
      child := copy;
      e := SendAndAck(c, w, Retry(c, copy));
    }
  }

  /** The broker gives every copy an identity of its own. */
  method NewCopyId(used: set<CopyId>) returns (n: CopyId)
    ensures n !in used
  {
    n := 0;
    var rest := used;
    while rest != {}
      invariant rest <= used && forall m :: m in used && m !in rest ==> m < n
      decreases |rest|
    {
      var m :| m in rest;
      rest := rest - {m};
      n := if m < n then n else m + 1;
    }
  }
}
