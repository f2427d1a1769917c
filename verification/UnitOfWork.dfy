/** `TypeOrmTransaction` as `createOrder` uses it: the transaction object handed to the callback of `transaction`,
    and its disposal, against the order-creation machine. */
module UnitOfWork {
  import opened Domain
  import opened SequentialShop
  import opened OrderProtocol
  import opened OrderInvariant
  import opened Serializability
  import opened Database

  /** What ROLLBACK leaves of a transaction, or losing the connection while it is sent. */
  function AfterRollback(ph: Phase, returned: bool): Phase {
    if !Open(ph) then ph
    else Finished(if returned && Answer(ph).Some? then Answer(ph).value else Failed)
  }

  /** The server's part of a rollback: an open transaction ends without a trace in the tables. */
  method EndOnServer(db: Postgres, t: TxId, returned: bool)
    requires db.Valid() && t in db.s.txs
    modifies db`s, db`trace
    ensures db.Valid() && old(db.trace) <= db.trace && t in db.s.txs
    ensures db.s.txs[t] == old(db.s.txs[t]).(phase := AfterRollback(old(db.s.txs[t].phase), returned))
    ensures db.s.products == old(db.s.products) && db.s.orders == old(db.s.orders)
    ensures db.s.busy == old(db.s.busy) && db.TallyOf(t) == old(db.TallyOf(t)) && db.StaysQuiet(t)
  {
    var ph := db.s.txs[t].phase;
    if Open(ph) {
      db.Do(if returned && (ph.Throwing? || ph.Recovered?) then OrderProtocol.Rollback(t) else Abort(t));
    }
  }

  /** `runner.rollbackTransaction()`. */
  method RollbackOnServer(db: Postgres, t: TxId) returns (ok: bool)
    requires db.Valid() && t in db.s.txs
    modifies db
    ensures db.Valid() && old(db.trace) <= db.trace && t in db.s.txs
    ensures db.s.txs[t] == old(db.s.txs[t]).(phase := AfterRollback(old(db.s.txs[t].phase), ok))
    ensures (t in db.s.busy <==> t in old(db.s).busy) && db.TallyOf(t) == old(db.TallyOf(t))
    ensures db.StaysQuiet(t) && (ok <==> db.NoneThrown())
  {
    db.Await(t);
    var throws := db.Throws();
    ok := !throws;
    EndOnServer(db, t, ok);
  }

  /** The server's part of a commit. A lost acknowledgement is an error to the client. */
  method CommitOnServer(db: Postgres, t: TxId) returns (ok: bool)
    requires db.Valid() && t in db.s.txs && db.s.txs[t].phase.Written?
    modifies db
    ensures db.Valid() && old(db.trace) <= db.trace && t in db.s.txs
    ensures (t in db.s.busy <==> t in old(db.s).busy) && db.TallyOf(t) == old(db.TallyOf(t))
    ensures db.StaysQuiet(t) && (ok <==> db.NoneThrown())
    ensures var before, tx := old(db.s.txs[t]), db.s.txs[t];
            && tx.req == before.req
            && (ok ==> tx.phase == Committed(OrderOf(before.req, before.phase)))
            && (!ok ==> tx == before || tx.phase == Finished(Failed))
  {
    db.Await(t);
    var throws := db.Throws();
    ok := !throws;
    if ok {
      db.Do(OrderProtocol.Commit(t));
    } else if * {
      db.Do(CommitUnseen(t));
    }
  }

  /** One connection more was released, or lost. */
  function GivenBack(y: Tally, released: bool): Tally {
    if released then y.(released := y.released + 1) else y.(lost := y.lost + 1)
  }

  class TypeOrmTransaction {
    const db: Postgres
    const t: TxId
    var finished: bool
    var released: bool

    /** `finished` is only set once the server has closed the transaction. */
    ghost predicate Valid()
      reads this, db
    {
      db.Valid() && t in db.s.txs && (finished ==> !Open(db.s.txs[t].phase)) && (released ==> t !in db.s.busy)
    }

    /** `runner.connect()` and `runner.startTransaction()`, with a connection of the pool. */
    constructor (db: Postgres, t: TxId, req: Request)
      requires db.Valid() && t !in db.s.txs && HasFree(db.s)
      modifies db
      ensures this.db == db && this.t == t && !finished && !released
      ensures Valid() && db.s.txs[t] == Tx(req, Started) && t in db.s.busy && old(db.trace) <= db.trace
      ensures db.TallyOf(t) == old(db.TallyOf(t))
      ensures db.s == old(db.s).(txs := old(db.s).txs[t := Tx(req, Started)], busy := old(db.s).busy + {t})
      ensures db.StaysQuiet(t) && db.NoneThrown()
    {
      this.db, this.t, this.finished, this.released := db, t, false, false;
      new;
      db.Do(Begin(t, req));
    }

    /** Nothing after `finished`. A commit that throws leaves `finished` false; the server may or may not have
        applied it. */
    method Commit() returns (ok: bool)
      requires Valid() && (finished || db.s.txs[t].phase.Written?)
      modifies this`finished, db
      ensures Valid() && old(db.trace) <= db.trace && ok == finished
      ensures (t in db.s.busy <==> t in old(db.s).busy) && db.TallyOf(t) == old(db.TallyOf(t))
      ensures db.StaysQuiet(t) && (ok <==> db.NoneThrown())
      ensures old(finished) ==> ok && db.trace == old(db.trace) && db.s == old(db.s)
      ensures var before, tx := old(db.s.txs[t]), db.s.txs[t];
              !old(finished) ==>
                && tx.req == before.req
                && (ok ==> tx.phase == Committed(OrderOf(before.req, before.phase)))
                && (!ok ==> tx == before || tx.phase == Finished(Failed))
    {
      if finished {
        return true;
      }
      ok := CommitOnServer(db, t);
      finished := ok;
    }

    /** A rollback that throws has lost its connection: the server drops the transaction, `finished` stays false. */
    method Rollback() returns (ok: bool)
      requires Valid()
      modifies this`finished, db
      ensures Valid() && old(db.trace) <= db.trace && (ok ==> finished)
      ensures (t in db.s.busy <==> t in old(db.s).busy) && db.TallyOf(t) == old(db.TallyOf(t))
      ensures db.StaysQuiet(t) && (ok <==> db.NoneThrown()) && (old(finished) ==> ok)
      ensures db.s.txs[t] == old(db.s.txs[t]).(phase := AfterRollback(old(db.s.txs[t].phase), ok))
    {
      if finished {
        return true;
      }
      ok := RollbackOnServer(db, t);
      finished := ok;
    }

    /** The connection is given back; if that throws it is lost to the pool. */
    method Dispose() returns (ok: bool)
      requires Valid() && !Open(db.s.txs[t].phase) && (released || t in db.s.busy)
      modifies this`released, db
      ensures Valid() && old(db.trace) <= db.trace && db.s.txs[t] == old(db.s.txs[t])
      ensures t !in db.s.busy && ok == released
      ensures db.TallyOf(t) == if old(released) then old(db.TallyOf(t)) else GivenBack(old(db.TallyOf(t)), ok)
      ensures db.StaysQuiet(t) && (ok <==> db.NoneThrown()) && (old(released) ==> ok)
    {
      if released {
        return true;
      }
      ok := GiveBack();
      released := ok;
    }

    /** `runner.release()`. */
    method GiveBack() returns (ok: bool)
      requires db.Valid() && t in db.s.txs && !Open(db.s.txs[t].phase) && t in db.s.busy
      modifies db
      ensures db.Valid() && old(db.trace) <= db.trace && t in db.s.txs && db.s.txs[t] == old(db.s.txs[t])
      ensures t !in db.s.busy && db.TallyOf(t) == GivenBack(old(db.TallyOf(t)), ok)
      ensures db.StaysQuiet(t) && (ok <==> db.NoneThrown())
    {
      db.Await(t);
      var throws := db.Throws();
      ok := !throws;
      if throws {
        Lose();
      } else {
        db.Do(Release(t));
      }
    }

    /** No release follows: the pool has one connection less. */
    method Lose()
      requires db.Valid() && t in db.s.txs && !Open(db.s.txs[t].phase) && t in db.s.busy
      modifies db
      ensures db.Valid() && old(db.trace) <= db.trace && db.s.txs == old(db.s.txs)
      ensures db.TallyOf(t) == GivenBack(old(db.TallyOf(t)), false) && db.NoneThrown()
      ensures db.s.busy == old(db.s.busy) - {t} && db.s.pool == old(db.s.pool) - 1
    {
      RunKeepsPool(db.base, db.trace);
      assert |{t}| <= |db.s.busy| by {
        assert db.s.busy == {t} + (db.s.busy - {t});
      }
      db.Do(Strand(t));
    }

    /** Disposal at the end of `transaction`, after the callback returned or threw. Whatever the callback did,
        the transaction is closed: a commit stays, anything else is discarded with its key and its locks. The
        connection goes back to the pool; a rollback or release that throws loses it. */
    method AsyncDispose() returns (ok: bool)
      requires Valid() && !released && t in db.s.busy
      modifies this, db
      ensures Valid() && old(db.trace) <= db.trace && (ok ==> finished) && ok == released
      ensures ok <==> db.NoneThrown()
      ensures t !in db.s.busy && db.TallyOf(t) == GivenBack(old(db.TallyOf(t)), ok) && db.StaysQuiet(t)
      ensures var before, tx := old(db.s.txs[t]), db.s.txs[t];
              && !Open(tx.phase) && !HoldsKey(tx.phase) && Rows(tx.phase) == map[] && tx.req == before.req
              && (!Open(before.phase) ==> tx == before)
              && (Open(before.phase) ==> tx.phase == Finished(Failed) || tx.phase == AfterRollback(before.phase, true))
              && (ok && Open(before.phase) ==>
                    tx.phase == Finished(if Answer(before.phase).Some? then Answer(before.phase).value else Failed))
    {
      ok := Rollback();
      if ok {
        ok := Dispose();
      } else {
        Lose();
      }
    }
  }
}
