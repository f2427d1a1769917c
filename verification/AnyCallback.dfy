/** The unit of work under an arbitrary callback: what `transaction` leaves in the tables for every callback, every
    outcome of every statement, and every point where the callback returns or throws. */
module AnyCallback {
  datatype Statement<W> = Read | Write(w: W) | Commit | Rollback

  /** What a callback does next may depend on whether a statement returned or threw. An error it does not catch is
      `Throw`. */
  datatype Callback<W> = Return | Throw | Then(stmt: Statement<W>, returned: Callback<W>, threw: Callback<W>)

  /** What becomes of a statement: the server accepts or refuses it, or the connection is cut before or after the
      server has acted. */
  datatype Wire = Accepted | Refused | CutBefore | CutAfter

  /** The server's side of the connection. `Idle` is outside any transaction: each statement commits by itself. */
  datatype Session<W> = InTransaction(writes: seq<W>) | Aborted | Idle | Lost

  /** The new session, what comes into the tables, and whether the client sees the statement return. */
  datatype Answer<W> = Answer(session: Session<W>, added: seq<W>, ok: bool)

  function Serve<W>(session: Session<W>, stmt: Statement<W>, wire: Wire): Answer<W> {
    if session.Lost? then Answer(Lost, [], false)
    else
      match stmt
      case Read =>
        if wire.CutBefore? || wire.CutAfter? then Answer(Lost, [], false)
        else if session.Aborted? then Answer(Aborted, [], false)
        else if wire.Accepted? then Answer(session, [], true)
        else Answer(if session.Idle? then Idle else Aborted, [], false)
      case Write(w) =>
        if session.Idle? then
          match wire
          case Accepted => Answer(Idle, [w], true)
          case Refused => Answer(Idle, [], false)
          case CutBefore => Answer(Lost, [], false)
          case CutAfter => Answer(Lost, [w], false)
        else if wire.CutBefore? || wire.CutAfter? then Answer(Lost, [], false)
        else if session.InTransaction? && wire.Accepted? then Answer(InTransaction(session.writes + [w]), [], true)
        else Answer(Aborted, [], false)
      case Commit =>
        // COMMIT of an aborted transaction discards it and returns; outside a transaction it does nothing
        var writes := if session.InTransaction? then session.writes else [];
        match wire {
          case Accepted => Answer(Idle, writes, true)
          case Refused => Answer(Idle, [], !session.InTransaction?)
          case CutBefore => Answer(Lost, [], false)
          case CutAfter => Answer(Lost, writes, false)
        }
      case Rollback =>
        if wire.CutBefore? || wire.CutAfter? then Answer(Lost, [], false) else Answer(Idle, [], true)
  }

  /** A transaction object and what its connection has left in the tables, in commit order. `issued` are the writes
      the callback has sent before a COMMIT was applied, `committed` says whether one was. */
  datatype Scope<W> = Scope(tables: seq<W>, session: Session<W>, finished: bool, issued: seq<W>, committed: bool)

  function Fresh<W>(): Scope<W> {
    Scope([], InTransaction([]), false, [], false)
  }

  predicate Applies<W>(x: Scope<W>, stmt: Statement<W>, wire: Wire) {
    stmt.Commit? && x.session.InTransaction? && (wire.Accepted? || wire.CutAfter?)
  }

  /** One statement of the callback. After `finished` commit and rollback do nothing. */
  function After1<W>(x: Scope<W>, stmt: Statement<W>, wire: Wire): (Scope<W>, bool) {
    if (stmt.Commit? || stmt.Rollback?) && x.finished then (x, true)
    else
      var a := Serve(x.session, stmt, wire);
      (Scope(x.tables + a.added, a.session, x.finished || (a.ok && (stmt.Commit? || stmt.Rollback?)),
             if stmt.Write? && !x.committed && !x.session.Idle? then x.issued + [stmt.w] else x.issued,
             x.committed || Applies(x, stmt, wire)),
       a.ok)
  }

  function First(wires: seq<Wire>): Wire {
    if wires == [] then Accepted else wires[0]
  }

  function Rest(wires: seq<Wire>): seq<Wire> {
    if wires == [] then [] else wires[1..]
  }

  /** The callback to its end. */
  function After<W>(x: Scope<W>, cb: Callback<W>, wires: seq<Wire>): Scope<W>
    decreases cb
  {
    match cb
    case Return => x
    case Throw => x
    case Then(stmt, returned, threw) =>
      var (x', ok) := After1(x, stmt, First(wires));
      After(x', if ok then returned else threw, Rest(wires))
  }

  /** Whether the callback returns, or throws. */
  predicate Returns<W>(x: Scope<W>, cb: Callback<W>, wires: seq<Wire>)
    decreases cb
  {
    match cb
    case Return => true
    case Throw => false
    case Then(stmt, returned, threw) =>
      var (x', ok) := After1(x, stmt, First(wires));
      Returns(x', if ok then returned else threw, Rest(wires))
  }

  /** `transaction(cb)` resolves: the callback has returned, its connection was rolled back unless it had finished, and
      the release was accepted. */
  predicate Resolves<W>(cb: Callback<W>, wires: seq<Wire>, last: Wire, release: Wire) {
    Returns(Fresh(), cb, wires) && After1(After(Fresh(), cb, wires), Rollback, last).1 && release.Accepted?
  }

  /** What `transaction(cb)` leaves: the callback, then the disposal. */
  function Left<W>(cb: Callback<W>, wires: seq<Wire>, last: Wire): Scope<W> {
    After1(After(Fresh(), cb, wires), Rollback, last).0
  }

  // ---- What every callback gets --------------------------------------------------------------------------------

  /** Disposal never undoes a commit, never applies anything, and leaves no transaction open. */
  lemma DisposalKeepsTables<W>(cb: Callback<W>, wires: seq<Wire>, last: Wire)
    ensures var x := After(Fresh(), cb, wires);
            && Left(cb, wires, last)
            == x.(session := Left(cb, wires, last).session, finished := Left(cb, wires, last).finished)
            && (Left(cb, wires, last).session.Idle? || Left(cb, wires, last).session.Lost?)
  {
    FinishedIsClosed(Fresh(), cb, wires);
  }

  lemma {:induction false} FinishedIsClosed<W>(x: Scope<W>, cb: Callback<W>, wires: seq<Wire>)
    requires x.finished ==> x.session.Idle? || x.session.Lost?
    ensures After(x, cb, wires).finished ==> After(x, cb, wires).session.Idle? || After(x, cb, wires).session.Lost?
    decreases cb
  {
    if cb.Then? {
      var (x', ok) := After1(x, cb.stmt, First(wires));
      FinishedIsClosed(x', if ok then cb.returned else cb.threw, Rest(wires));
    }
  }

  /** What a COMMIT has applied stays applied, whatever the callback and the disposal do next. */
  lemma {:induction false} CommitStays<W>(x: Scope<W>, cb: Callback<W>, wires: seq<Wire>, last: Wire)
    ensures x.tables <= After(x, cb, wires).tables <= After1(After(x, cb, wires), Rollback, last).0.tables
    ensures x.committed ==> After(x, cb, wires).committed && After(x, cb, wires).issued == x.issued
    decreases cb
  {
    if cb.Then? {
      var (x', ok) := After1(x, cb.stmt, First(wires));
      CommitStays(x', if ok then cb.returned else cb.threw, Rest(wires), last);
    }
  }

  /** All or nothing: every write the callback sent before its COMMIT was applied, and otherwise none. */
  ghost predicate Kept<W>(x: Scope<W>) {
    x.tables == if x.committed then x.issued else []
  }

  ghost predicate AllOrNothing<W>(cb: Callback<W>) {
    forall wires, last :: Kept(Left(cb, wires, last))
  }

  // ---- The exact condition ---------------------------------------------------------------------------------------

  /** Where the transaction of a callback can stand: open, open with a failed statement, or ended on the server. */
  datatype Stage = Working | Broken | Closed

  /** No write can follow a commit or rollback that has ended the transaction. A caller can read this off the
      callback; it takes into account which statements can return and which can throw. */
  predicate NoLateWrite<W>(cb: Callback<W>, stage: Stage)
    decreases cb
  {
    match cb
    case Return => true
    case Throw => true
    case Then(stmt, returned, threw) =>
      match stage
      case Working =>
        (match stmt
         case Commit => NoLateWrite(returned, Closed) && NoLateWrite(threw, Closed)   // a refused COMMIT ends it too
         case Rollback => NoLateWrite(returned, Closed)
         case _ => NoLateWrite(returned, Working) && NoLateWrite(threw, Broken))
      case Broken =>
        if stmt.Commit? || stmt.Rollback? then NoLateWrite(returned, Closed) else NoLateWrite(threw, Broken)
      case Closed =>
        && !stmt.Write?
        && NoLateWrite(returned, Closed)
        && (stmt.Read? ==> NoLateWrite(threw, Closed))
  }

  /** The stage a connection shows; a lost one takes no writes any more. */
  predicate AtStage<W>(x: Scope<W>, stage: Stage) {
    match stage
    case Working => x.session.InTransaction?
    case Broken => x.session.Aborted?
    case Closed => x.session.Idle?
  }

  /** What holds of a transaction no late write of which has taken effect. */
  ghost predicate Sound<W>(x: Scope<W>) {
    && Kept(x)
    && (x.finished ==> x.session.Idle? || x.session.Lost?)
    && (x.session.InTransaction? ==> !x.committed && x.issued == x.session.writes)
    && (x.session.Aborted? ==> !x.committed)
  }

  lemma {:induction false} GuardedStaysSound<W>(x: Scope<W>, stage: Stage, cb: Callback<W>, wires: seq<Wire>)
    requires Sound(x) && (x.session.Lost? || (AtStage(x, stage) && NoLateWrite(cb, stage)))
    ensures Sound(After(x, cb, wires))
    decreases cb
  {
    if cb.Then? {
      var (x', ok) := After1(x, cb.stmt, First(wires));
      var stage' := if x'.session.InTransaction? then Working else if x'.session.Aborted? then Broken else Closed;
      GuardedStaysSound(x', stage', if ok then cb.returned else cb.threw, Rest(wires));
    }
  }

  /** A write has taken effect outside the transaction. */
  predicate Leaked<W>(x: Scope<W>) {
    (x.session.Idle? || x.session.Lost?) && |x.tables| > if x.committed then |x.issued| else 0
  }

  lemma {:induction false} LeakedStaysLeaked<W>(x: Scope<W>, cb: Callback<W>, wires: seq<Wire>)
    requires Leaked(x)
    ensures Leaked(After(x, cb, wires)) && !Kept(After(x, cb, wires))
    decreases cb
  {
    if cb.Then? {
      var (x', ok) := After1(x, cb.stmt, First(wires));
      LeakedStaysLeaked(x', if ok then cb.returned else cb.threw, Rest(wires));
    }
  }

  /** The outcome of the next statement on the way to a late write. */
  function WayTo<W>(stage: Stage, cb: Callback<W>): Wire
    requires cb.Then?
  {
    if stage.Working? && (cb.stmt.Read? || cb.stmt.Write?) && NoLateWrite(cb.returned, Working) then Refused
    else if stage.Working? && cb.stmt.Commit? && NoLateWrite(cb.returned, Closed) then Refused
    else if stage.Closed? && cb.stmt.Read? && NoLateWrite(cb.returned, Closed) then Refused
    else Accepted
  }

  /** If a late write is possible, some outcomes of the statements lead to it. */
  lemma {:induction false} LateWriteLeaks<W>(x: Scope<W>, stage: Stage, cb: Callback<W>) returns (wires: seq<Wire>)
    requires Sound(x) && AtStage(x, stage) && !NoLateWrite(cb, stage)
    ensures !Kept(After(x, cb, wires))
    decreases cb
  {
    var wire := WayTo(stage, cb);
    var (x', ok) := After1(x, cb.stmt, wire);
    var next := if ok then cb.returned else cb.threw;
    var rest: seq<Wire> := [];
    if stage.Closed? && cb.stmt.Write? {
      LeakedStaysLeaked(x', next, rest);
    } else {
      var stage' := if x'.session.InTransaction? then Working else if x'.session.Aborted? then Broken else Closed;
      rest := LateWriteLeaks(x', stage', next);
    }
    wires := [wire] + rest;
    assert Rest(wires) == rest;
  }

  /** `transaction` is all or nothing for every outcome of every statement exactly if the callback cannot write after
      a commit or rollback that has ended its transaction. Such a write commits by itself and survives the disposal. */
  lemma AllOrNothingExactly<W>(cb: Callback<W>)
    ensures AllOrNothing(cb) <==> NoLateWrite(cb, Working)
  {
    if NoLateWrite(cb, Working) {
      forall wires, last ensures Kept(Left(cb, wires, last)) {
        GuardedStaysSound(Fresh(), Working, cb, wires);
        DisposalKeepsTables(cb, wires, last);
      }
    } else {
      var wires := LateWriteLeaks(Fresh(), Working, cb);
      DisposalKeepsTables(cb, wires, Accepted);
      assert !Kept(Left(cb, wires, Accepted));
    }
  }

  /** The callback of `createOrder`: an error of the insert may be answered with the existing order (`known`), the
      loop may throw (`!enough`), every other error is thrown, and nothing follows the commit. */
  function CreateOrder<W>(order: W, items: W, products: W, known: bool, enough: bool): Callback<W> {
    Then(Write(order),
      Then(Read,
        if enough then Then(Write(items), Then(Write(products), ReadAndCommit(), Throw), Throw) else Throw,
        Throw),
      if known then Return else Throw)
  }

  function ReadAndCommit<W>(): Callback<W> {
    Then(Read, Then(Commit, Return, Throw), Throw)
  }

  lemma CreateOrderIsAllOrNothing<W>(order: W, items: W, products: W, known: bool, enough: bool)
    ensures AllOrNothing(CreateOrder(order, items, products, known, enough))
  {
    AllOrNothingExactly(CreateOrder(order, items, products, known, enough));
    var stop: Callback<W> := Throw;
    var end: Callback<W> := Then(Commit, Return, stop);
    assert NoLateWrite(stop, Working) && NoLateWrite(stop, Broken);
    assert NoLateWrite(end, Working);
    assert NoLateWrite(ReadAndCommit<W>(), Working);
    var save := Then(Write(products), ReadAndCommit(), stop);
    assert NoLateWrite(save, Working);
    assert NoLateWrite(Then(Write(items), save, stop), Working);
  }

  /** A statement whose error is not caught has returned if the callback returns. */
  lemma StepReturns<W>(x: Scope<W>, stmt: Statement<W>, next: Callback<W>, wires: seq<Wire>) returns (x': Scope<W>)
    requires Returns(x, Then(stmt, next, Throw), wires)
    ensures After1(x, stmt, First(wires)) == (x', true) && Returns(x', next, Rest(wires))
    ensures After(x, Then(stmt, next, Throw), wires) == After(x', next, Rest(wires))
  {
    x' := After1(x, stmt, First(wires)).0;
  }

  /** ... and if it returns it has committed, or answered with the existing order after its insert threw. */
  lemma CreateOrderReturns<W>(order: W, items: W, products: W, known: bool, enough: bool, wires: seq<Wire>)
    requires Returns(Fresh(), CreateOrder(order, items, products, known, enough), wires)
    ensures var x := After(Fresh(), CreateOrder(order, items, products, known, enough), wires);
            if First(wires).Accepted? then enough && x.committed && x.tables == [order, items, products]
            else known && !x.committed && x.tables == []
  {
    if First(wires).Accepted? {
      var end: Callback<W> := Then(Commit, Return, Throw);
      var save := Then(Write(products), ReadAndCommit(), Throw);
      var w1 := Rest(wires);
      var x1 := After1(Fresh(), Write(order), First(wires)).0;
      var x2 := StepReturns(x1, Read, if enough then Then(Write(items), save, Throw) else Throw, w1);
      var x3 := StepReturns(x2, Write(items), save, Rest(w1));
      var x4 := StepReturns(x3, Write(products), ReadAndCommit(), Rest(Rest(w1)));
      var x5 := StepReturns(x4, Read, end, Rest(Rest(Rest(w1))));
      var x6 := StepReturns(x5, Commit, Return, Rest(Rest(Rest(Rest(w1)))));
    }
  }

  /** The other side: a callback that writes once more after its commit is not, and neither is one that goes on
      after a rollback. */
  lemma WritingOnIsNotAllOrNothing<W>(first: W, second: W)
    ensures !AllOrNothing(Then(Write(first), Then(Commit, Then(Write(second), Return, Throw), Throw), Throw))
    ensures !AllOrNothing(Then(Rollback, Then(Write(second), Return, Throw), Throw))
  {
    var late := Then(Write(second), Return, Throw);
    AllOrNothingExactly(Then(Write(first), Then(Commit, late, Throw), Throw));
    AllOrNothingExactly(Then(Rollback, late, Throw));
    assert !NoLateWrite(late, Closed);
    assert !NoLateWrite(Then(Commit, late, Throw), Working);
  }

  // ---- The code --------------------------------------------------------------------------------------------------

  class TypeOrmTransaction<W> {
    var tables: seq<W>
    var session: Session<W>
    var finished: bool
    var isReleased: bool
    ghost var issued: seq<W>
    ghost var committed: bool

    ghost function Value(): Scope<W>
      reads this
    {
      Scope(tables, session, finished, issued, committed)
    }

    constructor ()
      ensures Value() == Fresh() && !isReleased
    {
      tables, session, finished, isReleased, issued, committed := [], InTransaction([]), false, false, [], false;
    }

    /** A statement on the connection of the transaction. */
    method Query(stmt: Statement<W>, wire: Wire) returns (ok: bool)
      modifies this`tables, this`session, this`issued, this`committed
      ensures var a := Serve(old(session), stmt, wire);
              ok == a.ok && session == a.session && tables == old(tables) + a.added
      ensures issued == if stmt.Write? && !old(committed) && !old(session).Idle? then old(issued) + [stmt.w]
                        else old(issued)
      ensures committed == (old(committed) || Applies(old(Value()), stmt, wire))
    {
      if stmt.Write? && !committed && !session.Idle? {
        issued := issued + [stmt.w];
      }
      committed := committed || Applies(Value(), stmt, wire);
      var a := Serve(session, stmt, wire);
      session, tables, ok := a.session, tables + a.added, a.ok;
    }

    method Commit(wire: Wire) returns (ok: bool)
      modifies this`tables, this`session, this`finished, this`issued, this`committed
      ensures (Value(), ok) == After1(old(Value()), Statement.Commit, wire)
    {
      if finished {
        return true;
      }
      ok := Query(Statement.Commit, wire);
      finished := ok;
    }

    method Rollback(wire: Wire) returns (ok: bool)
      modifies this`tables, this`session, this`finished, this`issued, this`committed
      ensures (Value(), ok) == After1(old(Value()), Statement.Rollback, wire)
    {
      if finished {
        return true;
      }
      ok := Query(Statement.Rollback, wire);
      finished := ok;
    }

    method Dispose(wire: Wire) returns (ok: bool)
      modifies this`isReleased
      ensures ok == isReleased == (old(isReleased) || wire.Accepted?)
    {
      if isReleased {
        return true;
      }
      isReleased := wire.Accepted?;
      ok := isReleased;
    }

    /** A rollback that throws is not followed by the release. */
    method AsyncDispose(last: Wire, release: Wire) returns (ok: bool)
      requires !isReleased
      modifies this
      ensures Value() == After1(old(Value()), Statement.Rollback, last).0
      ensures ok == isReleased == (After1(old(Value()), Statement.Rollback, last).1 && release.Accepted?)
    {
      ok := Rollback(last);
      if ok {
        ok := Dispose(release);
      }
    }

    /** The callback, statement by statement. */
    method Run(cb: Callback<W>, wires: seq<Wire>) returns (returned: bool)
      modifies this`tables, this`session, this`finished, this`issued, this`committed
      ensures Value() == After(old(Value()), cb, wires)
      ensures returned <==> Returns(old(Value()), cb, wires)
    {
      var rest, left := cb, wires;
      while rest.Then?
        invariant After(Value(), rest, left) == After(old(Value()), cb, wires)
        invariant Returns(Value(), rest, left) == Returns(old(Value()), cb, wires)
        decreases rest
      {
        var ok: bool;
        if rest.stmt.Commit? {
          ok := Commit(First(left));
        } else if rest.stmt.Rollback? {
          ok := Rollback(First(left));
        } else {
          ok := Query(rest.stmt, First(left));
        }
        if ok {
          rest := rest.returned;
        } else {
          rest := rest.threw;
        }
        left := Rest(left);
      }
      returned := rest.Return?;
    }
  }

  /** `uow.transaction(cb)`. Whatever the callback does and wherever it fails, the disposal leaves no transaction
      open and the tables as the callback left them; for a callback without late writes that is all or nothing. */
  method Transaction<W>(cb: Callback<W>, wires: seq<Wire>, last: Wire, release: Wire)
    returns (ok: bool, tx: TypeOrmTransaction<W>)
    ensures tx.Value() == Left(cb, wires, last) && tx.tables == After(Fresh(), cb, wires).tables
    ensures tx.session.Idle? || tx.session.Lost?
    ensures NoLateWrite(cb, Working) ==> tx.tables == if tx.committed then tx.issued else []
    ensures ok <==> Resolves(cb, wires, last, release)
    ensures tx.isReleased <==> After1(After(Fresh(), cb, wires), Rollback, last).1 && release.Accepted?
  {
    tx := new TypeOrmTransaction<W>();
    var returned := tx.Run(cb, wires);
    var disposed := tx.AsyncDispose(last, release);
    ok := returned && disposed;
    DisposalKeepsTables(cb, wires, last);
    AllOrNothingExactly(cb);
    if NoLateWrite(cb, Working) {
      assert Kept(Left(cb, wires, last));
    }
  }
}
