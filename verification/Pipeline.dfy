/** Both halves together: the orders committed by `createOrder` are the orders the worker updates, and the
    message sent after a commit is the message the worker handles. */
module Pipeline {
  import opened Domain
  import opened SequentialShop
  import A = OrderProtocol
  import AI = OrderInvariant
  import B = WorkerProtocol
  import BI = WorkerInvariant
  import BS = WorkerSafety
  import BA = WorkerAccounting

  datatype State = State(a: A.State, b: B.State)

  /** A step of the API (`copy` names the copy a send creates) or of the broker and the workers. A `Publish` of
      the worker side is the debug endpoint. */
  datatype Label =
    | Api(al: A.Label, copy: B.CopyId)
    | Work(bl: B.Label)

  function IdsOf(orders: seq<Order>): set<OrderId> {
    set i | 0 <= i < |orders| :: orders[i].id
  }

  predicate Init(s: State) {
    A.Init(s.a) && B.Init(s.b) && s.b.rows.Keys == IdsOf(s.a.orders)
  }

  /** What an API step means for the other half: a commit makes the order row visible to the worker, a send puts
      `new ProcessOrderMessageDto(order.id, order.id)` in the queue. */
  function Effect(s: State, l: A.Label, copy: B.CopyId): Option<B.Label>
    requires A.Enabled(s.a, l)
  {
    if l.Commit? || l.CommitUnseen? then Some(B.CreateOrder(s.a.txs[l.t].phase.oid))
    else if l.Publish? then
      var oid := s.a.txs[l.t].phase.order.id;
      Some(B.Publish(copy, B.Msg(oid, oid, 1, None), true))
    else None
  }

  predicate Enabled(s: State, l: Label) {
    match l
    case Api(al, copy) =>
      A.Enabled(s.a, al) && (Effect(s, al, copy).Some? ==> B.Enabled(s.b, Effect(s, al, copy).value))
    case Work(bl) => !bl.CreateOrder? && B.Enabled(s.b, bl)
  }

  /** The step of the worker side that is part of a step. */
  function BPart(s: State, l: Label): Option<B.Label>
    requires Enabled(s, l)
  {
    if l.Work? then Some(l.bl) else Effect(s, l.al, l.copy)
  }

  function Step(s: State, l: Label): State {
    if !Enabled(s, l) then s
    else State(
        if l.Api? then A.Next(s.a, l.al) else s.a,
        if BPart(s, l).Some? then B.Next(s.b, BPart(s, l).value) else s.b)
  }

  function Exec(s: State, run: seq<Label>): State
    decreases |run|
  {
    if run == [] then s else Step(Exec(s, run[..|run| - 1]), run[|run| - 1])
  }

  // ---- The halves of a run are runs of the halves -------------------------------------------------------

  lemma StepProjects(s: State, l: Label, base: State, ra: seq<A.Label>, rb: seq<B.Label>)
    returns (ra': seq<A.Label>, rb': seq<B.Label>)
    requires s.a == A.Exec(base.a, ra) && s.b == B.Exec(base.b, rb)
    ensures Step(s, l).a == A.Exec(base.a, ra')
    ensures Step(s, l).b == B.Exec(base.b, rb')
  {
    ra', rb' := ra, rb;
    if Enabled(s, l) {
      if l.Api? {
        A.ExecSnoc(base.a, ra, l.al);
        ra' := ra + [l.al];
      }
      if BPart(s, l).Some? {
        B.ExecSnoc(base.b, rb, BPart(s, l).value);
        rb' := rb + [BPart(s, l).value];
      }
    }
  }

  /** Everything proved of all runs of one half holds of that half of the pipeline. */
  lemma {:induction false} Projects(base: State, run: seq<Label>) returns (ra: seq<A.Label>, rb: seq<B.Label>)
    ensures Exec(base, run).a == A.Exec(base.a, ra)
    ensures Exec(base, run).b == B.Exec(base.b, rb)
    decreases |run|
  {
    ra, rb := [], [];
    if run != [] {
      ra, rb := Projects(base, run[..|run| - 1]);
      ra, rb := StepProjects(Exec(base, run[..|run| - 1]), run[|run| - 1], base, ra, rb);
    }
  }

  lemma ExecSnoc(base: State, run: seq<Label>, l: Label)
    ensures Exec(base, run + [l]) == Step(Exec(base, run), l)
  {
  }

  /** A run can be continued from where it stands, on both levels. */
  lemma {:induction false} ExecConcat(base: State, run1: seq<Label>, run2: seq<Label>)
    ensures Exec(base, run1 + run2) == Exec(Exec(base, run1), run2)
    decreases |run2|
  {
    if run2 == [] {
      assert run1 + run2 == run1;
    } else {
      var front, l := run2[..|run2| - 1], run2[|run2| - 1];
      ExecConcat(base, run1, front);
      ExecSnoc(base, run1 + front, l);
      ExecSnoc(Exec(base, run1), front, l);
      assert run1 + run2 == (run1 + front) + [l] && run2 == front + [l];
    }
  }

  lemma {:induction false} BExecConcat(b: B.State, run1: seq<B.Label>, run2: seq<B.Label>)
    ensures B.Exec(b, run1 + run2) == B.Exec(B.Exec(b, run1), run2)
    decreases |run2|
  {
    if run2 == [] {
      assert run1 + run2 == run1;
    } else {
      BExecConcat(b, run1, run2[..|run2| - 1]);
      assert (run1 + run2)[..|run1 + run2| - 1] == run1 + run2[..|run2| - 1];
    }
  }

  // ---- The link -----------------------------------------------------------------------------------------

  /** The worker's order rows are exactly the committed orders. */
  predicate RowsAreOrders(s: State) {
    s.b.rows.Keys == IdsOf(s.a.orders)
  }

  lemma HalvesKeepInv(base: State, run: seq<Label>)
    requires Init(base)
    ensures A.Inv(Exec(base, run).a) && BI.Inv(Exec(base, run).b)
  {
    var ra, rb := Projects(base, run);
    AI.RunKeepsInv(base.a, ra);
    BI.RunKeepsInv(base.b, rb);
  }

  lemma WorkKeepsRows(s: State, l: Label)
    requires RowsAreOrders(s) && BI.Inv(s.b) && l.Work? && Enabled(s, l)
    ensures RowsAreOrders(Step(s, l))
  {
  }

  lemma IdsSnoc(orders: seq<Order>, o: Order)
    ensures IdsOf(orders + [o]) == IdsOf(orders) + {o.id}
  {
    assert forall i :: 0 <= i < |orders| ==> (orders + [o])[i] == orders[i];
    assert (orders + [o])[|orders|] == o;
  }

  lemma ApiKeepsRows(s: State, l: Label)
    requires RowsAreOrders(s) && A.Inv(s.a) && l.Api? && Enabled(s, l)
    ensures RowsAreOrders(Step(s, l))
  {
    if l.al.Commit? || l.al.CommitUnseen? {
      IdsSnoc(s.a.orders, A.OrderOf(s.a.txs[l.al.t].req, s.a.txs[l.al.t].phase));
    }
  }

  lemma {:induction false} RowsStayOrders(base: State, run: seq<Label>)
    requires Init(base)
    ensures RowsAreOrders(Exec(base, run))
    decreases |run|
  {
    if run != [] {
      var s, l := Exec(base, run[..|run| - 1]), run[|run| - 1];
      RowsStayOrders(base, run[..|run| - 1]);
      HalvesKeepInv(base, run[..|run| - 1]);
      if Enabled(s, l) {
        if l.Work? {
          WorkKeepsRows(s, l);
        } else {
          ApiKeepsRows(s, l);
        }
      }
    }
  }

  /** The composition blocks nothing: with a fresh copy id every step of the API is one of the pipeline. */
  lemma ApiIsNeverBlocked(base: State, run: seq<Label>, l: A.Label, copy: B.CopyId)
    requires Init(base) && A.Enabled(Exec(base, run).a, l) && copy !in Exec(base, run).b.copies
    ensures Enabled(Exec(base, run), Api(l, copy))
  {
    HalvesKeepInv(base, run);
    RowsStayOrders(base, run);
    if l.Commit? || l.CommitUnseen? {
      NewIdIsNoRow(Exec(base, run), l.t);
    }
  }

  lemma NewIdIsNoRow(s: State, t: TxId)
    requires A.Inv(s.a) && RowsAreOrders(s) && t in s.a.txs && s.a.txs[t].phase.Written?
    ensures s.a.txs[t].phase.oid !in s.b.rows
  {
    assert A.HolderOk(s.a, s.a.txs[t].req, s.a.txs[t].phase);
  }

  // ---- One order, end to end ------------------------------------------------------------------------------

  /** No debug message carries `o` as message id or order id. Other debug messages may be anything. */
  predicate NoDebugAbout(run: seq<Label>, o: OrderId) {
    forall i :: 0 <= i < |run| && run[i].Work? && run[i].bl.Publish? ==>
      run[i].bl.msg.mid != o && run[i].bl.msg.orderId != o
  }

  predicate About(m: B.Msg, o: OrderId) {
    m.mid == o || m.orderId == o
  }

  /** The message of `createOrder` about `o`, sent with attempt 1 and parsed. */
  predicate IsSent(s: State, cp: B.Copy, o: OrderId) {
    && cp.msg.mid == o && cp.msg.orderId == o && cp.msg.simulateFailure.None? && cp.readable && cp.first == 1
    && o in s.a.outbox
  }

  /** A live copy of that message, at an attempt between the first and the retry limit. */
  predicate HasPending(b: B.State, o: OrderId) {
    exists d :: d in b.copies && BS.Live(b.copies[d])
                && b.copies[d].msg == B.Msg(o, o, b.copies[d].msg.attempt, None)
                && 1 <= b.copies[d].msg.attempt <= BI.Max(1, b.config.maxRetries)
  }

  predicate HasMessage(copies: map<B.CopyId, B.Copy>, mid: B.MessageId) {
    exists c :: c in copies && copies[c].msg.mid == mid
  }

  /** Every message about the order is the one of `createOrder`, and if that was sent it is in the broker. */
  predicate MessageIsSent(s: State, o: OrderId) {
    && (forall c :: c in s.b.copies && About(s.b.copies[c].msg, o) ==> IsSent(s, s.b.copies[c], o))
    && (o in s.a.outbox ==> HasMessage(s.b.copies, o))
  }

  lemma EvolvingKeepsMessage(s: State, b': B.State, o: OrderId)
    requires MessageIsSent(s, o) && BI.Evolves(s.b, b')
    requires forall c :: c in b'.copies && c !in s.b.copies ==> b'.copies[c].parent.Some?
    ensures MessageIsSent(State(s.a, b'), o)
  {
    forall c | c in b'.copies && About(b'.copies[c].msg, o) ensures IsSent(State(s.a, b'), b'.copies[c], o) {
      var c0 := if c in s.b.copies then c else b'.copies[c].parent.value;
      assert c !in s.b.copies ==> BI.NewCopy(s.b, b'.copies[c]);
      assert IsSent(s, s.b.copies[c0], o);
    }
    if c :| c in s.b.copies && s.b.copies[c].msg.mid == o {
      assert b'.copies[c].msg.mid == o;
    }
  }

  lemma WorkKeepsMessage(s: State, bl: B.Label, o: OrderId)
    requires MessageIsSent(s, o) && B.Enabled(s.b, bl) && !bl.Publish?
    ensures MessageIsSent(State(s.a, B.Next(s.b, bl)), o)
  {
    BI.StepEvolves(s.b, bl);
    EvolvingKeepsMessage(s, B.Next(s.b, bl), o);
  }

  /** A message about something else, from the debug endpoint or about another order. */
  lemma OtherMessageKeepsMessage(s: State, s': State, copy: B.CopyId, cp: B.Copy, o: OrderId)
    requires MessageIsSent(s, o) && copy !in s.b.copies && s'.b.copies == s.b.copies[copy := cp] && !About(cp.msg, o)
    requires o in s'.a.outbox <==> o in s.a.outbox
    ensures MessageIsSent(s', o)
  {
    if c :| c in s.b.copies && s.b.copies[c].msg.mid == o {
      assert s'.b.copies[c].msg.mid == o;
    }
  }

  lemma SendIs(s: State, t: TxId, copy: B.CopyId)
    requires Enabled(s, Api(A.Publish(t), copy))
    ensures copy !in s.b.copies
    ensures Step(s, Api(A.Publish(t), copy)).a.outbox == s.a.outbox + [s.a.txs[t].phase.order.id]
    ensures var oid := s.a.txs[t].phase.order.id;
            var cp := B.Copy(B.Msg(oid, oid, 1, None), true, None, 1, B.Ready);
            Step(s, Api(A.Publish(t), copy)).b.copies == s.b.copies[copy := cp]
  {
  }

  lemma SendKeepsMessage(s: State, t: TxId, copy: B.CopyId, o: OrderId)
    requires MessageIsSent(s, o) && Enabled(s, Api(A.Publish(t), copy))
    ensures MessageIsSent(Step(s, Api(A.Publish(t), copy)), o)
  {
    SendIs(s, t, copy);
    var s', oid := Step(s, Api(A.Publish(t), copy)), s.a.txs[t].phase.order.id;
    if oid == o {
      assert s'.b.copies[copy].msg.mid == o && s'.a.outbox[|s.a.outbox|] == o;
    } else {
      OtherMessageKeepsMessage(s, s', copy, s'.b.copies[copy], o);
    }
  }

  lemma OtherApiKeepsMessage(s: State, l: A.Label, copy: B.CopyId, o: OrderId)
    requires MessageIsSent(s, o) && Enabled(s, Api(l, copy)) && !l.Publish?
    ensures MessageIsSent(Step(s, Api(l, copy)), o)
  {
  }

  lemma {:induction false} MessageStaysSent(base: State, run: seq<Label>, o: OrderId)
    requires Init(base) && NoDebugAbout(run, o)
    ensures MessageIsSent(Exec(base, run), o)
    decreases |run|
  {
    if run != [] {
      var s, l := Exec(base, run[..|run| - 1]), run[|run| - 1];
      assert forall i :: 0 <= i < |run| - 1 ==> run[..|run| - 1][i] == run[i];
      MessageStaysSent(base, run[..|run| - 1], o);
      if Enabled(s, l) {
        if l.Work? && l.bl.Publish? {
          OtherMessageKeepsMessage(s, Step(s, l), l.bl.c, Step(s, l).b.copies[l.bl.c], o);
        } else if l.Work? {
          WorkKeepsMessage(s, l.bl, o);
        } else if l.al.Publish? {
          SendKeepsMessage(s, l.al.t, l.copy, o);
        } else {
          OtherApiKeepsMessage(s, l.al, l.copy, o);
        }
      }
    }
  }

  /** A sent order is committed. */
  lemma SentIsOrder(s: State, oid: OrderId)
    requires A.Inv(s.a) && RowsAreOrders(s) && oid in s.a.outbox
    ensures oid in s.b.rows
  {
  }

  lemma PlainSnoc(b: B.State, run: seq<B.Label>, l: B.Label, o: OrderId)
    requires BA.Plain(b, run, o)
    requires l.Publish? && l.msg.orderId == o ==> l.msg.simulateFailure.None? && o in B.Exec(b, run).rows
    ensures BA.Plain(b, run + [l], o)
  {
    var longer := run + [l];
    forall i | 0 <= i < |longer| && longer[i].Publish? && longer[i].readable && longer[i].msg.orderId == o
      ensures longer[i].msg.simulateFailure.None? && o in B.Exec(b, longer[..i]).rows
    {
      assert longer[..i] == run[..i];
      if i == |run| {
        assert run[..i] == run;
      }
    }
  }

  lemma StepIsPlain(s: State, l: Label, o: OrderId)
    requires A.Inv(s.a) && RowsAreOrders(s) && !(l.Work? && l.bl.Publish? && l.bl.msg.orderId == o)
    requires Enabled(s, l) && BPart(s, l).Some? && BPart(s, l).value.Publish? && BPart(s, l).value.msg.orderId == o
    ensures BPart(s, l).value.msg.simulateFailure.None? && o in s.b.rows
  {
  }

  /** The worker side only sees messages about `o` that find the order there. */
  lemma {:induction false} ProjectsPlain(base: State, run: seq<Label>, o: OrderId) returns (rb: seq<B.Label>)
    requires Init(base) && NoDebugAbout(run, o)
    ensures Exec(base, run).b == B.Exec(base.b, rb) && BA.Plain(base.b, rb, o)
    decreases |run|
  {
    rb := [];
    if run != [] {
      var front, l := run[..|run| - 1], run[|run| - 1];
      var s := Exec(base, front);
      assert forall i :: 0 <= i < |front| ==> front[i] == run[i];
      rb := ProjectsPlain(base, front, o);
      if Enabled(s, l) && BPart(s, l).Some? {
        var bl := BPart(s, l).value;
        if bl.Publish? && bl.msg.orderId == o {
          HalvesKeepInv(base, front);
          RowsStayOrders(base, front);
          StepIsPlain(s, l, o);
        }
        PlainSnoc(base.b, rb, bl, o);
        B.ExecSnoc(base.b, rb, bl);
        rb := rb + [bl];
      }
    }
  }

  /** End to end, with any interleaving, failures and crashes on both sides, and debug messages that do not carry the
      order's id: a sent order is a committed order; until it is processed a live copy of its message remains; and
      only a sent order is ever processed. */
  lemma SentOrdersAreProcessedOrPending(base: State, run: seq<Label>, o: OrderId)
    requires Init(base) && NoDebugAbout(run, o)
    ensures var s := Exec(base, run);
            && (o in s.a.outbox ==>
                  HasId(s.a.orders, o) && o in s.b.rows && (s.b.rows[o].status == B.PROCESSED || HasPending(s.b, o)))
            && (o in s.b.rows && s.b.rows[o].status == B.PROCESSED ==> o in s.a.outbox)
  {
    var s := Exec(base, run);
    var rb := ProjectsPlain(base, run, o);
    HalvesKeepInv(base, run);
    RowsStayOrders(base, run);
    MessageStaysSent(base, run, o);
    BS.RunKeepsRows(base.b, rb);
    BA.LedgerAndStatusAgree(base.b, rb, o);
    if o in s.a.outbox {
      SentIsOrder(s, o);
      BS.NoMessageLost(base.b, rb);
      SentIsSafe(s, o);
    }
    if o in s.b.rows && s.b.rows[o].status == B.PROCESSED {
      ProcessedIsSent(s, o);
    }
  }

  lemma SentIsSafe(s: State, o: OrderId)
    requires BI.Inv(s.b) && MessageIsSent(s, o) && BS.NothingLost(s.b) && BS.RowsOk(s.b) && o in s.a.outbox
    ensures HasPending(s.b, o) || BA.LedgerNames(s.b.ledger, o)
  {
    var c :| c in s.b.copies && s.b.copies[c].msg.mid == o;
    assert BS.Safe(s.b, o);
    if i :| 0 <= i < |s.b.ledger| && s.b.ledger[i].mid == o {
      assert BS.HasSource(s.b, s.b.ledger[i]);
    } else {
      var d :| d in s.b.copies && BS.Live(s.b.copies[d]) && s.b.copies[d].msg.mid == o;
      assert IsSent(s, s.b.copies[d], o) && BI.CopyOk(s.b, s.b.copies[d]);
    }
  }

  lemma ProcessedIsSent(s: State, o: OrderId)
    requires MessageIsSent(s, o) && BS.RowsOk(s.b) && BA.LedgerNames(s.b.ledger, o)
    ensures o in s.a.outbox
  {
    var i :| 0 <= i < |s.b.ledger| && s.b.ledger[i].orderId == o;
    assert BS.HasSource(s.b, s.b.ledger[i]);
  }

  /** ... and once written, `processedAt` of an order never changes again. `run2` continues `run1`. */
  lemma ProcessedOnce(base: State, run1: seq<Label>, run2: seq<Label>, o: OrderId)
    requires Init(base) && NoDebugAbout(run1 + run2, o)
    requires o in Exec(base, run1).b.rows && Exec(base, run1).b.rows[o].status == B.PROCESSED
    ensures o in Exec(base, run1 + run2).b.rows && Exec(base, run1 + run2).b.rows[o] == Exec(base, run1).b.rows[o]
  {
    var a1, b1 := Projects(base, run1);
    var a2, b2 := Projects(Exec(base, run1), run2);
    ExecConcat(base, run1, run2);
    BExecConcat(base.b, b1, b2);
    MessageStaysSent(base, run1 + run2, o);
    BS.ProcessedAtIsFinal(base.b, b1, b2, o);
  }

  // ---- A debug message under the id of an order -------------------------------------------------------------

  function Works(run: seq<B.Label>): seq<Label> {
    seq(|run|, i requires 0 <= i < |run| => Work(run[i]))
  }

  /** A run of the worker side alone. */
  lemma {:induction false} WorkAlone(s: State, run: seq<B.Label>)
    requires forall i :: 0 <= i < |run| ==> !run[i].CreateOrder?
    ensures Exec(s, Works(run)) == State(s.a, B.Exec(s.b, run))
    decreases |run|
  {
    if run != [] {
      WorkAlone(s, run[..|run| - 1]);
      assert Works(run)[..|run| - 1] == Works(run[..|run| - 1]);
    }
  }

  /** `o` was sent, is not processed, and nothing is left that could process it. */
  predicate Forgotten(s: State, o: OrderId) {
    o in s.a.outbox && o in s.b.rows && s.b.rows[o].status == B.CREATED
    && !BS.HasLive(s.b, o) && B.InLedger(s.b.ledger, o)
  }

  /** The condition on debug messages is needed: whenever an order is committed and its message is about to be sent, a
      debug message with the order's id as message id and a `simulateFailure` that stops at its attempt can be recorded
      first. The order's own message is then taken for a duplicate, and the order is neither processed nor pending. */
  lemma DebugMessageHidesOrder(base: State, run: seq<Label>, t: TxId, m: B.Msg) returns (more: seq<Label>)
    requires Init(base) && A.Enabled(Exec(base, run).a, A.Publish(t))
    requires var s := Exec(base, run);
             && m.mid == s.a.txs[t].phase.order.id && B.Stops(m)
             && (forall c :: c in s.b.copies ==> s.b.copies[c].msg.mid != m.mid)
             && (m.mid in s.b.rows ==> s.b.rows[m.mid].status == B.CREATED)
    ensures Forgotten(Exec(base, run + more), m.mid)
  {
    var s := Exec(base, run);
    var ra, rb := Projects(base, run);
    HalvesKeepInv(base, run);
    RowsStayOrders(base, run);
    BS.RunKeepsRows(base.b, rb);
    BA.NewIdIsNotInLedger(s.b, m.mid);
    CommittedIsRow(s, t);
    var first := DebugIsRecorded(s, m);
    var s1 := Exec(s, first);
    var copy := UnusedId(s1.b.copies.Keys);
    SendIs(s1, t, copy);
    ExecSnoc(s, first, Api(A.Publish(t), copy));
    var s2 := Exec(s, first + [Api(A.Publish(t), copy)]);
    assert s2.a.outbox[|s.a.outbox|] == m.mid;
    var second := BA.KnownIsDropped(s2.b, copy);
    WorkAlone(s2, second);
    ExecConcat(s, first + [Api(A.Publish(t), copy)], Works(second));
    more := first + [Api(A.Publish(t), copy)] + Works(second);
    ExecConcat(base, run, more);
  }

  /** The debug message is recorded, and nothing else changes. */
  lemma DebugIsRecorded(s: State, m: B.Msg) returns (run: seq<Label>)
    requires B.Stops(m) && !B.InLedger(s.b.ledger, m.mid) && forall c :: c in s.b.copies ==>
              s.b.copies[c].msg.mid != m.mid
    ensures var s' := Exec(s, run);
            && s'.a == s.a && s'.b.rows == s.b.rows && B.InLedger(s'.b.ledger, m.mid)
            && (forall c :: c in s'.b.copies && s'.b.copies[c].msg.mid == m.mid ==> s'.b.copies[c].place.Gone?)
  {
    var c := UnusedId(s.b.copies.Keys);
    var publish := B.Publish(c, m, true);
    B.ExecSnoc(s.b, [], publish);
    WorkAlone(s, [] + [publish]);
    var s1 := B.Exec(s.b, [] + [publish]);
    var rest := BA.StoppingIsRecorded(s1, c);
    WorkAlone(State(s.a, s1), rest);
    ExecConcat(s, Works([] + [publish]), Works(rest));
    run := Works([] + [publish]) + Works(rest);
  }

  lemma CommittedIsRow(s: State, t: TxId)
    requires A.Inv(s.a) && RowsAreOrders(s) && t in s.a.txs && s.a.txs[t].phase.Committed?
    ensures s.a.txs[t].phase.order.id in s.b.rows
  {
    assert A.PhaseOk(s.a, s.a.txs[t].req, s.a.txs[t].phase);
  }
}
