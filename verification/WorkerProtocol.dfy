/** At-least-once order processing as a labelled state machine: any number of worker processes, each with any
    number of handlers running at once, one broker (`orders.process`, `orders.dlq`) and one database. A label
    is one step of one message copy, of the environment, or a crash; a label that is not enabled does nothing. */
module WorkerProtocol {
  import opened Domain

  type MessageId = nat
  type CopyId = nat
  type WorkerId = nat
  type Time = nat

  /** `simulateFailure`; without `stopOnAttempt` every attempt fails. */
  datatype Failure = Failure(stopOnAttempt: Option<int>)

  datatype Msg = Msg(mid: MessageId, orderId: OrderId, attempt: int, simulateFailure: Option<Failure>)

  /** How far the handler of a delivered copy has come. */
  datatype Handling =
    | Received
    | Inserted                              // dedup row inserted, not committed
    | Applied(write: Option<Time>)          // processing returned; `write` is the pending order update
    | Duplicated                            // 23505 on the dedup row: the aborted transaction is discarded
    | Done                                  // the transaction has committed
    | Failing                               // an error was thrown and the transaction rolled back
    | Timer                                 // waiting for the retry timer
    | Sent                                  // republished or dead-lettered in this turn; the ack is next

  datatype Settlement = Processed | Deduped | Superseded

  datatype Place =
    | Ready
    | Held(w: WorkerId, h: Handling)
    | Dead
    | Gone(how: Settlement)

  /** One copy of a message in the broker. `parent` is the copy it was republished or dead-lettered from, `first`
      the attempt with which the message entered from outside. Settled copies stay as history. */
  datatype Copy = Copy(msg: Msg, readable: bool, parent: Option<CopyId>, first: int, place: Place)

  /** A committed dedup row with the order update committed with it, if any. */
  datatype Entry = Entry(mid: MessageId, orderId: OrderId, attempt: int, write: Option<Time>)

  datatype OrderStatus = CREATED | PROCESSED

  datatype Row = Row(status: OrderStatus, processedAt: Option<Time>)

  /** `WORKER_RETRIES` and `RABBITMQ_PREFETCH` (0 means no limit). */
  datatype Config = Config(maxRetries: int, prefetch: nat)

  /** `ledger` holds the `processed_messages` rows in commit order. */
  datatype State = State(
    config: Config,
    copies: map<CopyId, Copy>,
    ledger: seq<Entry>,
    rows: map<OrderId, Row>,
    crashes: nat)

  datatype Label =
    | CreateOrder(orderId: OrderId)
    | Publish(c: CopyId, msg: Msg, readable: bool)
    | Deliver(c: CopyId, w: WorkerId)
    | RejectBody(c: CopyId)
    | Insert(c: CopyId)
    | Dedup(c: CopyId)
    | UseAborted(c: CopyId)
    | Update(c: CopyId, now: Time)
    | Skip(c: CopyId)
    | Throw(c: CopyId)
    | DbError(c: CopyId)
    | Commit(c: CopyId)
    | CommitUnseen(c: CopyId)
    | Ack(c: CopyId)
    | Schedule(c: CopyId)
    | Retry(c: CopyId, child: CopyId)
    | DeadLetter(c: CopyId, child: CopyId)
    | SendError(c: CopyId)
    | Crash(w: WorkerId)

  predicate Init(s: State) {
    s.copies == map[] && s.ledger == [] && s.crashes == 0
    && (forall o :: o in s.rows ==> s.rows[o] == Row(CREATED, None))
  }

  predicate At(cp: Copy, h: Handling) {
    cp.place.Held? && cp.place.h == h
  }

  /** The copy's transaction is open and has inserted the dedup row. */
  predicate HoldsEntry(cp: Copy) {
    cp.place.Held? && (cp.place.h.Inserted? || cp.place.h.Applied?)
  }

  /** The copy's transaction has updated the order row and locks it. */
  predicate LocksRow(cp: Copy, o: OrderId) {
    cp.place.Held? && cp.place.h.Applied? && cp.place.h.write.Some? && cp.msg.orderId == o
  }

  predicate InLedger(ledger: seq<Entry>, mid: MessageId) {
    exists i :: 0 <= i < |ledger| && ledger[i].mid == mid
  }

  predicate EntryHeldByOther(s: State, c: CopyId, mid: MessageId) {
    exists d | d in s.copies :: d != c && HoldsEntry(s.copies[d]) && s.copies[d].msg.mid == mid
  }

  predicate RowLockedByOther(s: State, c: CopyId, o: OrderId) {
    exists d | d in s.copies :: d != c && LocksRow(s.copies[d], o)
  }

  function HeldBy(s: State, w: WorkerId): set<CopyId> {
    set c | c in s.copies && s.copies[c].place.Held? && s.copies[c].place.w == w
  }

  /** A process runs one synchronous stretch at a time: between a send and its ack nothing else of it runs. */
  predicate TurnFree(s: State, w: WorkerId) {
    forall c :: c in s.copies ==> s.copies[c].place != Held(w, Sent)
  }

  /** Processing succeeds without touching the order when `stopOnAttempt === attempt`. */
  predicate Stops(m: Msg) {
    m.simulateFailure.Some? && m.simulateFailure.value.stopOnAttempt == Some(m.attempt)
  }

  predicate Fails(m: Msg) {
    m.simulateFailure.Some? && !Stops(m)
  }

  predicate Enabled(s: State, l: Label) {
    match l
    case CreateOrder(o) => o !in s.rows
    case Publish(c, _, _) => c !in s.copies
    case Crash(w) => true
    case Deliver(c, w) =>
      c in s.copies && s.copies[c].place.Ready? && (s.config.prefetch == 0 || |HeldBy(s, w)| < s.config.prefetch)
    case RejectBody(c) => c in s.copies && At(s.copies[c], Received) && !s.copies[c].readable
    case Insert(c) =>
      // waits while another open transaction has inserted the same row
      && c in s.copies && At(s.copies[c], Received) && s.copies[c].readable
      && !InLedger(s.ledger, s.copies[c].msg.mid) && !EntryHeldByOther(s, c, s.copies[c].msg.mid)
    case Dedup(c) =>
      c in s.copies && At(s.copies[c], Received) && s.copies[c].readable && InLedger(s.ledger, s.copies[c].msg.mid)
    case UseAborted(c) => c in s.copies && At(s.copies[c], Duplicated)      // another statement after 23505: it throws
    case Update(c, _) =>
      // waits while another open transaction has updated the same order
      && c in s.copies && At(s.copies[c], Inserted) && s.copies[c].msg.simulateFailure.None?
      && !RowLockedByOther(s, c, s.copies[c].msg.orderId)
    case Skip(c) => c in s.copies && At(s.copies[c], Inserted) && Stops(s.copies[c].msg)
    case Throw(c) => c in s.copies && At(s.copies[c], Inserted) && Fails(s.copies[c].msg)
    case DbError(c) =>
      c in s.copies && s.copies[c].place.Held? && s.copies[c].readable
      && (HoldsEntry(s.copies[c]) || s.copies[c].place.h.Received? || s.copies[c].place.h.Duplicated?)
    case Commit(c) => c in s.copies && s.copies[c].place.Held? && s.copies[c].place.h.Applied?
    case CommitUnseen(c) => c in s.copies && s.copies[c].place.Held? && s.copies[c].place.h.Applied?
    case Ack(c) => c in s.copies && (At(s.copies[c], Done) || At(s.copies[c], Duplicated) || At(s.copies[c], Sent))
    case Schedule(c) => c in s.copies && At(s.copies[c], Failing) && s.copies[c].msg.attempt < s.config.maxRetries
    case Retry(c, d) => c in s.copies && d !in s.copies && At(s.copies[c], Timer) && TurnFree(s, s.copies[c].place.w)
    case DeadLetter(c, d) =>
      && c in s.copies && d !in s.copies && At(s.copies[c], Failing) && s.copies[c].msg.attempt >= s.config.maxRetries
      && TurnFree(s, s.copies[c].place.w)
    case SendError(c) => c in s.copies && At(s.copies[c], Failing) && s.copies[c].msg.attempt >= s.config.maxRetries
  }

  function Put(s: State, c: CopyId, p: Place): State
    requires c in s.copies
  {
    s.(copies := s.copies[c := s.copies[c].(place := p)])
  }

  function Move(s: State, c: CopyId, h: Handling): State
    requires c in s.copies && s.copies[c].place.Held?
  {
    Put(s, c, s.copies[c].place.(h := h))
  }

  function Child(s: State, c: CopyId, attempt: int, p: Place): Copy
    requires c in s.copies
  {
    Copy(s.copies[c].msg.(attempt := attempt), true, Some(c), s.copies[c].first, p)
  }

  /** COMMIT makes the dedup row and the order update visible together. */
  function Install(s: State, c: CopyId): State
    requires c in s.copies && s.copies[c].place.Held? && s.copies[c].place.h.Applied?
  {
    var m, write := s.copies[c].msg, s.copies[c].place.h.write;
    s.(ledger := s.ledger + [Entry(m.mid, m.orderId, m.attempt, write)],
       rows := if write.Some? then s.rows[m.orderId := Row(PROCESSED, write)] else s.rows)
  }

  /** Every unacknowledged delivery of a lost channel becomes ready again; open transactions and timers are gone. */
  function Requeued(cp: Copy, w: WorkerId): Copy {
    if cp.place.Held? && cp.place.w == w then cp.(place := Ready) else cp
  }

  function Next(s: State, l: Label): State
    requires Enabled(s, l)
  {
    match l
    case CreateOrder(o) => s.(rows := s.rows[o := Row(CREATED, None)])
    case Publish(c, m, readable) => s.(copies := s.copies[c := Copy(m, readable, None, m.attempt, Ready)])
    case Deliver(c, w) => Put(s, c, Held(w, Received))
    case RejectBody(c) => Put(s, c, Ready)
    case Insert(c) => Move(s, c, Inserted)
    case Dedup(c) => Move(s, c, Duplicated)
    case UseAborted(c) => Move(s, c, Failing)
    case Update(c, now) => Move(s, c, Applied(if s.copies[c].msg.orderId in s.rows then Some(now) else None))
    case Skip(c) => Move(s, c, Applied(None))
    case Throw(c) => Move(s, c, Failing)
    case DbError(c) => Move(s, c, Failing)
    case Commit(c) => Move(Install(s, c), c, Done)
    case CommitUnseen(c) => Move(Install(s, c), c, Failing)
    case Ack(c) =>
      Put(s, c, Gone(if s.copies[c].place.h.Done? then Processed
          else if s.copies[c].place.h.Duplicated? then Deduped else Superseded))
    case Schedule(c) => Move(s, c, Timer)
    case Retry(c, d) =>
      var s' := Move(s, c, Sent);
      s'.(copies := s'.copies[d := Child(s, c, s.copies[c].msg.attempt + 1, Ready)])
    case DeadLetter(c, d) =>
      var s' := Move(s, c, Sent);
      s'.(copies := s'.copies[d := Child(s, c, s.copies[c].msg.attempt, Dead)])
    case SendError(c) => Put(s, c, Ready)
    case Crash(w) => s.(copies := map c | c in s.copies :: Requeued(s.copies[c], w), crashes := s.crashes + 1)
  }

  function Step(s: State, l: Label): State {
    if Enabled(s, l) then Next(s, l) else s
  }

  function Exec(s: State, run: seq<Label>): State
    decreases |run|
  {
    if run == [] then s else Step(Exec(s, run[..|run| - 1]), run[|run| - 1])
  }

  lemma ExecSnoc(s: State, run: seq<Label>, l: Label)
    ensures Exec(s, run + [l]) == Step(Exec(s, run), l)
  {
  }
}
