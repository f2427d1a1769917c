/** Every interleaving of `createOrder` transactions equals a run of the sequential shop: the tables are its
    tables and each reply is one it allows at a point between the request and the reply. */
module Serializability {
  import opened Domain
  import opened Reservation
  import opened SequentialShop
  import opened OrderProtocol
  import opened OrderInvariant

  function ShopOf(s: State): Shop {
    Shop(s.products, s.orders)
  }

  /** The business reply a transaction is bound to, once it has one. A failure binds to nothing. */
  function Answer(ph: Phase): Option<Reply> {
    match ph
    case Recovered(o) => Some(Duplicate(o))
    case Throwing(_, _, r) => if r.Failed? then None else Some(r)
    case Committed(o) => Some(Created(o))
    case Finished(r) => if r.Failed? then None else Some(r)
    case _ => None
  }

  /** Whether the linearization point is still ahead. */
  predicate Undecided(ph: Phase) {
    Answer(ph).None? && !ph.Finished?
  }

  predicate Logged(log: seq<Event>, e: Event) {
    exists i :: 0 <= i < |log| && log[i] == e
  }

  predicate TxLogOk(log: seq<Event>, t: TxId, tx: Tx) {
    && (Answer(tx.phase).Some? ==> Logged(log, Event(t, tx.req, Answer(tx.phase).value)))
    && (Undecided(tx.phase) ==> forall i :: 0 <= i < |log| ==> log[i].tid != t)
  }

  /** At most one event per transaction, with that transaction's request. */
  predicate LogOk(s: State) {
    && (forall i, j :: 0 <= i < j < |s.log| ==> s.log[i].tid != s.log[j].tid)
    && (forall i :: 0 <= i < |s.log| ==> s.log[i].tid in s.txs && s.txs[s.log[i].tid].req == s.log[i].req)
    && (forall t :: t in s.txs ==> TxLogOk(s.log, t, s.txs[t]))
  }

  // ---- Each linearization point is allowed by the sequential shop ---------------------------------------

  lemma ItemIsAllowed(s: State, req: Request, ph: Phase, i: nat)
    requires ph.Written? && PhaseOk(s, req, ph) && HolderOk(s, req, ph) && i < |req.items|
    ensures var p := req.items[i].id;
            && InStock(ShopOf(s), req.items[i])
            && p in ph.items && p in s.products && ph.items[p] == OrderItem(req.items[i].qty, s.products[p].price)
  {
    var p := req.items[i].id;
    assert IdList(req.items)[i] in Ids(req.items);
    assert p in ph.rows && Covered(req.items, ph.rows, p);
    AskedIsOwnQty(req.items, i);
  }

  /** What `createOrder` sees when it has passed the loop is what the shop requires. */
  lemma PassedIsAllowed(s: State, req: Request, ph: Phase)
    requires ph.Written? && PhaseOk(s, req, ph) && HolderOk(s, req, ph)
    ensures Allowed(ShopOf(s), req, Created(OrderOf(req, ph)))
  {
    forall i | 0 <= i < |req.items|
      ensures var p := req.items[i].id;
              && InStock(ShopOf(s), req.items[i])
              && p in ph.items && p in s.products && ph.items[p] == OrderItem(req.items[i].qty, s.products[p].price)
    {
      ItemIsAllowed(s, req, ph, i);
    }
  }

  lemma InstallIsEffect(s: State, req: Request, ph: Phase)
    requires ph.Written? && PhaseOk(s, req, ph) && HolderOk(s, req, ph)
    ensures Effect(ShopOf(s), Created(OrderOf(req, ph))).products == s.products + ph.stocks
  {
    var after := Effect(ShopOf(s), Created(OrderOf(req, ph))).products;
    assert ph.items.Keys == ph.stocks.Keys == ph.rows.Keys <= s.products.Keys;
    forall p | p in s.products ensures after[p] == (s.products + ph.stocks)[p] {
      assert p in ph.rows ==> s.products[p] == ph.rows[p];
    }
  }

  lemma CommitIsAllowed(s: State, t: TxId)
    requires Inv(s) && t in s.txs && s.txs[t].phase.Written?
    ensures Allowed(ShopOf(s), s.txs[t].req, Created(OrderOf(s.txs[t].req, s.txs[t].phase)))
    ensures Effect(ShopOf(s), Created(OrderOf(s.txs[t].req, s.txs[t].phase))) == ShopOf(Install(s, t))
  {
    assert PhaseOk(s, s.txs[t].req, s.txs[t].phase) && HolderOk(s, s.txs[t].req, s.txs[t].phase);
    PassedIsAllowed(s, s.txs[t].req, s.txs[t].phase);
    InstallIsEffect(s, s.txs[t].req, s.txs[t].phase);
  }

  lemma MissingIsAllowed(s: State, t: TxId)
    requires Inv(s) && Enabled(s, Missing(t))
    ensures Allowed(ShopOf(s), s.txs[t].req, CannotFindProducts(|s.txs[t].req.items| - |s.txs[t].phase.plan|))
  {
    var req, ph := s.txs[t].req, s.txs[t].phase;
    assert PhaseOk(s, req, ph) && HolderOk(s, req, ph);
    LengthCheckExact(ph.plan, req.items, s.products.Keys);
  }

  lemma ShortIsAllowed(s: State, t: TxId, at: nat)
    requires Inv(s) && Enabled(s, Short(t, at))
    ensures var req, ph := s.txs[t].req, s.txs[t].phase;
            Allowed(ShopOf(s), req,
                    NotEnoughItems(ph.plan[at], Asked(req.items, ph.plan[at]), ph.rows[ph.plan[at]].stock))
  {
    var req, ph := s.txs[t].req, s.txs[t].phase;
    var p := ph.plan[at];
    assert PhaseOk(s, req, ph) && HolderOk(s, req, ph);
    LengthCheckExact(ph.plan, req.items, s.products.Keys);
    assert p in Elems(ph.plan);
    var i :| 0 <= i < |req.items| && IdList(req.items)[i] == p;
    AskedIsOwnQty(req.items, i);
    assert req.items[i] == OrderItemDto(p, Asked(req.items, p));
  }

  predicate Linearizes(l: Label) {
    l.Recover? || l.Missing? || l.Short? || l.Commit? || l.CommitUnseen?
  }

  function ReplyAt(s: State, l: Label): Reply
    requires Linearizes(l) && Enabled(s, l)
  {
    var req, ph := s.txs[l.t].req, s.txs[l.t].phase;
    match l
    case Recover(_, at) => Duplicate(s.orders[at])
    case Missing(_) => CannotFindProducts(|req.items| - |ph.plan|)
    case Short(_, at) => NotEnoughItems(ph.plan[at], Asked(req.items, ph.plan[at]), ph.rows[ph.plan[at]].stock)
    case Commit(_) => Created(OrderOf(req, ph))
    case CommitUnseen(_) => Created(OrderOf(req, ph))
  }

  /** Only the linearization points touch the log or the tables ... */
  lemma OthersChangeNothing(s: State, l: Label)
    requires Enabled(s, l) && !Linearizes(l)
    ensures Next(s, l).log == s.log && ShopOf(Next(s, l)) == ShopOf(s)
  {
  }

  /** ... and each does what the shop does. */
  lemma StepRefinesShop(s: State, l: Label)
    requires Inv(s) && Enabled(s, l) && Linearizes(l)
    ensures Next(s, l).log == s.log + [Event(l.t, s.txs[l.t].req, ReplyAt(s, l))]
    ensures Allowed(ShopOf(s), s.txs[l.t].req, ReplyAt(s, l))
    ensures ShopOf(Next(s, l)) == Effect(ShopOf(s), ReplyAt(s, l))
  {
    match l
    case Missing(t) => MissingIsAllowed(s, t);
    case Short(t, at) => ShortIsAllowed(s, t, at);
    case Commit(t) => CommitIsAllowed(s, t);
    case CommitUnseen(t) => CommitIsAllowed(s, t);
    case Recover(t, at) => assert s.orders[at] in s.orders;
  }

  /** A linearization point decides an undecided transaction ... */
  lemma LinearizingDecides(s: State, l: Label)
    requires Enabled(s, l) && Linearizes(l)
    ensures Undecided(s.txs[l.t].phase)
    ensures var ph := Next(s, l).txs[l.t].phase;
            !Undecided(ph) && (Answer(ph).Some? ==> Answer(ph).value == ReplyAt(s, l))
  {
  }

  /** ... and any other step keeps the answer, or fails. */
  lemma OthersKeepAnswer(s: State, l: Label)
    requires Enabled(s, l) && !l.Begin? && !Linearizes(l)
    ensures var before, after := s.txs[l.t].phase, Next(s, l).txs[l.t].phase;
            after == Finished(Failed) || Answer(after) == Answer(before)
    ensures Undecided(Next(s, l).txs[l.t].phase) ==> Undecided(s.txs[l.t].phase)
  {
  }

  lemma OneEventPerTx(s: State, l: Label)
    requires Inv(s) && LogOk(s) && Enabled(s, l)
    ensures forall i, j :: 0 <= i < j < |Next(s, l).log| ==> Next(s, l).log[i].tid != Next(s, l).log[j].tid
    ensures forall i :: 0 <= i < |Next(s, l).log| ==>
              Next(s, l).log[i].tid in Next(s, l).txs
              && Next(s, l).txs[Next(s, l).log[i].tid].req == Next(s, l).log[i].req
  {
    StepKeepsRequests(s, l);
    if Linearizes(l) {
      StepRefinesShop(s, l);
      LinearizingDecides(s, l);
      assert TxLogOk(s.log, l.t, s.txs[l.t]);
      AppendKeepsTids(s.log, Event(l.t, s.txs[l.t].req, ReplyAt(s, l)));
    } else {
      OthersChangeNothing(s, l);
    }
  }

  lemma AppendKeepsTids(log: seq<Event>, e: Event)
    requires forall i, j :: 0 <= i < j < |log| ==> log[i].tid != log[j].tid
    requires forall i :: 0 <= i < |log| ==> log[i].tid != e.tid
    ensures forall i, j :: 0 <= i < j < |log + [e]| ==> (log + [e])[i].tid != (log + [e])[j].tid
  {
  }

  lemma DeciderLogged(s: State, l: Label)
    requires Inv(s) && Enabled(s, l) && Linearizes(l)
    ensures TxLogOk(Next(s, l).log, l.t, Next(s, l).txs[l.t])
  {
    LinearizingDecides(s, l);
    StepRefinesShop(s, l);
    assert Next(s, l).log[|s.log|] == Event(l.t, s.txs[l.t].req, ReplyAt(s, l));
  }

  lemma MoverLogged(s: State, l: Label)
    requires Inv(s) && LogOk(s) && Enabled(s, l) && !l.Begin?
    ensures TxLogOk(Next(s, l).log, l.t, Next(s, l).txs[l.t])
  {
    if Linearizes(l) {
      DeciderLogged(s, l);
    } else {
      assert TxLogOk(s.log, l.t, s.txs[l.t]);
      OthersKeepAnswer(s, l);
      OthersChangeNothing(s, l);
    }
  }

  lemma StepGrowsLog(s: State, l: Label)
    requires Inv(s) && Enabled(s, l)
    ensures s.log <= Next(s, l).log
    ensures forall i :: |s.log| <= i < |Next(s, l).log| ==> Next(s, l).log[i].tid == l.t
  {
    if Linearizes(l) {
      StepRefinesShop(s, l);
    } else {
      OthersChangeNothing(s, l);
    }
  }

  /** A longer log still fits the transactions it does not mention anew. */
  lemma BystanderLogged(log: seq<Event>, log': seq<Event>, t: TxId, u: TxId, tx: Tx)
    requires TxLogOk(log, u, tx) && u != t && log <= log'
    requires forall i :: |log| <= i < |log'| ==> log'[i].tid == t
    ensures TxLogOk(log', u, tx)
  {
  }

  lemma StepKeepsLogOk(s: State, l: Label)
    requires Inv(s) && LogOk(s)
    ensures LogOk(Step(s, l))
    ensures s.log <= Step(s, l).log
  {
    if Enabled(s, l) {
      var s' := Next(s, l);
      OneEventPerTx(s, l);
      StepGrowsLog(s, l);
      forall t | t in s'.txs ensures TxLogOk(s'.log, t, s'.txs[t]) {
        if t != l.t {
          StepKeepsRequests(s, l);
          BystanderLogged(s.log, s'.log, l.t, t, s.txs[t]);
        } else if l.Begin? {
          OthersChangeNothing(s, l);
        } else {
          MoverLogged(s, l);
        }
      }
    }
  }

  /** The main theorem: the tables of every reachable state are those of the sequential shop after the logged
      replies, taken one at a time from the initial tables, and the shop allows every one of them. */
  lemma {:induction false} Serializable(base: State, run: seq<Label>)
    requires Init(base)
    ensures Inv(Exec(base, run)) && LogOk(Exec(base, run))
    ensures Serial(ShopOf(base), Exec(base, run).log)
    ensures Replay(ShopOf(base), Exec(base, run).log) == ShopOf(Exec(base, run))
    decreases |run|
  {
    if run != [] {
      var s, l := Exec(base, run[..|run| - 1]), run[|run| - 1];
      Serializable(base, run[..|run| - 1]);
      StepKeepsInv(s, l);
      StepKeepsLogOk(s, l);
      if Enabled(s, l) {
        if Linearizes(l) {
          StepRefinesShop(s, l);
          SerialSnoc(ShopOf(base), s.log, Event(l.t, s.txs[l.t].req, ReplyAt(s, l)));
        } else {
          OthersChangeNothing(s, l);
        }
      }
    }
  }

  /** Every reply a client gets, other than a failure, is in the log exactly once, with its own request; an
      unfinished, unanswered or failed-before-commit request changed nothing. */
  lemma RepliesAreLogged(base: State, run: seq<Label>, t: TxId) returns (at: nat)
    requires Init(base)
    requires var s := Exec(base, run); t in s.txs && s.txs[t].phase.Finished? && !s.txs[t].phase.reply.Failed?
    ensures var s := Exec(base, run);
            && at < |s.log| && s.log[at] == Event(t, s.txs[t].req, s.txs[t].phase.reply)
            && (forall i :: 0 <= i < |s.log| && s.log[i].tid == t ==> i == at)
            && Allowed(Replay(ShopOf(base), s.log[..at]), s.txs[t].req, s.txs[t].phase.reply)
  {
    Serializable(base, run);
    at := EventOf(Exec(base, run), t);
    SerialAt(ShopOf(base), Exec(base, run).log, at);
  }

  lemma EventOf(s: State, t: TxId) returns (at: nat)
    requires LogOk(s) && t in s.txs && s.txs[t].phase.Finished? && !s.txs[t].phase.reply.Failed?
    ensures at < |s.log| && s.log[at] == Event(t, s.txs[t].req, s.txs[t].phase.reply)
    ensures forall i :: 0 <= i < |s.log| && s.log[i].tid == t ==> i == at
  {
    assert TxLogOk(s.log, t, s.txs[t]);
    at :| 0 <= at < |s.log| && s.log[at] == Event(t, s.txs[t].req, s.txs[t].phase.reply);
  }

  /** `run2` continues `run1`. */
  lemma {:induction false} LogGrows(base: State, run1: seq<Label>, run2: seq<Label>)
    requires Init(base)
    ensures Exec(base, run1).log <= Exec(base, run1 + run2).log
    ensures forall t :: t in Exec(base, run1).txs ==>
              t in Exec(base, run1 + run2).txs && Exec(base, run1 + run2).txs[t].req == Exec(base, run1).txs[t].req
    decreases |run2|
  {
    if run2 == [] {
      assert run1 + run2 == run1;
    } else {
      var front, l := run2[..|run2| - 1], run2[|run2| - 1];
      LogGrows(base, run1, front);
      assert run1 + run2 == (run1 + front) + [l];
      ExecSnoc(base, run1 + front, l);
      Serializable(base, run1 + front);
      StepKeepsLogOk(Exec(base, run1 + front), l);
      StepKeepsRequests(Exec(base, run1 + front), l);
    }
  }

  lemma RunLogOk(base: State, run: seq<Label>)
    requires Init(base)
    ensures LogOk(Exec(base, run))
  {
    Serializable(base, run);
  }

  /** Real-time order: a request answered before another one arrived comes before it in the log. */
  lemma RealTimeOrder(base: State, run1: seq<Label>, run2: seq<Label>, t: TxId, u: TxId, i: nat, j: nat)
    requires Init(base)
    requires var s := Exec(base, run1);
             t in s.txs && s.txs[t].phase.Finished? && !s.txs[t].phase.reply.Failed? && u !in s.txs
    requires var log := Exec(base, run1 + run2).log;
             i < |log| && j < |log| && log[i].tid == t && log[j].tid == u
    ensures i < j
  {
    var s, log := Exec(base, run1), Exec(base, run1 + run2).log;
    LogGrows(base, run1, run2);
    RunLogOk(base, run1);
    RunLogOk(base, run1 + run2);
    assert TxLogOk(s.log, t, s.txs[t]);
    var at :| 0 <= at < |s.log| && s.log[at].tid == t;
    assert log[at] == s.log[at];
    assert at == i;
    assert forall k :: 0 <= k < |s.log| ==> log[k] == s.log[k] && s.log[k].tid in s.txs;
  }

  // ---- What follows for every interleaving --------------------------------------------------------------

  /** Stock conservation: baseline stock is current stock plus what the orders committed since then took; a
      stock that was not negative never becomes negative. */
  lemma StockConserved(base: State, run: seq<Label>, p: ProductId)
    requires Init(base) && p in base.products
    ensures var s := Exec(base, run);
            && base.orders <= s.orders
            && p in s.products && s.products[p].price == base.products[p].price
            && base.products[p].stock == s.products[p].stock + Sold(s.orders[|base.orders|..], p)
            && (base.products[p].stock >= 0 ==> s.products[p].stock >= 0)
  {
    Serializable(base, run);
    SerialConserves(ShopOf(base), Exec(base, run).log, p);
  }

  /** Idempotency: one order per (user, key), and every successful reply for that pair carries it. */
  lemma Idempotent(base: State, run: seq<Label>, t: TxId, u: TxId)
    requires Init(base)
    requires var s := Exec(base, run);
             && t in s.txs && u in s.txs && RequestKey(s.txs[t].req) == RequestKey(s.txs[u].req)
             && s.txs[t].phase.Finished? && s.txs[u].phase.Finished?
             && (s.txs[t].phase.reply.Created? || s.txs[t].phase.reply.Duplicate?)
             && (s.txs[u].phase.reply.Created? || s.txs[u].phase.reply.Duplicate?)
    ensures var s := Exec(base, run);
            && s.txs[t].phase.reply.order == s.txs[u].phase.reply.order
            && (t != u ==> !(s.txs[t].phase.reply.Created? && s.txs[u].phase.reply.Created?))
            && (forall i, j :: 0 <= i < j < |s.orders| ==> OrderKey(s.orders[i]) != OrderKey(s.orders[j]))
  {
    var s := Exec(base, run);
    Serializable(base, run);
    assert PhaseOk(s, s.txs[t].req, s.txs[t].phase) && PhaseOk(s, s.txs[u].req, s.txs[u].phase);
    if t != u && s.txs[t].phase.reply.Created? && s.txs[u].phase.reply.Created? {
      var a := RepliesAreLogged(base, run, t);
      var b := RepliesAreLogged(base, run, u);
      CreatedOnce(ShopOf(base), s.log, a, b);
    }
  }

  /** No two events of a serial log create an order for the same key. */
  lemma CreatedOnce(shop: Shop, log: seq<Event>, a: nat, b: nat)
    requires Serial(shop, log) && a < |log| && b < |log| && a != b
    requires log[a].reply.Created? && log[b].reply.Created?
    ensures RequestKey(log[a].req) != RequestKey(log[b].req)
  {
    var lo, hi := if a < b then a else b, if a < b then b else a;
    SerialAt(shop, log, hi);
    SerialAt(shop, log, lo);
    CreatedStays(shop, log[..hi], lo);
    assert log[..hi][..lo] == log[..lo];
  }

  lemma {:induction false} CreatedStays(shop: Shop, log: seq<Event>, a: nat)
    requires a < |log| && log[a].reply.Created?
    ensures HasKey(Replay(shop, log).orders, OrderKey(log[a].reply.order))
    decreases |log|
  {
    var front, last := log[..|log| - 1], log[|log| - 1];
    var orders := Replay(shop, log).orders;
    if a < |front| {
      CreatedStays(shop, front, a);
      var before := Replay(shop, front).orders;
      var i :| 0 <= i < |before| && OrderKey(before[i]) == OrderKey(log[a].reply.order);
      assert orders[i] == before[i];
    } else {
      assert orders[|orders| - 1] == last.reply.order;
    }
  }

  /** After 23505 the existing order is committed, so the recovery read of `add` finds exactly one row, as soon as
      it gets a connection. */
  lemma RecoveryReadSucceeds(base: State, run: seq<Label>, t: TxId) returns (at: nat)
    requires Init(base)
    requires t in Exec(base, run).txs && Exec(base, run).txs[t].phase.Rejected?
    ensures var s := Exec(base, run);
            && at < |s.orders| && OrderKey(s.orders[at]) == RequestKey(s.txs[t].req)
            && (forall i :: 0 <= i < |s.orders| && OrderKey(s.orders[i]) == RequestKey(s.txs[t].req) ==> i == at)
            && (forall i :: Enabled(s, Recover(t, i)) <==> HasFree(s) && i == at)
  {
    Serializable(base, run);
    at := OnlyOrderOfKey(Exec(base, run), t);
  }

  /** Some request was told it created this order. */
  predicate ToldCreated(s: State, oid: OrderId) {
    exists t :: t in s.txs && s.txs[t].phase.Finished? && s.txs[t].phase.reply.Created?
      && s.txs[t].phase.reply.order.id == oid
  }

  lemma StepKeepsTold(s: State, l: Label, oid: OrderId)
    requires Enabled(s, l) && ToldCreated(s, oid)
    ensures ToldCreated(Next(s, l), oid)
  {
    var t :| t in s.txs && s.txs[t].phase.Finished? && s.txs[t].phase.reply.Created?
      && s.txs[t].phase.reply.order.id == oid;
    FinishedStays(s, l, t);
  }

  lemma {:induction false} SentByCreator(base: State, run: seq<Label>)
    requires Init(base)
    ensures forall i :: 0 <= i < |Exec(base, run).outbox| ==> ToldCreated(Exec(base, run), Exec(base, run).outbox[i])
    decreases |run|
  {
    if run != [] {
      var s, l := Exec(base, run[..|run| - 1]), run[|run| - 1];
      SentByCreator(base, run[..|run| - 1]);
      if Enabled(s, l) {
        var s' := Next(s, l);
        forall i | 0 <= i < |s'.outbox| ensures ToldCreated(s', s'.outbox[i]) {
          if i < |s.outbox| {
            StepKeepsTold(s, l, s.outbox[i]);
          } else {
            assert s'.txs[l.t].phase == Finished(Created(s.txs[l.t].phase.order));
          }
        }
      }
    }
  }

  /** Publish discipline: a message names a committed order and is sent for the one request that created it, an
      order is sent at most once, and an order whose creator has not sent yet has no message. */
  lemma PublishedOnceAfterCommit(base: State, run: seq<Label>)
    requires Init(base)
    ensures var s := Exec(base, run);
            && Distinct(s.outbox)
            && (forall i :: 0 <= i < |s.outbox| ==> HasId(s.orders, s.outbox[i]) && ToldCreated(s, s.outbox[i]))
            && (forall t :: t in s.txs && s.txs[t].phase.Committed? ==>
                  HasId(s.orders, s.txs[t].phase.order.id) && s.txs[t].phase.order.id !in s.outbox)
  {
    var s := Exec(base, run);
    Serializable(base, run);
    SentByCreator(base, run);
    forall t | t in s.txs && s.txs[t].phase.Committed?
      ensures HasId(s.orders, s.txs[t].phase.order.id) && s.txs[t].phase.order.id !in s.outbox
    {
      assert PhaseOk(s, s.txs[t].req, s.txs[t].phase);
      var i :| 0 <= i < |s.orders| && s.orders[i] == s.txs[t].phase.order;
      assert s.orders[i].id == s.txs[t].phase.order.id;
    }
  }

  /** The transaction's effect is in the tables. */
  predicate TookEffect(s: State, t: TxId) {
    exists i :: 0 <= i < |s.log| && s.log[i].tid == t && s.log[i].reply.Created?
  }

  /** All or nothing: the tables are what the `Created` events of the log make of them (`Serializable`), and a
      transaction has one, with all its items, exactly if COMMIT was applied. So an open transaction, one that
      threw a business error and one that found a duplicate have changed nothing; one that was told `Created`,
      or is committed and about to be, has changed everything; only a failure leaves it open which. A finished
      transaction holds neither its key nor a row. */
  lemma AllOrNothing(base: State, run: seq<Label>, t: TxId)
    requires Init(base) && t in Exec(base, run).txs
    ensures EffectFits(Exec(base, run), t)
  {
    RunLogOk(base, run);
    RunKeepsInv(base, run);
    EffectFollowsAnswer(Exec(base, run), t);
  }

  predicate EffectFits(s: State, t: TxId)
    requires t in s.txs
  {
    var ph := s.txs[t].phase;
    && (Open(ph) ==> !TookEffect(s, t))
    && (ph.Finished? && !ph.reply.Created? && !ph.reply.Failed? ==> !TookEffect(s, t))
    && (ph.Committed? || (ph.Finished? && ph.reply.Created?) ==> TookEffect(s, t))
    && (ph.Finished? ==> !HoldsKey(ph) && Rows(ph) == map[])
  }

  lemma EffectFollowsAnswer(s: State, t: TxId)
    requires LogOk(s) && t in s.txs && PhaseOk(s, s.txs[t].req, s.txs[t].phase)
    ensures EffectFits(s, t)
  {
  }
}
