/** Orders and resets that run at the same time, as transactions interleaved statement by statement
    under row locks. Every schedule ends in tables that some one-after-another order of the committed
    calls produces, and it can deadlock only when two resets visit the account rows in different
    orders. */
module BrokerConcurrency {
  import opened Basics
  import opened Broker
  import opened BrokerLedger

  type TxId = nat

  /** A reset's UPDATE visits the two account rows in the order its table scan meets them. */
  datatype Call = PlaceOrder(order: Order) | ResetPortfolio(first: Currency)

  datatype Phase =
    | Start
    // an order: rows read under lock, then writes that nobody else can see before the commit
    | AccountRead(cash: int)
    | RowsRead(cash: int, held: Option<Holding>)
    | Written(holding: Option<Holding>, cashDelta: int)
    | OrderLogged(holding: Option<Holding>, cashDelta: int, id: nat)
    | Audited(holding: Option<Holding>, cashDelta: int, id: nat)
    // a reset: both account rows updated, then the rows each DELETE found
    | FirstAccountReset
    | AccountsReset
    | HoldingsDeleted(rows: set<Ticker>)
    | OrdersDeleted(rows: set<Ticker>, log: set<OrderRow>)
    | Done(ending: Ending)

  datatype Ending = Answered(result: Result) | ResetCommitted | RolledBack

  datatype Tx = Tx(call: Call, phase: Phase)

  /** What is committed. The logs are sets here: rows become visible in commit order, not id order. */
  datatype Tables = Tables(accounts: map<Currency, Account>, holdings: map<Ticker, Holding>,
                           orders: set<OrderRow>, audit: set<AuditRow>)

  /** One committed call of the serial order, with the order id its transaction drew. */
  datatype Event = Event(tx: TxId, id: nat)

  datatype State = State(tables: Tables, txs: seq<Tx>, accountLock: map<Currency, TxId>,
                         rowLock: map<Ticker, TxId>, nextId: nat, history: seq<Event>)

  function Other(c: Currency): Currency { if c.KRW? then USD else KRW }

  function TablesOf(db: Db): Tables {
    Tables(db.accounts, db.holdings, set r | r in db.orders, set r | r in db.audit)
  }

  function Init(db: Db, calls: seq<Call>): State {
    State(TablesOf(db), seq(|calls|, i requires 0 <= i < |calls| => Tx(calls[i], Start)), map[], map[], db.nextId, [])
  }

  // ---- Steps ---------------------------------------------------------------------------------

  function At(s: State, i: TxId, p: Phase): State
    requires i < |s.txs|
  {
    s.(txs := s.txs[i := s.txs[i].(phase := p)])
  }

  function Released(s: State, i: TxId): State {
    s.(accountLock := map c | c in s.accountLock && s.accountLock[c] != i :: s.accountLock[c],
       rowLock := map t | t in s.rowLock && s.rowLock[t] != i :: s.rowLock[t])
  }

  /** End transaction i: its locks go, and unless it was rolled back it joins the serial order. */
  function Finish(s: State, i: TxId, tables: Tables, ending: Ending, id: nat): State
    requires i < |s.txs|
  {
    var s' := Released(At(s, i, Done(ending)), i);
    s'.(tables := tables, history := if ending.RolledBack? then s.history else s.history + [Event(i, id)])
  }

  /** The next statement of an order; None while the row it needs is locked. */
  function OrderStep(s: State, i: TxId, o: Order): Option<State>
    requires i < |s.txs|
  {
    var c := TickerCurrency(o.ticker);
    match s.txs[i].phase
    case Start =>
      if Precheck(o).Some? then Some(Finish(s, i, s.tables, Answered(Rejected(Precheck(o).value)), s.nextId))
      else if c !in s.tables.accounts then Some(Finish(s, i, s.tables, Answered(Rejected(NoAccount(c))), s.nextId))
      else if c in s.accountLock then None
      else Some(At(s, i, AccountRead(s.tables.accounts[c].cash)).(accountLock := s.accountLock[c := i]))
    case AccountRead(cash) =>
      if o.ticker !in s.tables.holdings then Some(At(s, i, RowsRead(cash, None)))
      else if o.ticker in s.rowLock then None
      else Some(At(s, i, RowsRead(cash, Some(s.tables.holdings[o.ticker]))).(rowLock := s.rowLock[o.ticker := i]))
    case RowsRead(cash, held) =>
      if o.quantity <= 0.0 then None else
      (match Decide(o, cash, held)
       case Reject(reason) => Some(Finish(s, i, s.tables, Answered(Rejected(reason)), s.nextId))
       case Fill(holding, delta) => Some(At(s, i, Written(holding, delta))))
    case Written(holding, delta) =>
      Some(At(s, i, OrderLogged(holding, delta, s.nextId)).(nextId := s.nextId + 1))
    case OrderLogged(holding, delta, id) => Some(At(s, i, Audited(holding, delta, id)))
    case Audited(holding, delta, id) =>
      if c !in s.tables.accounts || o.quantity <= 0.0 then None else
      Some(Finish(s, i, Filling(s.tables, o, holding, delta, id),
                  Answered(Filled(id, FillPrice(o), Notional(o), Commission(o))), id))
    case _ => None
  }

  /** The tables once an order's writes are committed. */
  function Filling(m: Tables, o: Order, holding: Option<Holding>, delta: int, id: nat): Tables
    requires TickerCurrency(o.ticker) in m.accounts && o.quantity > 0.0
  {
    var c := TickerCurrency(o.ticker);
    Tables(m.accounts[c := m.accounts[c].(cash := m.accounts[c].cash + delta)], Put(m.holdings, o.ticker, holding),
           m.orders + {OrderRowOf(o, id)}, m.audit + {AuditRowOf(o, id)})
  }

  /** The next statement of a reset. */
  function ResetStep(s: State, i: TxId, first: Currency): Option<State>
    requires i < |s.txs|
  {
    match s.txs[i].phase
    case Start =>
      if first in s.accountLock then None
      else Some(At(s, i, FirstAccountReset).(accountLock := s.accountLock[first := i]))
    case FirstAccountReset =>
      if Other(first) in s.accountLock then None
      else Some(At(s, i, AccountsReset).(accountLock := s.accountLock[Other(first) := i]))
    case AccountsReset =>
      if exists t :: t in s.tables.holdings && t in s.rowLock then None
      else Some(At(s, i, HoldingsDeleted(s.tables.holdings.Keys)))
    case HoldingsDeleted(rows) => Some(At(s, i, OrdersDeleted(rows, s.tables.orders)))
    case OrdersDeleted(rows, log) =>
      var m := s.tables;
      Some(Finish(s, i, Tables(map c | c in m.accounts :: m.accounts[c].(cash := m.accounts[c].initial),
                               m.holdings - rows, m.orders - log, m.audit), ResetCommitted, s.nextId))
    case _ => None
  }

  function Step(s: State, i: TxId): Option<State> {
    if i >= |s.txs| then None
    else match s.txs[i].call
      case PlaceOrder(o) => OrderStep(s, i, o)
      case ResetPortfolio(first) => ResetStep(s, i, first)
  }

  /** Any exception rolls the transaction back; an order id it has drawn stays used up. */
  function Abort(s: State, i: TxId): Option<State> {
    if i >= |s.txs| || s.txs[i].phase.Done? then None else Some(Finish(s, i, s.tables, RolledBack, s.nextId))
  }

  datatype Action = Advance(tx: TxId) | Fail(tx: TxId)

  /** Run a schedule; None if it asks a blocked or finished transaction to move. */
  function Exec(s: State, schedule: seq<Action>): Option<State> {
    if schedule == [] then Some(s)
    else
      var mid := Exec(s, schedule[..|schedule| - 1]);
      if mid.None? then None
      else match schedule[|schedule| - 1]
        case Advance(i) => Step(mid.value, i)
        case Fail(i) => Abort(mid.value, i)
  }

  // ---- The serial order ----------------------------------------------------------------------

  function SerialCall(db: Db, call: Call, id: nat): Db {
    match call
    case PlaceOrder(o) => Execute(db.(nextId := id), o)
    case ResetPortfolio(_) => Reset(db)
  }

  function SerialEnding(db: Db, call: Call, id: nat): Ending {
    match call
    case PlaceOrder(o) => Answered(Outcome(db.(nextId := id), o))
    case ResetPortfolio(_) => ResetCommitted
  }

  ghost predicate EventsInRange(history: seq<Event>, n: nat) {
    forall e :: e in history ==> e.tx < n
  }

  function Serial(db: Db, calls: seq<Call>, history: seq<Event>): Db
    requires EventsInRange(history, |calls|)
  {
    if history == [] then db
    else
      var n := |history| - 1;
      SerialCall(Serial(db, calls, history[..n]), calls[history[n].tx], history[n].id)
  }

  // ---- The invariant -------------------------------------------------------------------------

  ghost predicate Owns(tx: Tx, c: Currency) {
    if tx.phase.Start? || tx.phase.Done? then false
    else match tx.call
      case PlaceOrder(o) => c == TickerCurrency(o.ticker)
      case ResetPortfolio(first) => tx.phase.FirstAccountReset? ==> c == first
  }

  /** Only an order that has read its holdings row keeps that row locked. */
  ghost predicate HoldsRow(tx: Tx, t: Ticker) {
    && tx.call.PlaceOrder? && tx.call.order.ticker == t
    && (tx.phase.RowsRead? || tx.phase.Written? || tx.phase.OrderLogged? || tx.phase.Audited?)
  }

  ghost predicate LocksMatch(s: State) {
    && (forall i, c {:trigger Owns(s.txs[i], c)} :: 0 <= i < |s.txs| ==>
          (Owns(s.txs[i], c) <==> c in s.accountLock && s.accountLock[c] == i))
    && (forall c :: c in s.accountLock ==> s.accountLock[c] < |s.txs|)
    && (forall t :: t in s.rowLock ==> s.rowLock[t] < |s.txs| && HoldsRow(s.txs[s.rowLock[t]], t))
  }

  /** What a transaction has read is still what is committed. */
  ghost predicate ReadsCurrent(m: Tables, tx: Tx) {
    match tx.call
    case PlaceOrder(o) =>
      var c := TickerCurrency(o.ticker);
      (match tx.phase
       case Start => true
       case AccountRead(cash) =>
         Precheck(o).None? && c in m.accounts && cash == m.accounts[c].cash
       case RowsRead(cash, held) =>
         Precheck(o).None? && c in m.accounts && cash == m.accounts[c].cash && held == Get(m.holdings, o.ticker)
       case Written(h, d) => Decided(m, o, h, d)
       case OrderLogged(h, d, _) => Decided(m, o, h, d)
       case Audited(h, d, _) => Decided(m, o, h, d)
       case Done(_) => true
       case _ => false)
    case ResetPortfolio(_) =>
      (match tx.phase
       case Start => true
       case FirstAccountReset => true
       case AccountsReset => true
       case HoldingsDeleted(rows) => rows == m.holdings.Keys
       case OrdersDeleted(rows, log) => rows == m.holdings.Keys && log == m.orders
       case Done(_) => true
       case _ => false)
  }

  ghost predicate Decided(m: Tables, o: Order, h: Option<Holding>, d: int) {
    var c := TickerCurrency(o.ticker);
    Precheck(o).None? && c in m.accounts && Decide(o, m.accounts[c].cash, Get(m.holdings, o.ticker)) == Fill(h, d)
  }

  ghost predicate CommittedTx(tx: Tx) { tx.phase.Done? && !tx.phase.ending.RolledBack? }

  /** The serial order lists each committed call once. */
  ghost predicate Listed(s: State) {
    && (forall j, k :: 0 <= j < k < |s.history| ==> s.history[j].tx != s.history[k].tx)
    && (forall k :: 0 <= k < |s.history| ==> s.history[k].tx < |s.txs| && CommittedTx(s.txs[s.history[k].tx]))
    && (forall i :: 0 <= i < |s.txs| && CommittedTx(s.txs[i]) ==>
          exists k :: 0 <= k < |s.history| && s.history[k].tx == i)
  }

  /** Every committed call was answered as it is in the serial order. */
  ghost predicate AnswersMatch(s: State, db: Db, calls: seq<Call>)
    requires EventsInRange(s.history, |calls|) && |s.txs| == |calls|
  {
    forall k :: 0 <= k < |s.history| ==>
      var e := s.history[k];
      s.txs[e.tx].phase == Done(SerialEnding(Serial(db, calls, s.history[..k]), calls[e.tx], e.id))
  }

  ghost predicate Serialized(s: State, db: Db, calls: seq<Call>) {
    && |s.txs| == |calls| && (forall i :: 0 <= i < |calls| ==> s.txs[i].call == calls[i])
    && EventsInRange(s.history, |calls|)
    && s.tables == TablesOf(Serial(db, calls, s.history))
    && Listed(s)
    && AnswersMatch(s, db, calls)
  }

  ghost predicate Inv(s: State, db: Db, calls: seq<Call>) {
    && s.tables.accounts.Keys == {KRW, USD}
    && LocksMatch(s)
    && (forall i :: 0 <= i < |s.txs| ==> ReadsCurrent(s.tables, s.txs[i]))
    && Serialized(s, db, calls)
  }

  lemma InitInv(db: Db, calls: seq<Call>)
    requires db.accounts.Keys == {KRW, USD}
    ensures Inv(Init(db, calls), db, calls)
  {
  }

  // ---- Every step keeps it -------------------------------------------------------------------

  lemma FinishKeepsLocks(s: State, i: TxId, tables: Tables, ending: Ending, id: nat)
    requires i < |s.txs| && LocksMatch(s)
    ensures LocksMatch(Finish(s, i, tables, ending, id))
  {
    var s' := Finish(s, i, tables, ending, id);
    forall j, c | 0 <= j < |s'.txs|
      ensures Owns(s'.txs[j], c) <==> c in s'.accountLock && s'.accountLock[c] == j
    {
      assert j != i ==> s'.txs[j] == s.txs[j];
    }
    forall t | t in s'.rowLock ensures s'.rowLock[t] < |s'.txs| && HoldsRow(s'.txs[s'.rowLock[t]], t) {
      assert s'.txs[s'.rowLock[t]] == s.txs[s.rowLock[t]];
    }
  }

  lemma SerialExtends(db: Db, calls: seq<Call>, history: seq<Event>, e: Event)
    requires EventsInRange(history, |calls|) && e.tx < |calls|
    ensures EventsInRange(history + [e], |calls|)
    ensures Serial(db, calls, history + [e]) == SerialCall(Serial(db, calls, history), calls[e.tx], e.id)
  {
    assert (history + [e])[..|history|] == history;
  }

  /** Appending a call that ends as it would in the serial order extends the serial order. */
  lemma FinishKeepsSerialized(s: State, i: TxId, tables: Tables, ending: Ending, id: nat, db: Db, calls: seq<Call>)
    requires Serialized(s, db, calls) && i < |s.txs| && !s.txs[i].phase.Done?
    requires ending.RolledBack? ==> tables == s.tables
    requires !ending.RolledBack? ==>
               var now := Serial(db, calls, s.history);
               ending == SerialEnding(now, calls[i], id) && tables == TablesOf(SerialCall(now, calls[i], id))
    ensures Serialized(Finish(s, i, tables, ending, id), db, calls)
  {
    var s' := Finish(s, i, tables, ending, id);
    FinishKeepsListed(s, i, tables, ending, id);
    if !ending.RolledBack? {
      SerialExtends(db, calls, s.history, Event(i, id));
    }
    AnswersExtend(s, s', i, ending, id, db, calls);
  }

  lemma AnswersExtend(s: State, s': State, i: TxId, ending: Ending, id: nat, db: Db, calls: seq<Call>)
    requires |s'.txs| == |s.txs| == |calls| && i < |s.txs|
    requires s'.txs == s.txs[i := s'.txs[i]] && s'.txs[i].phase == Done(ending)
    requires EventsInRange(s.history, |calls|) && AnswersMatch(s, db, calls)
    requires forall k :: 0 <= k < |s.history| ==> s.history[k].tx != i
    requires s'.history == if ending.RolledBack? then s.history else s.history + [Event(i, id)]
    requires !ending.RolledBack? ==> ending == SerialEnding(Serial(db, calls, s.history), calls[i], id)
    ensures EventsInRange(s'.history, |calls|) && AnswersMatch(s', db, calls)
  {
    var n := |s.history|;
    assert s'.history[..n] == s.history;
    forall k | 0 <= k < |s'.history|
      ensures var e := s'.history[k];
              s'.txs[e.tx].phase == Done(SerialEnding(Serial(db, calls, s'.history[..k]), calls[e.tx], e.id))
    {
      if k < n {
        assert s'.history[..k] == s.history[..k];
        assert s'.history[k] == s.history[k];
      }
    }
  }

  lemma FinishKeepsListed(s: State, i: TxId, tables: Tables, ending: Ending, id: nat)
    requires Listed(s) && i < |s.txs| && !s.txs[i].phase.Done?
    ensures Listed(Finish(s, i, tables, ending, id))
  {
    var s' := Finish(s, i, tables, ending, id);
    var n := |s.history|;
    forall j | 0 <= j < |s'.txs| && CommittedTx(s'.txs[j])
      ensures exists k :: 0 <= k < |s'.history| && s'.history[k].tx == j
    {
      if j == i {
        assert s'.history[n].tx == i;
      } else {
        var k :| 0 <= k < n && s.history[k].tx == j;
        assert s'.history[k].tx == j;
      }
    }
    forall k | 0 <= k < |s'.history| ensures s'.history[k].tx < |s'.txs| && CommittedTx(s'.txs[s'.history[k].tx]) {
      if k < n {
        assert s'.history[k] == s.history[k];
      }
    }
  }

  /** s' is s with transaction i moved on to a phase that is still running. */
  ghost predicate Moved(s: State, s': State, i: TxId) {
    && i < |s.txs| == |s'.txs| && !s.txs[i].phase.Done? && !s'.txs[i].phase.Done?
    && s'.txs == s.txs[i := s'.txs[i]] && s'.txs[i].call == s.txs[i].call
    && s'.tables == s.tables && s'.history == s.history
  }

  /** Such a step leaves the serial order alone. */
  lemma MoveKeepsSerialized(s: State, s': State, i: TxId, db: Db, calls: seq<Call>)
    requires Serialized(s, db, calls) && Moved(s, s', i)
    ensures Serialized(s', db, calls)
  {
    forall k | 0 <= k < |s.history| ensures s'.txs[s.history[k].tx] == s.txs[s.history[k].tx] {
      assert CommittedTx(s.txs[s.history[k].tx]);
    }
    forall j | 0 <= j < |s'.txs| && CommittedTx(s'.txs[j])
      ensures exists k :: 0 <= k < |s'.history| && s'.history[k].tx == j
    {
      assert CommittedTx(s.txs[j]);
    }
  }

  lemma MoveKeepsInv(s: State, s': State, i: TxId, db: Db, calls: seq<Call>)
    requires Inv(s, db, calls) && Moved(s, s', i) && LocksMatch(s') && ReadsCurrent(s'.tables, s'.txs[i])
    ensures Inv(s', db, calls)
  {
    MoveKeepsSerialized(s, s', i, db, calls);
    forall j | 0 <= j < |s'.txs| ensures ReadsCurrent(s'.tables, s'.txs[j]) {
      assert j != i ==> s'.txs[j] == s.txs[j];
    }
  }

  /** Moving on without taking or giving up any row. */
  lemma SameOwnerKeepsLocks(s: State, s': State, i: TxId)
    requires LocksMatch(s) && Moved(s, s', i) && s'.accountLock == s.accountLock && s'.rowLock == s.rowLock
    requires forall c :: Owns(s'.txs[i], c) <==> Owns(s.txs[i], c)
    requires forall t :: HoldsRow(s.txs[i], t) ==> HoldsRow(s'.txs[i], t)
    ensures LocksMatch(s')
  {
    forall j, c | 0 <= j < |s'.txs| ensures Owns(s'.txs[j], c) <==> c in s'.accountLock && s'.accountLock[c] == j {
      assert j != i ==> s'.txs[j] == s.txs[j];
    }
    forall t | t in s'.rowLock ensures s'.rowLock[t] < |s'.txs| && HoldsRow(s'.txs[s'.rowLock[t]], t) {
      assert s.rowLock[t] != i ==> s'.txs[s.rowLock[t]] == s.txs[s.rowLock[t]];
    }
  }

  /** Taking a holdings row. */
  lemma LockRowKeepsLocks(s: State, s': State, i: TxId, t: Ticker)
    requires LocksMatch(s) && Moved(s, s', i) && s'.accountLock == s.accountLock && s'.rowLock == s.rowLock[t := i]
    requires forall c :: Owns(s'.txs[i], c) <==> Owns(s.txs[i], c)
    requires (forall u :: !HoldsRow(s.txs[i], u)) && HoldsRow(s'.txs[i], t)
    ensures LocksMatch(s')
  {
    var mid := s'.(rowLock := s.rowLock);
    SameOwnerKeepsLocks(s, mid, i);
  }

  /** Taking a free account row. */
  lemma AcquireKeepsLocks(s: State, s': State, i: TxId, c: Currency)
    requires LocksMatch(s) && Moved(s, s', i) && c !in s.accountLock
    requires s'.accountLock == s.accountLock[c := i] && s'.rowLock == s.rowLock
    requires forall t :: !HoldsRow(s.txs[i], t)
    requires forall k :: Owns(s'.txs[i], k) <==> Owns(s.txs[i], k) || k == c
    ensures LocksMatch(s')
  {
    forall j, k | 0 <= j < |s'.txs| ensures Owns(s'.txs[j], k) <==> k in s'.accountLock && s'.accountLock[k] == j {
      assert j != i ==> s'.txs[j] == s.txs[j];
      assert Owns(s.txs[j], k) <==> k in s.accountLock && s.accountLock[k] == j;
    }
    forall t | t in s'.rowLock ensures s'.rowLock[t] < |s'.txs| && HoldsRow(s'.txs[s'.rowLock[t]], t) {
      if s'.rowLock[t] != i {
        assert s'.txs[s'.rowLock[t]] == s.txs[s.rowLock[t]];
      }
    }
  }

  lemma CommitMatchesSerial(now: Db, o: Order, h: Option<Holding>, d: int, id: nat)
    requires Decided(TablesOf(now), o, h, d)
    ensures SerialEnding(now, PlaceOrder(o), id) == Answered(Filled(id, FillPrice(o), Notional(o), Commission(o)))
    ensures TablesOf(SerialCall(now, PlaceOrder(o), id)) == Filling(TablesOf(now), o, h, d, id)
  {
  }

  /** Ending transaction i keeps the invariant if its tables and answer are the serial ones and what
      the others have read stays current. */
  lemma FinishKeepsInv(s: State, i: TxId, m: Tables, ending: Ending, id: nat, db: Db, calls: seq<Call>)
    requires Inv(s, db, calls) && i < |s.txs| && !s.txs[i].phase.Done? && m.accounts.Keys == {KRW, USD}
    requires ending.RolledBack? ==> m == s.tables
    requires !ending.RolledBack? ==>
               var now := Serial(db, calls, s.history);
               ending == SerialEnding(now, calls[i], id) && m == TablesOf(SerialCall(now, calls[i], id))
    requires forall j :: 0 <= j < |s.txs| && j != i ==> ReadsCurrent(m, s.txs[j])
    ensures Inv(Finish(s, i, m, ending, id), db, calls)
  {
    var s' := Finish(s, i, m, ending, id);
    FinishKeepsLocks(s, i, m, ending, id);
    FinishKeepsSerialized(s, i, m, ending, id, db, calls);
    forall j | 0 <= j < |s'.txs| ensures ReadsCurrent(s'.tables, s'.txs[j]) {
      assert j != i ==> s'.txs[j] == s.txs[j];
    }
  }

  lemma OrderStepKeepsInv(s: State, i: TxId, o: Order, db: Db, calls: seq<Call>)
    requires Inv(s, db, calls) && i < |s.txs| && s.txs[i].call == PlaceOrder(o) && OrderStep(s, i, o).Some?
    ensures Inv(OrderStep(s, i, o).value, db, calls)
  {
    assert ReadsCurrent(s.tables, s.txs[i]);
    if s.txs[i].phase.Start? {
      OrderStartKeepsInv(s, i, o, db, calls);
    } else if s.txs[i].phase.RowsRead? {
      OrderDecideKeepsInv(s, i, o, db, calls);
    } else if s.txs[i].phase.Audited? {
      var p := s.txs[i].phase;
      var ending := Answered(Filled(p.id, FillPrice(o), Notional(o), Commission(o)));
      CommitMatchesSerial(Serial(db, calls, s.history), o, p.holding, p.cashDelta, p.id);
      CommitKeepsReads(s, i, o, p.holding, p.cashDelta, p.id);
      FinishKeepsInv(s, i, Filling(s.tables, o, p.holding, p.cashDelta, p.id), ending, p.id, db, calls);
    } else if s.txs[i].phase.AccountRead? {
      OrderReadKeepsInv(s, i, o, db, calls);
    } else {
      OrderLogKeepsInv(s, i, o, db, calls);
    }
  }

  lemma OrderStartKeepsInv(s: State, i: TxId, o: Order, db: Db, calls: seq<Call>)
    requires Inv(s, db, calls) && i < |s.txs| && s.txs[i] == Tx(PlaceOrder(o), Start) && OrderStep(s, i, o).Some?
    ensures Inv(OrderStep(s, i, o).value, db, calls)
  {
    if Precheck(o).Some? {
      FinishKeepsInv(s, i, s.tables, Answered(Rejected(Precheck(o).value)), s.nextId, db, calls);
    } else {
      AcquireKeepsLocks(s, OrderStep(s, i, o).value, i, TickerCurrency(o.ticker));
      MoveKeepsInv(s, OrderStep(s, i, o).value, i, db, calls);
    }
  }

  lemma OrderDecideKeepsInv(s: State, i: TxId, o: Order, db: Db, calls: seq<Call>)
    requires Inv(s, db, calls) && i < |s.txs| && s.txs[i].call == PlaceOrder(o) && OrderStep(s, i, o).Some?
    requires s.txs[i].phase.RowsRead? && ReadsCurrent(s.tables, s.txs[i])
    ensures Inv(OrderStep(s, i, o).value, db, calls)
  {
    var s' := OrderStep(s, i, o).value;
    var decision := Decide(o, s.txs[i].phase.cash, s.txs[i].phase.held);
    if decision.Reject? {
      assert DecisionFor(Serial(db, calls, s.history).(nextId := s.nextId), o) == decision;
      FinishKeepsInv(s, i, s.tables, Answered(Rejected(decision.reason)), s.nextId, db, calls);
    } else {
      SameOwnerKeepsLocks(s, s', i);
      MoveKeepsInv(s, s', i, db, calls);
    }
  }

  lemma OrderReadKeepsInv(s: State, i: TxId, o: Order, db: Db, calls: seq<Call>)
    requires Inv(s, db, calls) && i < |s.txs| && s.txs[i].call == PlaceOrder(o) && OrderStep(s, i, o).Some?
    requires s.txs[i].phase.AccountRead?
    ensures Inv(OrderStep(s, i, o).value, db, calls)
  {
    var s' := OrderStep(s, i, o).value;
    assert ReadsCurrent(s.tables, s.txs[i]);
    if o.ticker in s.tables.holdings {
      LockRowKeepsLocks(s, s', i, o.ticker);
    } else {
      SameOwnerKeepsLocks(s, s', i);
    }
    MoveKeepsInv(s, s', i, db, calls);
  }

  lemma OrderLogKeepsInv(s: State, i: TxId, o: Order, db: Db, calls: seq<Call>)
    requires Inv(s, db, calls) && i < |s.txs| && s.txs[i].call == PlaceOrder(o) && OrderStep(s, i, o).Some?
    requires s.txs[i].phase.Written? || s.txs[i].phase.OrderLogged?
    ensures Inv(OrderStep(s, i, o).value, db, calls)
  {
    var s' := OrderStep(s, i, o).value;
    assert ReadsCurrent(s.tables, s.txs[i]);
    SameOwnerKeepsLocks(s, s', i);
    MoveKeepsInv(s, s', i, db, calls);
  }

  lemma CommitKeepsReads(s: State, i: TxId, o: Order, h: Option<Holding>, d: int, id: nat)
    requires LocksMatch(s) && (forall j :: 0 <= j < |s.txs| ==> ReadsCurrent(s.tables, s.txs[j]))
    requires i < |s.txs| && s.txs[i] == Tx(PlaceOrder(o), Audited(h, d, id)) && Decided(s.tables, o, h, d)
    ensures forall j :: 0 <= j < |s.txs| && j != i ==> ReadsCurrent(Filling(s.tables, o, h, d, id), s.txs[j])
  {
    forall j | 0 <= j < |s.txs| && j != i ensures ReadsCurrent(Filling(s.tables, o, h, d, id), s.txs[j]) {
      OtherReadsStable(s, i, j, o, h, d, id);
    }
  }

  /** While order i holds its account row, no other transaction has read what i is about to change. */
  lemma OtherReadsStable(s: State, i: TxId, j: TxId, o: Order, h: Option<Holding>, d: int, id: nat)
    requires LocksMatch(s) && i < |s.txs| && j < |s.txs| && i != j
    requires s.txs[i] == Tx(PlaceOrder(o), Audited(h, d, id)) && Decided(s.tables, o, h, d)
    requires ReadsCurrent(s.tables, s.txs[j])
    ensures ReadsCurrent(Filling(s.tables, o, h, d, id), s.txs[j])
  {
    var c := TickerCurrency(o.ticker);
    assert Owns(s.txs[i], c);
    assert !Owns(s.txs[j], c);
  }

  lemma ResetStepKeepsInv(s: State, i: TxId, first: Currency, db: Db, calls: seq<Call>)
    requires Inv(s, db, calls) && i < |s.txs| && s.txs[i].call == ResetPortfolio(first) && ResetStep(s, i, first).Some?
    ensures Inv(ResetStep(s, i, first).value, db, calls)
  {
    if s.txs[i].phase.Start? || s.txs[i].phase.FirstAccountReset? {
      ResetLockKeepsInv(s, i, first, db, calls);
    } else if s.txs[i].phase.OrdersDeleted? {
      ResetCommitKeepsInv(s, i, first, db, calls);
    } else {
      ResetReadKeepsInv(s, i, first, db, calls);
    }
  }

  lemma ResetLockKeepsInv(s: State, i: TxId, first: Currency, db: Db, calls: seq<Call>)
    requires Inv(s, db, calls) && i < |s.txs| && s.txs[i].call == ResetPortfolio(first) && ResetStep(s, i, first).Some?
    requires s.txs[i].phase.Start? || s.txs[i].phase.FirstAccountReset?
    ensures Inv(ResetStep(s, i, first).value, db, calls)
  {
    var s' := ResetStep(s, i, first).value;
    AcquireKeepsLocks(s, s', i, if s.txs[i].phase.Start? then first else Other(first));
    MoveKeepsInv(s, s', i, db, calls);
  }

  lemma ResetReadKeepsInv(s: State, i: TxId, first: Currency, db: Db, calls: seq<Call>)
    requires Inv(s, db, calls) && i < |s.txs| && s.txs[i].call == ResetPortfolio(first) && ResetStep(s, i, first).Some?
    requires s.txs[i].phase.AccountsReset? || s.txs[i].phase.HoldingsDeleted?
    ensures Inv(ResetStep(s, i, first).value, db, calls)
  {
    var s' := ResetStep(s, i, first).value;
    assert ReadsCurrent(s.tables, s.txs[i]);
    SameOwnerKeepsLocks(s, s', i);
    MoveKeepsInv(s, s', i, db, calls);
  }

  lemma ResetCommitKeepsInv(s: State, i: TxId, first: Currency, db: Db, calls: seq<Call>)
    requires Inv(s, db, calls) && i < |s.txs| && s.txs[i].call == ResetPortfolio(first)
    requires s.txs[i].phase.OrdersDeleted?
    ensures Inv(ResetStep(s, i, first).value, db, calls)
  {
    var s' := ResetStep(s, i, first).value;
    assert ReadsCurrent(s.tables, s.txs[i]);
    forall j | 0 <= j < |s.txs| && j != i ensures ReadsCurrent(s'.tables, s.txs[j]) {
      OthersIdleDuringReset(s, i, j);
    }
    FinishKeepsInv(s, i, s'.tables, ResetCommitted, s.nextId, db, calls);
  }

  /** While a reset holds both account rows, every other transaction has not begun or has ended. */
  lemma OthersIdleDuringReset(s: State, i: TxId, j: TxId)
    requires LocksMatch(s) && i < |s.txs| && j < |s.txs| && i != j
    requires s.txs[i].call.ResetPortfolio? && s.txs[i].phase.OrdersDeleted?
    ensures s.txs[j].phase.Start? || s.txs[j].phase.Done?
  {
    assert Owns(s.txs[i], KRW);
    assert Owns(s.txs[i], USD);
    assert !Owns(s.txs[j], KRW);
    assert !Owns(s.txs[j], USD);
  }

  lemma {:induction false} ExecKeepsInv(db: Db, calls: seq<Call>, schedule: seq<Action>)
    requires db.accounts.Keys == {KRW, USD} && Exec(Init(db, calls), schedule).Some?
    ensures Inv(Exec(Init(db, calls), schedule).value, db, calls)
  {
    if schedule == [] {
      InitInv(db, calls);
    } else {
      var n := |schedule| - 1;
      ExecKeepsInv(db, calls, schedule[..n]);
      var mid := Exec(Init(db, calls), schedule[..n]).value;
      match schedule[n] {
        case Advance(i) =>
          if mid.txs[i].call.PlaceOrder? { OrderStepKeepsInv(mid, i, mid.txs[i].call.order, db, calls); }
          else { ResetStepKeepsInv(mid, i, mid.txs[i].call.first, db, calls); }
        case Fail(i) =>
          FinishKeepsInv(mid, i, mid.tables, RolledBack, mid.nextId, db, calls);
      }
    }
  }

  // ---- What every schedule guarantees --------------------------------------------------------

  /** Any interleaving of orders, resets and rollbacks: the committed tables, and the answer every
      committed call got, are those of running the committed calls one after another in the order
      `history`; if nothing was rolled back and everything has finished, that is all of the calls. */
  lemma EveryScheduleIsSerial(db: Db, calls: seq<Call>, schedule: seq<Action>)
    requires db.accounts.Keys == {KRW, USD} && Exec(Init(db, calls), schedule).Some?
    ensures var s := Exec(Init(db, calls), schedule).value;
            && |s.txs| == |calls| && EventsInRange(s.history, |calls|)
            && s.tables == TablesOf(Serial(db, calls, s.history))
            && Listed(s) && AnswersMatch(s, db, calls)
            && ((forall tx :: tx in s.txs ==> CommittedTx(tx)) ==>
                  multiset(Callers(s.history))
                  == multiset(FirstNats(|calls|)))
  {
    ExecKeepsInv(db, calls, schedule);
    var s := Exec(Init(db, calls), schedule).value;
    if forall tx :: tx in s.txs ==> CommittedTx(tx) {
      EveryCallOnce(s);
    }
  }

  /** When everything has committed, the history lists every call once. */
  lemma EveryCallOnce(s: State)
    requires EventsInRange(s.history, |s.txs|) && Listed(s) && forall tx :: tx in s.txs ==> CommittedTx(tx)
    ensures multiset(Callers(s.history)) == multiset(FirstNats(|s.txs|))
  {
    var order := Callers(s.history);
    forall i | 0 <= i < |s.txs| ensures i in order {
      assert s.txs[i] in s.txs;
      var k :| 0 <= k < |s.history| && s.history[k].tx == i;
      assert order[k] == i;
    }
    DistinctCoverIsPermutation(order, |s.txs|);
  }

  function Callers(history: seq<Event>): seq<TxId> {
    seq(|history|, k requires 0 <= k < |history| => history[k].tx)
  }

  function FirstNats(n: nat): seq<nat> { seq(n, i requires 0 <= i < n => i) }

  lemma DistinctCoverIsPermutation(order: seq<nat>, n: nat)
    requires forall j, k :: 0 <= j < k < |order| ==> order[j] != order[k]
    requires forall i: nat :: i in order <==> i < n
    ensures multiset(order) == multiset(FirstNats(n))
  {
    var all := FirstNats(n);
    forall i: nat ensures multiset(order)[i] == multiset(all)[i] {
      CountDistinct(order, i);
      assert forall j, k :: 0 <= j < k < |all| ==> all[j] != all[k];
      CountDistinct(all, i);
      if i < n { assert all[i] == i; }
    }
  }

  lemma {:induction false} CountDistinct(s: seq<nat>, x: nat)
    requires forall j, k :: 0 <= j < k < |s| ==> s[j] != s[k]
    ensures multiset(s)[x] == if x in s then 1 else 0
  {
    if s != [] {
      var n := |s| - 1;
      CountDistinct(s[..n], x);
      assert s == s[..n] + [s[n]];
      assert s[n] !in s[..n];
    }
  }

  // ---- Order ids -----------------------------------------------------------------------------

  /** The order id a transaction has drawn from the sequence. */
  function IdOf(tx: Tx): Option<nat> {
    match tx.phase
    case OrderLogged(_, _, id) => Some(id)
    case Audited(_, _, id) => Some(id)
    case Done(Answered(Filled(id, _, _, _))) => Some(id)
    case _ => None
  }

  ghost predicate IdsUnique(s: State, first: nat) {
    && first <= s.nextId
    && (forall i :: 0 <= i < |s.txs| && IdOf(s.txs[i]).Some? ==> first <= IdOf(s.txs[i]).value < s.nextId)
    && (forall i, j :: 0 <= i < j < |s.txs| && IdOf(s.txs[i]).Some? && IdOf(s.txs[j]).Some? ==>
          IdOf(s.txs[i]) != IdOf(s.txs[j]))
  }

  /** Transaction i keeps its id, drops it, or draws the next one; the others are left alone. */
  ghost predicate DrawsAtMostOne(s: State, s': State, i: TxId) {
    && i < |s.txs| == |s'.txs| && s'.txs == s.txs[i := s'.txs[i]]
    && var before, now := IdOf(s.txs[i]), IdOf(s'.txs[i]);
       || (s'.nextId == s.nextId && (now == None || now == before))
       || (s'.nextId == s.nextId + 1 && now == Some(s.nextId))
  }

  lemma OrderStepDraws(s: State, i: TxId, o: Order)
    requires i < |s.txs| && OrderStep(s, i, o).Some?
    ensures DrawsAtMostOne(s, OrderStep(s, i, o).value, i)
  {
  }

  lemma ResetStepDraws(s: State, i: TxId, first: Currency)
    requires i < |s.txs| && ResetStep(s, i, first).Some?
    ensures DrawsAtMostOne(s, ResetStep(s, i, first).value, i)
  {
  }

  lemma DrawKeepsIds(s: State, s': State, i: TxId, first: nat)
    requires IdsUnique(s, first) && DrawsAtMostOne(s, s', i)
    ensures IdsUnique(s', first)
  {
  }

  lemma {:induction false} ExecKeepsIds(db: Db, calls: seq<Call>, schedule: seq<Action>)
    requires Exec(Init(db, calls), schedule).Some?
    ensures IdsUnique(Exec(Init(db, calls), schedule).value, db.nextId)
  {
    if schedule != [] {
      var n := |schedule| - 1;
      ExecKeepsIds(db, calls, schedule[..n]);
      var mid, s := Exec(Init(db, calls), schedule[..n]).value, Exec(Init(db, calls), schedule).value;
      var i := schedule[n].tx;
      if schedule[n].Advance? {
        match mid.txs[i].call {
          case PlaceOrder(o) => OrderStepDraws(mid, i, o);
          case ResetPortfolio(first) => ResetStepDraws(mid, i, first);
        }
      }
      DrawKeepsIds(mid, s, i, db.nextId);
    }
  }

  /** No two fills are answered with the same order id, and none reuses an id from before, however the
      transactions interleave and roll back. */
  lemma FilledIdsAreFresh(db: Db, calls: seq<Call>, schedule: seq<Action>, i: TxId, j: TxId)
    requires Exec(Init(db, calls), schedule).Some?
    requires var s := Exec(Init(db, calls), schedule).value;
             && i < j < |s.txs|
             && s.txs[i].phase.Done? && s.txs[i].phase.ending.Answered? && s.txs[i].phase.ending.result.Filled?
             && s.txs[j].phase.Done? && s.txs[j].phase.ending.Answered? && s.txs[j].phase.ending.result.Filled?
    ensures var s := Exec(Init(db, calls), schedule).value;
            var a, b := s.txs[i].phase.ending.result.orderId, s.txs[j].phase.ending.result.orderId;
            a != b && db.nextId <= a && db.nextId <= b
  {
    ExecKeepsIds(db, calls, schedule);
    var s := Exec(Init(db, calls), schedule).value;
    assert IdOf(s.txs[i]).Some? && IdOf(s.txs[j]).Some?;
  }

  // ---- The books -----------------------------------------------------------------------------

  ghost predicate DistinctIds(log: seq<OrderRow>) {
    forall j, k :: 0 <= j < k < |log| ==> log[j].id != log[k].id
  }

  /** The committed tables seen as books: the order rows, listed once each, with the audit row of each;
      holdings and cash are the folds of those rows. */
  ghost predicate Books(m: Tables, log: seq<OrderRow>, audit: seq<AuditRow>) {
    && (set r | r in log) == m.orders && DistinctIds(log)
    && |audit| == |log| && (forall k :: 0 <= k < |log| ==> audit[k] in m.audit && RowsAgree(log[k], audit[k]))
    && (forall t :: HeldQty(Get(m.holdings, t)) == NetQty(log, t))
    && (forall c :: c in m.accounts ==> m.accounts[c].cash == m.accounts[c].initial + CashFold(audit, c))
  }

  /** Event k of the history is an order that is filled. */
  ghost predicate FilledAt(db: Db, calls: seq<Call>, history: seq<Event>, k: nat)
    requires EventsInRange(history, |calls|) && k < |history|
  {
    var call := calls[history[k].tx];
    call.PlaceOrder? && DecisionFor(Serial(db, calls, history[..k]), call.order).Fill?
  }

  ghost predicate FilledIdsDistinct(db: Db, calls: seq<Call>, history: seq<Event>)
    requires EventsInRange(history, |calls|)
  {
    forall j, k :: 0 <= j < k < |history| && FilledAt(db, calls, history, j) && FilledAt(db, calls, history, k) ==>
      history[j].id != history[k].id
  }

  ghost predicate IdFromHistory(db: Db, calls: seq<Call>, history: seq<Event>, id: nat)
    requires EventsInRange(history, |calls|)
  {
    exists k :: 0 <= k < |history| && FilledAt(db, calls, history, k) && history[k].id == id
  }

  lemma FilledAtPrefix(db: Db, calls: seq<Call>, history: seq<Event>, n: nat, k: nat)
    requires EventsInRange(history, |calls|) && k < n <= |history|
    ensures FilledAt(db, calls, history[..n], k) <==> FilledAt(db, calls, history, k)
  {
    assert history[..n][..k] == history[..k];
  }

  /** An id drawn before the last event is not the one that a filled last event drew. */
  lemma EarlierId(db: Db, calls: seq<Call>, history: seq<Event>, id: nat)
    requires history != [] && EventsInRange(history, |calls|) && FilledIdsDistinct(db, calls, history)
    requires IdFromHistory(db, calls, history[..|history| - 1], id)
    ensures IdFromHistory(db, calls, history, id)
    ensures FilledAt(db, calls, history, |history| - 1) ==> id != history[|history| - 1].id
  {
    var n := |history| - 1;
    var k :| 0 <= k < n && FilledAt(db, calls, history[..n], k) && history[..n][k].id == id;
    FilledAtPrefix(db, calls, history, n, k);
    assert history[k].id == id;
  }

  lemma FilledIdsPrefix(db: Db, calls: seq<Call>, history: seq<Event>)
    requires history != [] && EventsInRange(history, |calls|) && FilledIdsDistinct(db, calls, history)
    ensures FilledIdsDistinct(db, calls, history[..|history| - 1])
  {
    var n := |history| - 1;
    forall j, k | 0 <= j < k < n && FilledAt(db, calls, history[..n], j) && FilledAt(db, calls, history[..n], k)
      ensures history[..n][j].id != history[..n][k].id
    {
      FilledAtPrefix(db, calls, history, n, j);
      FilledAtPrefix(db, calls, history, n, k);
    }
  }

  /** Every row of the serial order log carries the id of a filled event, and no two the same. */
  lemma {:induction false} SerialIds(db: Db, calls: seq<Call>, history: seq<Event>)
    requires db.orders == [] && EventsInRange(history, |calls|) && FilledIdsDistinct(db, calls, history)
    ensures var log := Serial(db, calls, history).orders;
            DistinctIds(log) && forall r :: r in log ==> IdFromHistory(db, calls, history, r.id)
  {
    if history != [] {
      var n := |history| - 1;
      FilledIdsPrefix(db, calls, history);
      SerialIds(db, calls, history[..n]);
      LogGrows(db, calls, history);
      var before, after := Serial(db, calls, history[..n]).orders, Serial(db, calls, history).orders;
      forall r | r in before
        ensures IdFromHistory(db, calls, history, r.id)
        ensures FilledAt(db, calls, history, n) ==> r.id != history[n].id
      {
        EarlierId(db, calls, history, r.id);
      }
      AppendedIds(db, calls, history, before, after);
    }
  }

  lemma AppendedIds(db: Db, calls: seq<Call>, history: seq<Event>, before: seq<OrderRow>, after: seq<OrderRow>)
    requires history != [] && EventsInRange(history, |calls|) && DistinctIds(before)
    requires var n := |history| - 1;
             || after == [] || after == before
             || (FilledAt(db, calls, history, n) && |after| == |before| + 1 && after[..|before|] == before
                 && after[|before|].id == history[n].id)
    requires forall r :: r in before ==> IdFromHistory(db, calls, history, r.id)
    requires FilledAt(db, calls, history, |history| - 1) ==>
               forall r :: r in before ==> r.id != history[|history| - 1].id
    ensures DistinctIds(after) && forall r :: r in after ==> IdFromHistory(db, calls, history, r.id)
  {
    if after != [] && after != before {
      assert after == before + [after[|before|]];
      forall j | 0 <= j < |before| ensures after[j].id != after[|before|].id {
        assert after[j] == before[j] && before[j] in before;
      }
    }
  }

  /** One more event adds at most one row, with the id of the event, if it is filled. */
  lemma LogGrows(db: Db, calls: seq<Call>, history: seq<Event>)
    requires history != [] && EventsInRange(history, |calls|)
    ensures var n := |history| - 1;
            var before, after := Serial(db, calls, history[..n]).orders, Serial(db, calls, history).orders;
            || after == [] || after == before
            || (FilledAt(db, calls, history, n) && |after| == |before| + 1 && after[..|before|] == before
                && after[|before|].id == history[n].id)
  {
  }

  /** The ids that filled events drew are those their callers were answered with. */
  lemma HistoryIdsDistinct(s: State, db: Db, calls: seq<Call>, first: nat)
    requires Serialized(s, db, calls) && IdsUnique(s, first)
    ensures FilledIdsDistinct(db, calls, s.history)
  {
    forall j, k | 0 <= j < k < |s.history| && FilledAt(db, calls, s.history, j) && FilledAt(db, calls, s.history, k)
      ensures s.history[j].id != s.history[k].id
    {
      FilledAnswer(s, db, calls, j);
      FilledAnswer(s, db, calls, k);
      assert s.history[j].tx != s.history[k].tx;
    }
  }

  lemma IdOfFilled(tx: Tx, now: Db, call: Call, id: nat)
    requires call.PlaceOrder? && DecisionFor(now, call.order).Fill? && tx.phase == Done(SerialEnding(now, call, id))
    ensures IdOf(tx) == Some(id)
  {
    assert DecisionFor(now.(nextId := id), call.order) == DecisionFor(now, call.order);
  }

  lemma AnswerAt(s: State, db: Db, calls: seq<Call>, k: nat)
    requires EventsInRange(s.history, |calls|) && |s.txs| == |calls| && AnswersMatch(s, db, calls) && k < |s.history|
    ensures var e := s.history[k];
            s.txs[e.tx].phase == Done(SerialEnding(Serial(db, calls, s.history[..k]), calls[e.tx], e.id))
  {
  }

  lemma FilledAnswer(s: State, db: Db, calls: seq<Call>, k: nat)
    requires EventsInRange(s.history, |calls|) && |s.txs| == |calls| && AnswersMatch(s, db, calls) && k < |s.history|
    requires FilledAt(db, calls, s.history, k)
    ensures IdOf(s.txs[s.history[k].tx]) == Some(s.history[k].id)
  {
    AnswerAt(s, db, calls, k);
    var e := s.history[k];
    IdOfFilled(s.txs[e.tx], Serial(db, calls, s.history[..k]), calls[e.tx], e.id);
  }

  lemma {:induction false} SerialKeepsBooks(db: Db, calls: seq<Call>, history: seq<Event>)
    requires Fresh(db) && EventsInRange(history, |calls|)
    requires forall call :: call in calls && call.PlaceOrder? ==>
               RatesInRange(call.order) && OnGrid(call.order.quantity)
    ensures Kept(Serial(db, calls, history))
  {
    if history != [] {
      var n := |history| - 1;
      SerialKeepsBooks(db, calls, history[..n]);
      var mid := Serial(db, calls, history[..n]).(nextId := history[n].id);
      var call := calls[history[n].tx];
      assert call in calls;
      match call {
        case PlaceOrder(o) =>
          SameBooks(Serial(db, calls, history[..n]), history[n].id);
          ExecuteKeepsBooks(mid, o);
        case ResetPortfolio(_) =>
      }
    }
  }

  ghost predicate Kept(db: Db) {
    Solvent(db) && RowsPositive(db) && HoldingsMatchOrders(db) && CashMatchesAudit(db) && LogsAgree(db)
  }

  /** Where the id sequence stands does not matter to the books. */
  lemma SameBooks(db: Db, id: nat)
    requires Kept(db)
    ensures Kept(db.(nextId := id))
  {
    var db' := db.(nextId := id);
    forall t ensures MatchesAt(db', t) { assert MatchesAt(db, t); }
    assert |db.orders| <= |db.audit| && AuditSinceReset(db') == AuditSinceReset(db);
  }

  lemma ExecuteKeepsBooks(db: Db, o: Order)
    requires Kept(db) && RatesInRange(o) && OnGrid(o.quantity)
    ensures Kept(Execute(db, o))
  {
    ExecuteKeepsSolvent(db, o);
    ExecuteKeepsPositive(db, o);
    ExecuteKeepsHoldings(db, o);
    ExecuteKeepsCash(db, o);
    ExecuteKeepsLogs(db, o);
  }

  /** The sequential bookkeeping survives concurrency: on any schedule no account is overdrawn, every
      holdings row is strictly positive, and the committed order rows, each counted once and paired
      with its audit row, account for every share held and for all cash; cash rebuilt from the order
      rows alone stays within its error budget. */
  lemma ConcurrentBooksBalance(db: Db, calls: seq<Call>, schedule: seq<Action>)
    requires Fresh(db) && db.accounts.Keys == {KRW, USD} && Exec(Init(db, calls), schedule).Some?
    requires forall call :: call in calls && call.PlaceOrder? ==>
               RatesInRange(call.order) && OnGrid(call.order.quantity)
    ensures var m := Exec(Init(db, calls), schedule).value.tables;
            && (forall c :: c in m.accounts ==> m.accounts[c].cash >= 0)
            && (forall t :: t in m.holdings ==> m.holdings[t].quantity > 0)
            && exists log, audit :: Books(m, log, audit) && forall c :: c in m.accounts ==>
                 -ErrorBudget(log, c) <= (m.accounts[c].initial - m.accounts[c].cash) as real + RebuiltCash(log, c)
                 <= ErrorBudget(log, c)
  {
    ExecKeepsInv(db, calls, schedule);
    ExecKeepsIds(db, calls, schedule);
    var s := Exec(Init(db, calls), schedule).value;
    HistoryIdsDistinct(s, db, calls, db.nextId);
    SerialIds(db, calls, s.history);
    SerialKeepsBooks(db, calls, s.history);
    var end := Serial(db, calls, s.history);
    BooksOfSerial(end);
    forall c | c in end.accounts
      ensures -ErrorBudget(end.orders, c) <= RebuiltCash(end.orders, c) - CashFold(AuditSinceReset(end), c) as real
              <= ErrorBudget(end.orders, c)
    {
      RebuiltCashError(end.orders, AuditSinceReset(end), c);
    }
  }

  lemma BooksOfSerial(end: Db)
    requires Kept(end) && DistinctIds(end.orders)
    ensures Books(TablesOf(end), end.orders, AuditSinceReset(end))
  {
    var audit := AuditSinceReset(end);
    forall k | 0 <= k < |end.orders| ensures audit[k] in TablesOf(end).audit && RowsAgree(end.orders[k], audit[k]) {
      assert audit[k] in end.audit;
    }
    forall t ensures HeldQty(Get(end.holdings, t)) == NetQty(end.orders, t) { assert MatchesAt(end, t); }
  }

  // ---- Waiting -------------------------------------------------------------------------------

  /** Transaction i cannot move until j ends: its next statement needs a row that j has locked. */
  ghost predicate WaitsFor(s: State, i: TxId, j: TxId) {
    && i < |s.txs| && j < |s.txs|
    && match s.txs[i].call
       case PlaceOrder(o) =>
         var c := TickerCurrency(o.ticker);
         || (s.txs[i].phase.Start? && Precheck(o).None? && c in s.tables.accounts
             && c in s.accountLock && s.accountLock[c] == j)
         || (s.txs[i].phase.AccountRead? && o.ticker in s.tables.holdings
             && o.ticker in s.rowLock && s.rowLock[o.ticker] == j)
       case ResetPortfolio(first) =>
         || (s.txs[i].phase.Start? && first in s.accountLock && s.accountLock[first] == j)
         || (s.txs[i].phase.FirstAccountReset? && Other(first) in s.accountLock && s.accountLock[Other(first)] == j)
         || (s.txs[i].phase.AccountsReset? && exists t :: t in s.tables.holdings && t in s.rowLock && s.rowLock[t] == j)
  }

  /** A transaction moves unless it has ended or waits for another. */
  lemma BlockedMeansWaiting(s: State, db: Db, calls: seq<Call>, i: TxId)
    requires Inv(s, db, calls) && i < |s.txs| && !s.txs[i].phase.Done?
    ensures Step(s, i).Some? <==> forall j :: !WaitsFor(s, i, j)
  {
    assert ReadsCurrent(s.tables, s.txs[i]);
    if Step(s, i).None? {
      match s.txs[i].call {
        case PlaceOrder(o) =>
          if s.txs[i].phase.Start? { assert WaitsFor(s, i, s.accountLock[TickerCurrency(o.ticker)]); }
          else { assert WaitsFor(s, i, s.rowLock[o.ticker]); }
        case ResetPortfolio(first) =>
          if s.txs[i].phase.Start? { assert WaitsFor(s, i, s.accountLock[first]); }
          else if s.txs[i].phase.FirstAccountReset? { assert WaitsFor(s, i, s.accountLock[Other(first)]); }
          else {
            var t :| t in s.tables.holdings && t in s.rowLock;
            assert WaitsFor(s, i, s.rowLock[t]);
          }
      }
    }
  }

  /** The account row comes first, so the rows behind it are never waited for: a waiting transaction
      is about to take an account row, and only a reset waits while it holds one. */
  lemma OnlyAccountRowsAreWaitedFor(s: State, i: TxId, j: TxId)
    requires LocksMatch(s) && WaitsFor(s, i, j)
    ensures i != j && !s.txs[j].phase.Start? && !s.txs[j].phase.Done?
    ensures s.txs[i].phase.Start? || (s.txs[i].call.ResetPortfolio? && s.txs[i].phase.FirstAccountReset?)
    ensures s.txs[i].phase.FirstAccountReset? && s.txs[i].call.ResetPortfolio? ==>
              Owns(s.txs[j], Other(s.txs[i].call.first))
    ensures s.txs[i].phase.Start? && s.txs[i].call.ResetPortfolio? ==> Owns(s.txs[j], s.txs[i].call.first)
    ensures s.txs[i].phase.Start? && s.txs[i].call.PlaceOrder? ==>
              Owns(s.txs[j], TickerCurrency(s.txs[i].call.order.ticker))
  {
    match s.txs[i].call {
      case PlaceOrder(o) =>
        if s.txs[i].phase.AccountRead? {
          assert HoldsRow(s.txs[j], o.ticker);
          assert Owns(s.txs[i], TickerCurrency(o.ticker));
          assert Owns(s.txs[j], TickerCurrency(o.ticker));
          assert false;
        } else {
          assert Owns(s.txs[j], TickerCurrency(o.ticker));
        }
      case ResetPortfolio(first) =>
        if s.txs[i].phase.AccountsReset? {
          var t :| t in s.rowLock && s.rowLock[t] == j;
          assert HoldsRow(s.txs[j], t);
          assert Owns(s.txs[i], TickerCurrency(t));
          assert Owns(s.txs[j], TickerCurrency(t));
          assert false;
        } else if s.txs[i].phase.Start? {
          assert Owns(s.txs[j], first);
        } else {
          assert Owns(s.txs[j], Other(first));
          assert Owns(s.txs[i], first);
        }
    }
  }

  ghost predicate ResetsAgree(calls: seq<Call>, first: Currency) {
    forall call :: call in calls && call.ResetPortfolio? ==> call.first == first
  }

  ghost predicate WaitPath(s: State, path: seq<TxId>) {
    forall k :: 0 <= k < |path| - 1 ==> WaitsFor(s, path[k], path[k + 1])
  }

  /** When every reset visits the account rows in the same order, whoever a waiting reset waits for
      is not itself waiting. */
  lemma WaitsEndAfterAReset(s: State, db: Db, calls: seq<Call>, first: Currency, i: TxId, j: TxId, k: TxId)
    requires Inv(s, db, calls) && ResetsAgree(calls, first)
    requires WaitsFor(s, i, j) && WaitsFor(s, j, k)
    ensures i != k && forall l :: !WaitsFor(s, k, l)
  {
    OnlyAccountRowsAreWaitedFor(s, i, j);
    OnlyAccountRowsAreWaitedFor(s, j, k);
    assert calls[j] in calls;
    assert s.txs[j].call.first == first && Owns(s.txs[k], Other(first));
    assert Owns(s.txs[j], first);
    assert calls[k] in calls;
    assert !(s.txs[k].call.ResetPortfolio? && s.txs[k].phase.FirstAccountReset?);
    forall l | WaitsFor(s, k, l) ensures false {
      OnlyAccountRowsAreWaitedFor(s, k, l);
    }
  }

  /** Then the wait-for graph has no cycle: its longest path has two edges and never returns. */
  lemma WaitGraphIsAcyclic(db: Db, calls: seq<Call>, schedule: seq<Action>, first: Currency, path: seq<TxId>)
    requires db.accounts.Keys == {KRW, USD} && Exec(Init(db, calls), schedule).Some? && ResetsAgree(calls, first)
    requires |path| >= 2 && WaitPath(Exec(Init(db, calls), schedule).value, path)
    ensures |path| <= 3 && path[0] != path[|path| - 1]
  {
    ExecKeepsInv(db, calls, schedule);
    var s := Exec(Init(db, calls), schedule).value;
    assert WaitsFor(s, path[0], path[1]);
    OnlyAccountRowsAreWaitedFor(s, path[0], path[1]);
    if |path| >= 3 {
      assert WaitsFor(s, path[1], path[2]);
      assert |path| > 3 ==> WaitsFor(s, path[2], path[3]);
      WaitsEndAfterAReset(s, db, calls, first, path[0], path[1], path[2]);
    }
  }

  /** And as long as a call has not ended, some call can move. */
  lemma SomeoneCanMove(db: Db, calls: seq<Call>, schedule: seq<Action>, first: Currency, i: TxId) returns (k: TxId)
    requires db.accounts.Keys == {KRW, USD} && Exec(Init(db, calls), schedule).Some? && ResetsAgree(calls, first)
    requires i < |calls| == |Exec(Init(db, calls), schedule).value.txs|
    requires !Exec(Init(db, calls), schedule).value.txs[i].phase.Done?
    ensures Step(Exec(Init(db, calls), schedule).value, k).Some?
  {
    ExecKeepsInv(db, calls, schedule);
    var s := Exec(Init(db, calls), schedule).value;
    k := i;
    BlockedMeansWaiting(s, db, calls, k);
    if Step(s, k).None? {
      var j :| WaitsFor(s, i, j);
      OnlyAccountRowsAreWaitedFor(s, i, j);
      k := j;
      BlockedMeansWaiting(s, db, calls, k);
      if Step(s, k).None? {
        var l :| WaitsFor(s, j, l);
        OnlyAccountRowsAreWaitedFor(s, j, l);
        k := l;
        WaitsEndAfterAReset(s, db, calls, first, i, j, l);
        BlockedMeansWaiting(s, db, calls, k);
      }
    }
  }

  // ---- Ending --------------------------------------------------------------------------------

  /** The most statements that a transaction can still have before it. */
  function Left(p: Phase): nat {
    match p
    case Start => 6
    case AccountRead(_) => 5
    case RowsRead(_, _) => 4
    case Written(_, _) => 3
    case OrderLogged(_, _, _) => 2
    case Audited(_, _, _) => 1
    case FirstAccountReset => 5
    case AccountsReset => 4
    case HoldingsDeleted(_) => 3
    case OrdersDeleted(_, _) => 2
    case Done(_) => 0
  }

  function TotalLeft(txs: seq<Tx>): nat {
    if txs == [] then 0 else TotalLeft(txs[..|txs| - 1]) + Left(txs[|txs| - 1].phase)
  }

  /** Transaction i gets nearer its end and the others stay where they are. */
  ghost predicate Nearer(s: State, s': State, i: TxId) {
    && i < |s.txs| == |s'.txs| && s'.txs == s.txs[i := s'.txs[i]]
    && Left(s'.txs[i].phase) < Left(s.txs[i].phase)
  }

  lemma OrderComesNearer(s: State, i: TxId, o: Order)
    requires i < |s.txs| && OrderStep(s, i, o).Some?
    ensures Nearer(s, OrderStep(s, i, o).value, i) && OrderStep(s, i, o).value.txs[i].phase != Done(RolledBack)
  {
  }

  lemma ResetComesNearer(s: State, i: TxId, first: Currency)
    requires i < |s.txs| && ResetStep(s, i, first).Some?
    ensures Nearer(s, ResetStep(s, i, first).value, i) && ResetStep(s, i, first).value.txs[i].phase != Done(RolledBack)
  {
  }

  lemma StepComesNearer(s: State, i: TxId)
    requires Step(s, i).Some?
    ensures Nearer(s, Step(s, i).value, i) && Step(s, i).value.txs[i].phase != Done(RolledBack)
  {
    match s.txs[i].call {
      case PlaceOrder(o) => OrderComesNearer(s, i, o);
      case ResetPortfolio(first) => ResetComesNearer(s, i, first);
    }
  }

  lemma {:induction false} TotalFalls(txs: seq<Tx>, i: nat, tx: Tx)
    requires i < |txs| && Left(tx.phase) < Left(txs[i].phase)
    ensures TotalLeft(txs[i := tx]) < TotalLeft(txs)
  {
    var n := |txs| - 1;
    if i < n {
      TotalFalls(txs[..n], i, tx);
      assert txs[i := tx][..n] == txs[..n][i := tx];
    } else {
      assert txs[i := tx][..n] == txs[..n];
    }
  }

  lemma {:induction false} TotalAtStart(txs: seq<Tx>)
    requires forall tx :: tx in txs ==> tx.phase.Start?
    ensures TotalLeft(txs) == 6 * |txs|
  {
    if txs != [] {
      assert txs[|txs| - 1] in txs;
      TotalAtStart(txs[..|txs| - 1]);
    }
  }

  /** No schedule is longer than six statements or rollbacks for each call. */
  lemma {:induction false} SchedulesEnd(db: Db, calls: seq<Call>, schedule: seq<Action>)
    requires Exec(Init(db, calls), schedule).Some?
    ensures |schedule| + TotalLeft(Exec(Init(db, calls), schedule).value.txs) <= 6 * |calls|
  {
    if schedule == [] {
      TotalAtStart(Init(db, calls).txs);
    } else {
      var n := |schedule| - 1;
      SchedulesEnd(db, calls, schedule[..n]);
      var mid, s := Exec(Init(db, calls), schedule[..n]).value, Exec(Init(db, calls), schedule).value;
      var i := schedule[n].tx;
      if schedule[n].Advance? { StepComesNearer(mid, i); }
      assert Nearer(mid, s, i);
      TotalFalls(mid.txs, i, s.txs[i]);
    }
  }

  lemma ExecNext(db: Db, calls: seq<Call>, schedule: seq<Action>, i: TxId)
    requires Exec(Init(db, calls), schedule).Some? && Step(Exec(Init(db, calls), schedule).value, i).Some?
    ensures Exec(Init(db, calls), schedule + [Advance(i)]) == Step(Exec(Init(db, calls), schedule).value, i)
  {
    assert (schedule + [Advance(i)])[..|schedule|] == schedule;
  }

  ghost predicate NoneRolledBack(s: State) { forall tx :: tx in s.txs ==> tx.phase != Done(RolledBack) }

  lemma StepKeepsUnrolled(s: State, i: TxId)
    requires Step(s, i).Some? && NoneRolledBack(s)
    ensures NoneRolledBack(Step(s, i).value)
  {
    StepComesNearer(s, i);
  }

  /** Plain steps that bring all calls to their end, and commit all of them if nothing was rolled back. */
  ghost predicate Finishes(db: Db, calls: seq<Call>, schedule: seq<Action>, more: seq<Action>) {
    && (forall a :: a in more ==> a.Advance?)
    && Exec(Init(db, calls), schedule).Some? && Exec(Init(db, calls), schedule + more).Some?
    && var s, end := Exec(Init(db, calls), schedule).value, Exec(Init(db, calls), schedule + more).value;
       && AllDone(end) && (NoneRolledBack(s) ==> NoneRolledBack(end))
  }

  ghost predicate AllDone(s: State) { forall tx :: tx in s.txs ==> tx.phase.Done? }

  lemma Regroup(a: seq<Action>, b: seq<Action>, c: seq<Action>)
    ensures a + (b + c) == a + b + c
  {
  }

  lemma FinishedAlready(db: Db, calls: seq<Call>, schedule: seq<Action>)
    requires Exec(Init(db, calls), schedule).Some? && AllDone(Exec(Init(db, calls), schedule).value)
    ensures Finishes(db, calls, schedule, [])
  {
    assert schedule + [] == schedule;
  }

  lemma FinishesLater(db: Db, calls: seq<Call>, schedule: seq<Action>, k: TxId, rest: seq<Action>)
    requires Exec(Init(db, calls), schedule).Some? && Step(Exec(Init(db, calls), schedule).value, k).Some?
    requires Finishes(db, calls, schedule + [Advance(k)], rest)
    ensures Finishes(db, calls, schedule, [Advance(k)] + rest)
  {
    var s := Exec(Init(db, calls), schedule).value;
    ExecNext(db, calls, schedule, k);
    if NoneRolledBack(s) { StepKeepsUnrolled(s, k); }
    Regroup(schedule, [Advance(k)], rest);
  }

  /** When resets agree on the row order, every schedule can be continued by plain steps until all calls
      have ended, and if nothing was rolled back before then all of them commit. */
  lemma EveryScheduleCanFinish(db: Db, calls: seq<Call>, schedule: seq<Action>, first: Currency)
    returns (more: seq<Action>)
    requires db.accounts.Keys == {KRW, USD} && Exec(Init(db, calls), schedule).Some? && ResetsAgree(calls, first)
    ensures Finishes(db, calls, schedule, more)
    decreases 6 * |calls| - |schedule|
  {
    var s := Exec(Init(db, calls), schedule).value;
    if AllDone(s) {
      FinishedAlready(db, calls, schedule);
      more := [];
    } else {
      var i := Unfinished(s);
      var k := StillRunning(db, calls, schedule, first, i);
      ExecNext(db, calls, schedule, k);
      SchedulesEnd(db, calls, schedule + [Advance(k)]);
      var rest := EveryScheduleCanFinish(db, calls, schedule + [Advance(k)], first);
      FinishesLater(db, calls, schedule, k, rest);
      more := [Advance(k)] + rest;
    }
  }

  lemma Unfinished(s: State) returns (i: TxId)
    requires !AllDone(s)
    ensures i < |s.txs| && !s.txs[i].phase.Done?
  {
    i :| i < |s.txs| && !s.txs[i].phase.Done?;
  }

  lemma StillRunning(db: Db, calls: seq<Call>, schedule: seq<Action>, first: Currency, i: TxId) returns (k: TxId)
    requires db.accounts.Keys == {KRW, USD} && Exec(Init(db, calls), schedule).Some? && ResetsAgree(calls, first)
    requires i < |Exec(Init(db, calls), schedule).value.txs|
    requires !Exec(Init(db, calls), schedule).value.txs[i].phase.Done?
    ensures Step(Exec(Init(db, calls), schedule).value, k).Some?
  {
    ExecKeepsInv(db, calls, schedule);
    k := SomeoneCanMove(db, calls, schedule, first, i);
  }

  /** The agreement is needed: two resets that start from different rows can wait for each other. */
  lemma DisagreeingResetsDeadlock(db: Db, calls: seq<Call>, i: TxId, j: TxId)
    requires db.accounts.Keys == {KRW, USD} && i < |calls| && j < |calls|
    requires calls[i] == ResetPortfolio(KRW) && calls[j] == ResetPortfolio(USD)
    ensures var schedule := [Advance(i), Advance(j)];
            && Exec(Init(db, calls), schedule).Some?
            && WaitsFor(Exec(Init(db, calls), schedule).value, i, j)
            && WaitsFor(Exec(Init(db, calls), schedule).value, j, i)
  {
    var schedule := [Advance(i), Advance(j)];
    assert schedule[..1][..0] == [] && schedule[..1] == [Advance(i)];
    assert Exec(Init(db, calls), schedule[..1]) == Step(Init(db, calls), i);
  }
}
