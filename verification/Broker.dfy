/** The virtual broker's tables and its two transactions, as functions from one committed database
    state to the next. Cash, initial balances, average costs, notionals and commissions are integers
    in units of 10^-4; stored quantities and the slipped fill price are integers in units of 10^-6.
    What a caller passes in (quantity, price, rates) is an exact real. */
module Broker {
  import opened Basics
  import opened Rounding

  type Ticker = string

  datatype Currency = KRW | USD

  datatype Side = Buy | Sell

  datatype Account = Account(cash: int, initial: int)

  datatype Holding = Holding(quantity: nat, avgCost: int, currency: Currency)

  /** A row of virtual_orders. The table keeps the fill price at four decimals only. */
  datatype OrderRow = OrderRow(id: nat, ticker: Ticker, side: Side, quantity: nat, fillPrice: int,
                               currency: Currency, slippage: int, commission: int)

  /** The JSON payload of an audit_log row: what the order computed, before any column rounding. */
  datatype AuditRow = AuditRow(orderId: nat, ticker: Ticker, side: Side, quantity: real, price: real,
                               fillPrice: int, currency: Currency, notional: int, commission: int,
                               slippage: real)

  datatype Db = Db(accounts: map<Currency, Account>, holdings: map<Ticker, Holding>,
                   orders: seq<OrderRow>, audit: seq<AuditRow>, nextId: nat)

  datatype Order = Order(ticker: Ticker, side: Side, quantity: real, price: real,
                         commissionRate: real, slippage: real)

  datatype Reason =
    | QuantityMustBePositive
    | InvalidPrice
    | NoAccount(currency: Currency)
    | InsufficientCash(required: int, available: int)
    | InsufficientHoldings(requested: real, held: nat)

  datatype Result =
    | Filled(orderId: nat, fillPrice: int, notional: int, commission: int)
    | Rejected(reason: Reason)

  function TickerCurrency(t: Ticker): Currency {
    if t != "" && forall c | c in t :: '0' <= c <= '9' then KRW else USD
  }

  /** A quantity in units of 10^-6. */
  function Micro(q: real): real { q * 1000000.0 }

  predicate OnGrid(q: real) { Micro(q).Floor as real == Micro(q) }

  function FillPrice(o: Order): int { FillPriceAt(o.side, o.price, o.slippage) }

  /** Slippage moves the price against the order before it is rounded to six decimals. */
  function FillPriceAt(side: Side, price: real, slippage: real): int {
    RoundHalfEven(Product(price, if side.Buy? then 1.0 + slippage else 1.0 - slippage) * 1000000.0)
  }

  /** Quantity times fill price, rounded to four decimals. */
  function NotionalAt(quantity: real, fillPrice: int): (n: int)
    ensures Product(quantity, fillPrice as real / 100.0) - 0.5 <= n as real
            <= Product(quantity, fillPrice as real / 100.0) + 0.5
  {
    RoundHalfEven(Product(quantity, fillPrice as real / 100.0))
  }

  function Product(x: real, y: real): real { x * y }

  function Notional(o: Order): int { NotionalAt(o.quantity, FillPrice(o)) }

  function CommissionAt(notional: int, rate: real): int { RoundHalfEven(Product(notional as real, rate)) }

  function Commission(o: Order): int { CommissionAt(Notional(o), o.commissionRate) }

  function HeldQty(h: Option<Holding>): nat { if h.Some? then h.value.quantity else 0 }

  function HeldCost(h: Option<Holding>): int { if h.Some? then h.value.avgCost else 0 }

  function Get<K, V>(m: map<K, V>, k: K): Option<V> { if k in m then Some(m[k]) else None }

  function Put<K, V>(m: map<K, V>, k: K, v: Option<V>): map<K, V> {
    if v.Some? then m[k := v.value] else m - {k}
  }

  /** The mean cost per share of `held` stored units at `cost` and `added` units bought for `notional`. */
  function BlendedCost(held: nat, cost: int, notional: int, added: real): real
    requires added > 0.0
  {
    (Product(held as real, cost as real) + notional as real * 1000000.0) / (held as real + added)
  }

  /** What an order does to the two rows it has locked: the new holdings row (None deletes it) and
      the amount added to the cash balance. */
  datatype Decision = Reject(reason: Reason) | Fill(holding: Option<Holding>, cashDelta: int)

  function Decide(o: Order, cash: int, held: Option<Holding>): Decision
    requires o.quantity > 0.0
  {
    var qty := HeldQty(held);
    match o.side
    case Buy =>
      var debit := Notional(o) + Commission(o);
      if debit > cash then
        Reject(InsufficientCash(debit, cash))
      else
        var newQty := qty as real + Micro(o.quantity);
        var newCost := BlendedCost(qty, HeldCost(held), Notional(o), Micro(o.quantity));
        var currency := if held.Some? then held.value.currency else TickerCurrency(o.ticker);
        Fill(Some(Holding(RoundHalfAway(newQty), RoundHalfAway(newCost), currency)), -debit)
    case Sell =>
      if Micro(o.quantity) > qty as real then
        Reject(InsufficientHoldings(o.quantity, qty))
      else
        var remaining := qty as real - Micro(o.quantity);
        var row := if remaining <= 0.0 then None
                   else Some(held.value.(quantity := RoundHalfAway(remaining)));
        Fill(row, Notional(o) - Commission(o))
  }

  function OrderRowOf(o: Order, id: nat): OrderRow
    requires o.quantity > 0.0
  {
    OrderRow(id, o.ticker, o.side, RoundHalfAway(Micro(o.quantity)),
             RoundHalfAway(FillPrice(o) as real / 100.0), TickerCurrency(o.ticker),
             RoundHalfAway(o.slippage * 1000000.0), Commission(o))
  }

  function AuditRowOf(o: Order, id: nat): AuditRow {
    AuditRow(id, o.ticker, o.side, o.quantity, o.price, FillPrice(o), TickerCurrency(o.ticker),
             Notional(o), Commission(o), o.slippage)
  }

  /** The checks made before a connection is leased. */
  function Precheck(o: Order): Option<Reason> {
    if o.quantity <= 0.0 then Some(QuantityMustBePositive)
    else if o.price <= 0.0 then Some(InvalidPrice)
    else None
  }

  function DecisionFor(db: Db, o: Order): Decision {
    var c := TickerCurrency(o.ticker);
    if Precheck(o).Some? then Reject(Precheck(o).value)
    else if c !in db.accounts then Reject(NoAccount(c))
    else Decide(o, db.accounts[c].cash, Get(db.holdings, o.ticker))
  }

  /** The committed effect of one order, run alone. */
  function Execute(db: Db, o: Order): Db {
    var d := DecisionFor(db, o);
    if d.Reject? then db
    else
      var c := TickerCurrency(o.ticker);
      Db(db.accounts[c := db.accounts[c].(cash := db.accounts[c].cash + d.cashDelta)],
         Put(db.holdings, o.ticker, d.holding),
         db.orders + [OrderRowOf(o, db.nextId)],
         db.audit + [AuditRowOf(o, db.nextId)],
         db.nextId + 1)
  }

  function Outcome(db: Db, o: Order): Result {
    var d := DecisionFor(db, o);
    if d.Reject? then Rejected(d.reason)
    else Filled(db.nextId, FillPrice(o), Notional(o), Commission(o))
  }

  /** Restore every cash balance and clear holdings and orders; the audit log is left alone. */
  function Reset(db: Db): Db {
    db.(accounts := map c | c in db.accounts :: db.accounts[c].(cash := db.accounts[c].initial),
        holdings := map[], orders := [])
  }

  datatype Command = Place(order: Order) | ResetAll

  function Apply(db: Db, cmd: Command): Db {
    match cmd
    case Place(o) => Execute(db, o)
    case ResetAll => Reset(db)
  }

  function Run(db: Db, cmds: seq<Command>): Db {
    if cmds == [] then db else Apply(Run(db, cmds[..|cmds| - 1]), cmds[|cmds| - 1])
  }

  /** What init_db leaves in an empty database. */
  const SEEDED := Db(map[KRW := Account(1000000000000, 1000000000000), USD := Account(1000000000, 1000000000)],
                     map[], [], [], 1)
}
