/** Value-based properties of the broker: orders create no money, and the stored average cost stays
    within what was actually paid. */
module BrokerValue {
  import opened Basics
  import opened Rounding
  import opened Broker
  import opened BrokerLedger

  // ---- No free money -------------------------------------------------------------------------

  /** What an order gains on paper, in 10^-4: shares valued at the order's own price, against the
      cash that changes hands. */
  function PaperGain(o: Order): real {
    var worth := Product(o.quantity, o.price * 10000.0);
    if o.side.Buy? then worth - Notional(o) as real - Commission(o) as real
    else Notional(o) as real - Commission(o) as real - worth
  }

  /** The rounded fill price is not better than the quoted price. */
  ghost predicate FairFill(o: Order) {
    if o.side.Buy? then FillPrice(o) as real >= o.price * 1000000.0
    else FillPrice(o) as real <= o.price * 1000000.0
  }

  /** Slippage of at least half a unit of 10^-6 keeps the fill price fair. */
  lemma SlippageMakesFillFair(o: Order)
    requires o.price > 0.0 && o.price * o.slippage >= 0.0000005
    ensures FairFill(o)
  {
    var p, s := o.price, o.slippage;
    if o.side.Buy? {
      assert p * (1.0 + s) == p + p * s;
      assert p * (1.0 + s) * 1000000.0 == p * 1000000.0 + p * s * 1000000.0;
    } else {
      assert p * (1.0 - s) == p - p * s;
      assert p * (1.0 - s) * 1000000.0 == p * 1000000.0 - p * s * 1000000.0;
    }
  }

  lemma ProductMonotone(q: real, x: real, y: real)
    requires q >= 0.0 && x <= y
    ensures Product(q, x) <= Product(q, y)
  {
    ProductNonNegative(q, y - x);
  }

  /** A fair fill gains at most half a unit of 10^-4, the rounding of its notional. */
  lemma FairFillGainsNothing(o: Order)
    requires o.quantity > 0.0 && o.commissionRate >= 0.0 && Notional(o) >= 0 && FairFill(o)
    ensures PaperGain(o) <= 0.5
  {
    var quoted, filled := o.price * 10000.0, FillPrice(o) as real / 100.0;
    if o.side.Buy? {
      ProductMonotone(o.quantity, quoted, filled);
    } else {
      ProductMonotone(o.quantity, filled, quoted);
    }
    CommissionNonNegative(o);
  }

  lemma CommissionNonNegative(o: Order)
    requires Notional(o) >= 0 && o.commissionRate >= 0.0
    ensures Commission(o) >= 0
  {
    ProductNonNegative(Notional(o) as real, o.commissionRate);
  }

  /** An unfair fill is profitable once the quantity is large enough. */
  lemma UnfairQuantity(o: Order) returns (q: real)
    requires o.price > 0.0 && o.commissionRate == 0.0 && !FairFill(o)
    ensures q > 0.0 && OnGrid(q) && PaperGain(o.(quantity := q)) > 0.5
  {
    var quoted, filled := o.price * 10000.0, FillPrice(o) as real / 100.0;
    var gap := if o.side.Buy? then quoted - filled else filled - quoted;
    q := (2.0 / gap).Floor as real + 1.0;
    ScaleGap(q, gap);
    OnGridWhole((2.0 / gap).Floor + 1);
    ProductDifference(filled, quoted, q);
    var big := o.(quantity := q);
    assert FillPrice(big) == FillPrice(o);
    assert Commission(big) == 0;
  }

  lemma OnGridWhole(k: int)
    ensures OnGrid(k as real)
  {
    assert Micro(k as real) == (k * 1000000) as real;
  }

  /** The product is linear in its first factor; stated for both orders of the factors. */
  lemma ProductDifference(a: real, b: real, p: real)
    ensures Product(b, p) - Product(a, p) == Product(b - a, p)
    ensures Product(p, b) - Product(p, a) == Product(p, b - a)
    ensures Product(p, a - b) == -Product(p, b - a)
  {
  }

  lemma ScaleGap(q: real, gap: real)
    requires gap > 0.0 && q == (2.0 / gap).Floor as real + 1.0
    ensures q > 0.0 && Product(q, gap) >= 2.0
  {
    assert 2.0 / gap >= 0.0;
    ProductMonotone(gap, 2.0 / gap, q);
    assert Product(gap, 2.0 / gap) == 2.0;
    assert Product(gap, q) == Product(q, gap);
  }

  // ---- The cash an order moves ---------------------------------------------------------------

  /** The cash an order would move without any rounding, in 10^-4. */
  function ExactCash(o: Order): real {
    if o.side.Buy? then -Product(ExactNotional(o), 1.0 + o.commissionRate)
    else Product(ExactNotional(o), 1.0 - o.commissionRate)
  }

  function ExactNotional(o: Order): real { Product(o.quantity, ExactPrice(o)) }

  function ExactPrice(o: Order): real {
    Product(o.price, if o.side.Buy? then 1.0 + o.slippage else 1.0 - o.slippage) * 10000.0
  }

  /** Half a unit for the notional, and half a unit of 10^-6 on the price of each share. */
  function NotionalBudget(o: Order): real { 0.5 + 0.005 * o.quantity }

  lemma ProductWithin(a: real, limit: real, e: real, bound: real)
    requires -limit <= a <= limit && -bound <= e <= bound
    ensures -Product(limit, bound) <= Product(a, e) <= Product(limit, bound)
  {
    ProductNonNegative(limit - a, bound + e);
    ProductNonNegative(limit + a, bound - e);
    ProductNonNegative(limit - a, bound - e);
    ProductNonNegative(limit + a, bound + e);
  }

  lemma FillPriceNear(o: Order)
    ensures -0.005 <= FillPrice(o) as real / 100.0 - ExactPrice(o) <= 0.005
  {
  }

  lemma NotionalNear(o: Order)
    requires o.quantity > 0.0
    ensures -NotionalBudget(o) <= Notional(o) as real - ExactNotional(o) <= NotionalBudget(o)
  {
    FillPriceNear(o);
    NotionalError(o.quantity, FillPrice(o) as real / 100.0, ExactPrice(o));
  }

  lemma NotionalError(q: real, filled: real, exact: real)
    requires q > 0.0 && -0.005 <= filled - exact <= 0.005
    ensures -0.005 * q <= Product(q, filled) - Product(q, exact) <= 0.005 * q
  {
    ProductWithin(q, q, filled - exact, 0.005);
    ProductDifference(exact, filled, q);
    assert Product(q, 0.005) == 0.005 * q;
  }

  lemma NotionalTimesRate(n: real, exact: real, rate: real)
    ensures Product(n, rate) - Product(exact, rate) == Product(rate, n - exact)
    ensures Product(exact, 1.0 + rate) == exact + Product(exact, rate)
    ensures Product(exact, 1.0 - rate) == exact - Product(exact, rate)
    ensures n - exact + Product(rate, n - exact) == Product(1.0 + rate, n - exact)
    ensures n - exact - Product(rate, n - exact) == Product(1.0 - rate, n - exact)
  {
  }

  /** The cash a fill moves differs from quantity * price * (1 +- slippage) * (1 +- rate) only by what
      three nested roundings can add up to. */
  lemma NestedRoundingError(db: Db, o: Order)
    requires DecisionFor(db, o).Fill? && o.commissionRate >= 0.0
    ensures var bound := Product(1.0 + o.commissionRate, NotionalBudget(o)) + 0.5;
            -bound <= DecisionFor(db, o).cashDelta as real - ExactCash(o) <= bound
  {
    var n, exact, rate := Notional(o) as real, ExactNotional(o), o.commissionRate;
    NotionalNear(o);
    NotionalTimesRate(n, exact, rate);
    ProductWithin(1.0 + rate, 1.0 + rate, n - exact, NotionalBudget(o));
    ProductWithin(1.0 - rate, 1.0 + rate, n - exact, NotionalBudget(o));
  }

  // ---- Total value at fixed marks ------------------------------------------------------------

  /** The value of one holdings row in currency c, in 10^-4. */
  function RowValue(h: Option<Holding>, mark: real, c: Currency): real {
    if h.Some? && h.value.currency == c then Product(h.value.quantity as real / 1000000.0, mark * 10000.0) else 0.0
  }

  ghost function SumRows(m: map<Ticker, Holding>, keys: set<Ticker>, marks: Ticker -> real, c: Currency): real {
    if keys == {} then 0.0
    else
      var t :| t in keys;
      RowValue(Get(m, t), marks(t), c) + SumRows(m, keys - {t}, marks, c)
  }

  lemma {:induction false} SumRowsSplit(m: map<Ticker, Holding>, keys: set<Ticker>,
                                        marks: Ticker -> real, c: Currency, t: Ticker)
    requires t in keys
    ensures SumRows(m, keys, marks, c) == RowValue(Get(m, t), marks(t), c) + SumRows(m, keys - {t}, marks, c)
  {
    var u :| u in keys
             && SumRows(m, keys, marks, c) == RowValue(Get(m, u), marks(u), c) + SumRows(m, keys - {u}, marks, c);
    if u != t {
      SumRowsSplit(m, keys - {u}, marks, c, t);
      SumRowsSplit(m, keys - {t}, marks, c, u);
      assert keys - {u} - {t} == keys - {t} - {u};
    }
  }

  lemma {:induction false} SumRowsSame(m: map<Ticker, Holding>, m': map<Ticker, Holding>, keys: set<Ticker>,
                                        marks: Ticker -> real, c: Currency)
    requires forall t :: t in keys ==> RowValue(Get(m, t), marks(t), c) == RowValue(Get(m', t), marks(t), c)
    ensures SumRows(m, keys, marks, c) == SumRows(m', keys, marks, c)
  {
    if keys != {} {
      var t :| t in keys;
      SumRowsSplit(m, keys, marks, c, t);
      SumRowsSplit(m', keys, marks, c, t);
      SumRowsSame(m, m', keys - {t}, marks, c);
    }
  }

  /** A key without a row adds nothing. */
  lemma SumRowsExtra(m: map<Ticker, Holding>, marks: Ticker -> real, c: Currency, t: Ticker)
    ensures SumRows(m, m.Keys + {t}, marks, c) == SumRows(m, m.Keys, marks, c)
  {
    if t in m {
      assert m.Keys + {t} == m.Keys;
    } else {
      SumRowsSplit(m, m.Keys + {t}, marks, c, t);
      assert m.Keys + {t} - {t} == m.Keys;
    }
  }

  ghost function TotalValue(db: Db, marks: Ticker -> real, c: Currency): real
    requires c in db.accounts
  {
    db.accounts[c].cash as real + SumRows(db.holdings, db.holdings.Keys, marks, c)
  }

  lemma PutChangesOneRow(m: map<Ticker, Holding>, t: Ticker, h: Option<Holding>, marks: Ticker -> real, c: Currency)
    ensures var m' := Put(m, t, h);
            SumRows(m', m'.Keys, marks, c) - SumRows(m, m.Keys, marks, c)
            == RowValue(h, marks(t), c) - RowValue(Get(m, t), marks(t), c)
  {
    var m' := Put(m, t, h);
    var keys := m.Keys + {t};
    assert m'.Keys + {t} == keys;
    SumRowsExtra(m, marks, c, t);
    SumRowsExtra(m', marks, c, t);
    SumRowsSplit(m, keys, marks, c, t);
    SumRowsSplit(m', keys, marks, c, t);
    SumRowsSame(m, m', keys - {t}, marks, c);
  }

  /** An order whose commission cannot be negative, placed at its mark with enough slippage. */
  ghost predicate PlacedAtMark(o: Order, marks: Ticker -> real) {
    && StoredFairly(o) && RatesInRange(o)
    && o.price == marks(o.ticker) && (o.price > 0.0 ==> o.price * o.slippage >= 0.0000005)
  }

  /** A fill changes the total value, with its ticker marked at its own price, by its table gain. */
  lemma FillChangesValue(db: Db, o: Order, marks: Ticker -> real)
    requires CurrencyColumns(db) && DecisionFor(db, o).Fill? && marks(o.ticker) == o.price
    ensures var c := TickerCurrency(o.ticker);
            c in db.accounts && TotalValue(Execute(db, o), marks, c) == TotalValue(db, marks, c) + TableGain(o)
  {
    PutChangesOneRow(db.holdings, o.ticker, DecisionFor(db, o).holding, marks, TickerCurrency(o.ticker));
    FilledGain(db, o);
  }

  lemma ExecuteGain(db: Db, o: Order, marks: Ticker -> real, c: Currency)
    requires c in db.accounts && CurrencyColumns(db) && PlacedAtMark(o, marks)
    ensures CurrencyColumns(Execute(db, o))
    ensures TotalValue(Execute(db, o), marks, c) <= TotalValue(db, marks, c) + 0.5
  {
    var d := DecisionFor(db, o);
    if d.Fill? {
      var held := Get(db.holdings, o.ticker);
      if TickerCurrency(o.ticker) == c {
        FillChangesValue(db, o, marks);
        TableGainBound(o);
      } else {
        PutChangesOneRow(db.holdings, o.ticker, d.holding, marks, c);
        assert RowValue(d.holding, marks(o.ticker), c) == 0.0 == RowValue(held, marks(o.ticker), c);
      }
    }
  }

  /** What a fill moves into the tables: its gain on paper, and what the rounding of the stored
      quantity adds to it. */
  function TableGain(o: Order): real {
    PaperGain(o) + Product(StoredExcess(o) / 1000000.0, o.price * 10000.0)
  }

  function Fraction(x: real): real { x - x.Floor as real }

  /** By how many units a fill moves the stored quantity. */
  function StoredMove(o: Order): int {
    var x := Micro(o.quantity);
    if o.side.Sell? && Fraction(x) == 0.5 then x.Floor else RoundHalfAway(x)
  }

  /** By how much the stored quantity is better for the trader than the exact one. */
  function StoredExcess(o: Order): real {
    if o.side.Buy? then StoredMove(o) as real - Micro(o.quantity) else Micro(o.quantity) - StoredMove(o) as real
  }

  /** The stored quantity rounds in the broker's favour, or not at all. */
  predicate StoredFairly(o: Order) {
    var f := Fraction(Micro(o.quantity));
    if o.side.Buy? then f < 0.5 else f == 0.0 || f > 0.5
  }

  lemma ExcessSign(o: Order)
    requires o.quantity > 0.0
    ensures StoredExcess(o) <= 0.0 <==> StoredFairly(o)
    ensures StoredExcess(o) <= 0.5 && StoredExcess(o) <= Micro(o.quantity)
  {
    var x := Micro(o.quantity);
    var f := x.Floor;
    if Fraction(x) < 0.5 { FloorIs(x + 0.5, f); } else { FloorIs(x + 0.5, f + 1); }
  }

  lemma FillMovesStored(db: Db, o: Order)
    requires DecisionFor(db, o).Fill?
    ensures var before, after := HeldQty(Get(db.holdings, o.ticker)), HeldQty(DecisionFor(db, o).holding);
            after == if o.side.Buy? then before + StoredMove(o) else before - StoredMove(o)
  {
    var x := Micro(o.quantity);
    var h := HeldQty(Get(db.holdings, o.ticker));
    if o.side.Buy? {
      StoredSum(h, x);
    } else if x < h as real {
      StoredDifference(h, x);
    } else {
      RoundGridPoint(h);
    }
  }

  /** The value that a fill moves into the tables is its table gain. */
  lemma FilledGain(db: Db, o: Order)
    requires CurrencyColumns(db) && DecisionFor(db, o).Fill?
    ensures var d := DecisionFor(db, o);
            var c := TickerCurrency(o.ticker);
            d.cashDelta as real + RowValue(d.holding, o.price, c) - RowValue(Get(db.holdings, o.ticker), o.price, c)
            == TableGain(o)
  {
    var d := DecisionFor(db, o);
    var held := Get(db.holdings, o.ticker);
    FillMovesStored(db, o);
    var before, after := HeldQty(held) as real / 1000000.0, HeldQty(d.holding) as real / 1000000.0;
    var p := o.price * 10000.0;
    assert RowValue(held, o.price, TickerCurrency(o.ticker)) == Product(before, p);
    assert RowValue(d.holding, o.price, TickerCurrency(o.ticker)) == Product(after, p);
    ProductDifference(before, after, p);
    ExcessSplits(o, after - before);
  }

  lemma ExcessSplits(o: Order, moved: real)
    requires moved == (if o.side.Buy? then StoredMove(o) as real else -(StoredMove(o) as real)) / 1000000.0
    ensures var p := o.price * 10000.0;
            Product(moved, p)
            == Product(StoredExcess(o) / 1000000.0, p)
               + (if o.side.Buy? then Product(o.quantity, p) else -Product(o.quantity, p))
  {
    var p := o.price * 10000.0;
    var exact := if o.side.Buy? then o.quantity else -o.quantity;
    assert Product(exact, p) == if o.side.Buy? then Product(o.quantity, p) else -Product(o.quantity, p);
    assert moved - exact == StoredExcess(o) / 1000000.0;
    ProductDifference(exact, moved, p);
  }

  lemma TableGainBound(o: Order)
    requires o.quantity > 0.0 && o.price > 0.0 && RatesInRange(o) && o.price * o.slippage >= 0.0000005
    requires StoredFairly(o)
    ensures TableGain(o) <= 0.5
  {
    NotionalNonNegative(o);
    SlippageMakesFillFair(o);
    FairFillGainsNothing(o);
    ExcessSign(o);
    ProductNonNegative(-StoredExcess(o) / 1000000.0, o.price * 10000.0);
    ProductDifference(StoredExcess(o) / 1000000.0, 0.0, o.price * 10000.0);
    assert Product(0.0, o.price * 10000.0) == 0.0;
  }

  ghost predicate EnoughSlippage(o: Order) {
    o.price > 0.0 && RatesInRange(o) && o.price * o.slippage >= 0.0000005
  }

  /** A price high enough, with just enough slippage, turns the rounding into a profit. */
  lemma ProfitablePrice(o: Order) returns (at: Order)
    requires o.quantity > 0.0 && !StoredFairly(o)
    ensures EnoughSlippage(at) && at.side == o.side && at.quantity == o.quantity && TableGain(at) > 0.5
  {
    var q, e := o.quantity, StoredExcess(o);
    ExcessSign(o);
    var p, s := ProfitableTerms(q, e);
    at := Order(o.ticker, o.side, q, p, 0.0, s);
    assert StoredExcess(at) == e;
    assert Commission(at) == 0;
    PaperGainAtLeast(at);
  }

  lemma ProfitableTerms(q: real, e: real) returns (p: real, s: real)
    requires q > 0.0 && 0.0 < e <= q * 1000000.0
    ensures p > 0.0 && 0.0 <= s <= 1.0 && p * s >= 0.0000005
    ensures Product(e / 1000000.0, p * 10000.0) - Product(q, Product(p, s) * 10000.0) > 1.0 + 0.005 * q
  {
    p := Quotient(201.0 + q, e);
    s := Quotient(e, q * 2000000.0);
    assert Product(e, p) == 201.0 + q by { assert p * e == 201.0 + q; }
    var t := q * s;
    assert t == e / 2000000.0;
    assert q * (p * s) == p * t;
    assert p * t == (201.0 + q) / 2000000.0;
    assert Product(q, Product(p, s) * 10000.0) == (p * t) * 10000.0;
    assert Product(e / 1000000.0, p * 10000.0) == Product(e, p) * 0.01;
    var u := p * s;
    assert q * u == (201.0 + q) / 2000000.0;
    CancelPositive(q, u, 0.0000005);
  }

  function Quotient(x: real, y: real): (z: real)
    requires y > 0.0
    ensures z * y == x
  {
    x / y
  }

  lemma CancelPositive(q: real, x: real, y: real)
    requires q > 0.0 && q * x >= q * y
    ensures x >= y
  {
  }

  lemma PaperGainAtLeast(o: Order)
    requires o.quantity > 0.0 && o.commissionRate == 0.0
    ensures PaperGain(o) >= -Product(o.quantity, Product(o.price, o.slippage) * 10000.0) - NotionalBudget(o)
  {
    NotionalNear(o);
    var worth, shift := o.price * 10000.0, Product(o.price, o.slippage) * 10000.0;
    assert ExactPrice(o) == if o.side.Buy? then worth + shift else worth - shift;
    ProductDifference(worth, ExactPrice(o), o.quantity);
    assert Product(o.quantity, -shift) == -Product(o.quantity, shift);
  }

  /** n orders at fixed marks raise the total value of a currency by at most n * 1/2 * 10^-4. */
  lemma {:induction false} NoFreeMoney(db: Db, orders: seq<Order>, marks: Ticker -> real, c: Currency)
    requires c in db.accounts && CurrencyColumns(db)
    requires forall o :: o in orders ==> PlacedAtMark(o, marks)
    ensures c in RunOrders(db, orders).accounts && CurrencyColumns(RunOrders(db, orders))
    ensures TotalValue(RunOrders(db, orders), marks, c) <= TotalValue(db, marks, c) + 0.5 * |orders| as real
  {
    if orders != [] {
      var n := |orders| - 1;
      NoFreeMoney(db, orders[..n], marks, c);
      assert orders[n] in orders;
      ExecuteGain(RunOrders(db, orders[..n]), orders[n], marks, c);
    }
  }

  function RunOrders(db: Db, orders: seq<Order>): Db {
    if orders == [] then db else Execute(RunOrders(db, orders[..|orders| - 1]), orders[|orders| - 1])
  }

  // ---- Exactly when a fill creates money -----------------------------------------------------

  function AtPrice(price: real): Ticker -> real { _ => price }

  /** The order raises cash plus holdings, valued at its own price, by more than half a unit. */
  ghost predicate Pays(db: Db, o: Order) {
    var c := TickerCurrency(o.ticker);
    && DecisionFor(db, o).Fill? && c in db.accounts
    && TotalValue(Execute(db, o), AtPrice(o.price), c) > TotalValue(db, AtPrice(o.price), c) + 0.5
  }

  lemma PaysExactly(db: Db, o: Order)
    requires CurrencyColumns(db) && DecisionFor(db, o).Fill?
    ensures Pays(db, o) <==> TableGain(o) > 0.5
  {
    FillChangesValue(db, o, AtPrice(o.price));
  }

  /** Some orders placed on a fresh database. */
  ghost predicate Reachable(db: Db, start: Db, orders: seq<Order>) { Fresh(start) && db == RunOrders(start, orders) }

  lemma {:induction false} RunOrdersKeepCurrency(db: Db, orders: seq<Order>)
    requires CurrencyColumns(db)
    ensures CurrencyColumns(RunOrders(db, orders))
  {
    if orders != [] {
      RunOrdersKeepCurrency(db, orders[..|orders| - 1]);
    }
  }

  /** init_db with enough money for one order. */
  function Funded(o: Order): Db {
    var debit := Notional(o) + Commission(o);
    var cash := if debit > 0 then debit else 0;
    Db(map[KRW := Account(cash, cash), USD := Account(cash, cash)], map[], [], [], 1)
  }

  /** Whole shares of the same ticker, at least as many as the order is for. */
  function Stock(o: Order): Order
    requires o.quantity > 0.0
  {
    Order(o.ticker, Buy, (o.quantity.Floor + 1) as real, 1.0, 0.0, 0.0)
  }

  /** Every order with a positive quantity and price is filled by some reachable database. */
  lemma SomewhereFilled(o: Order) returns (db: Db, start: Db, orders: seq<Order>)
    requires o.quantity > 0.0 && o.price > 0.0
    ensures Reachable(db, start, orders) && DecisionFor(db, o).Fill?
  {
    if o.side.Buy? {
      start, orders := Funded(o), [];
      db := start;
    } else {
      var stock := Stock(o);
      start, orders := Funded(stock), [stock];
      assert orders[..0] == [];
      db := Execute(start, stock);
      StockFills(o);
    }
  }

  lemma StockFills(o: Order)
    requires o.quantity > 0.0 && o.price > 0.0 && o.side.Sell?
    ensures DecisionFor(Execute(Funded(Stock(o)), Stock(o)), o).Fill?
  {
    var stock, start := Stock(o), Funded(Stock(o));
    assert DecisionFor(start, stock).Fill?;
    FillQuantity(start, stock);
    var shares := o.quantity.Floor + 1;
    assert Micro(stock.quantity) == (shares * 1000000) as real;
    RoundGridPoint(shares * 1000000);
    assert HeldQty(Get(Execute(start, stock).holdings, o.ticker)) == shares * 1000000;
  }

  /** The exact condition on the quantity: no order for it, at any price with enough slippage, pays on
      any reachable database if and only if the stored quantity does not round in the trader's favour. */
  lemma QuantityFairExactly(o: Order)
    requires o.quantity > 0.0
    ensures StoredFairly(o) <==>
              forall db, start, orders, at {:trigger Reachable(db, start, orders), Pays(db, at)} ::
                Reachable(db, start, orders) && EnoughSlippage(at) && at.side == o.side && at.quantity == o.quantity ==>
                  !Pays(db, at)
  {
    if StoredFairly(o) {
      forall db, start, orders, at |
        Reachable(db, start, orders) && EnoughSlippage(at) && at.side == o.side && at.quantity == o.quantity
        ensures !Pays(db, at)
      {
        RunOrdersKeepCurrency(start, orders);
        TableGainBound(at);
        if DecisionFor(db, at).Fill? { PaysExactly(db, at); }
      }
    } else {
      var at := ProfitablePrice(o);
      var db, start, orders := SomewhereFilled(at);
      RunOrdersKeepCurrency(start, orders);
      PaysExactly(db, at);
      assert Reachable(db, start, orders) && Pays(db, at);
    }
  }

  lemma OnGridExcess(o: Order)
    requires OnGrid(o.quantity)
    ensures TableGain(o) == PaperGain(o)
  {
    RoundGridPoint(Micro(o.quantity).Floor);
    assert StoredExcess(o) == 0.0;
    assert Product(0.0, o.price * 10000.0) == 0.0;
  }

  /** The exact condition on the price: an order at a given price and slippage pays for no quantity on
      the grid, at no commission rate, on no reachable database, if and only if its fill price is fair. */
  lemma FreeMoneyExactly(o: Order)
    requires o.price > 0.0 && 0.0 <= o.slippage <= 1.0
    ensures FairFill(o) <==>
              forall db, start, orders, q, rate
                {:trigger Reachable(db, start, orders), Pays(db, o.(quantity := q, commissionRate := rate))} ::
                Reachable(db, start, orders) && q > 0.0 && OnGrid(q) && 0.0 <= rate <= 1.0 ==>
                  !Pays(db, o.(quantity := q, commissionRate := rate))
  {
    if FairFill(o) {
      forall db, start, orders, q, rate |
        Reachable(db, start, orders) && q > 0.0 && OnGrid(q) && 0.0 <= rate <= 1.0
        ensures !Pays(db, o.(quantity := q, commissionRate := rate))
      {
        FairFillNeverPays(db, start, orders, o.(quantity := q, commissionRate := rate));
      }
    } else {
      var free := o.(commissionRate := 0.0);
      var q := UnfairQuantity(free);
      var at := o.(quantity := q, commissionRate := 0.0);
      assert at == free.(quantity := q);
      var db, start, orders := SomewhereFilled(at);
      RunOrdersKeepCurrency(start, orders);
      OnGridExcess(at);
      PaysExactly(db, at);
      assert Reachable(db, start, orders) && Pays(db, o.(quantity := q, commissionRate := 0.0));
    }
  }

  lemma FairFillNeverPays(db: Db, start: Db, orders: seq<Order>, o: Order)
    requires Reachable(db, start, orders) && o.quantity > 0.0 && OnGrid(o.quantity) && o.price > 0.0
    requires RatesInRange(o) && FairFill(o)
    ensures !Pays(db, o)
  {
    RunOrdersKeepCurrency(start, orders);
    NotionalNonNegative(o);
    FairFillGainsNothing(o);
    OnGridExcess(o);
    if DecisionFor(db, o).Fill? { PaysExactly(db, o); }
  }

  /** An order for one quoted share price, at the default rates. */
  function Apple(side: Side, quantity: real): Order { Order("AAPL", side, quantity, 200.0, 0.00025, 0.001) }

  lemma AppleFills()
    ensures TickerCurrency("AAPL") == USD
    ensures FillPrice(Apple(Buy, 0.0000005)) == 200200000 && FillPrice(Apple(Sell, 0.0000015)) == 199800000
    ensures FillPrice(Apple(Buy, 0.000002)) == 200200000
  {
    assert 'A' in "AAPL";
  }

  /** An order's notional and commission, from its fill price. */
  lemma Charges(o: Order, fillPrice: int, notional: int, commission: int)
    requires FillPrice(o) == fillPrice
    requires notional as real - 0.5 < Product(o.quantity, fillPrice as real / 100.0) < notional as real + 0.5
    requires commission as real - 0.5 < Product(notional as real, o.commissionRate) < commission as real + 0.5
    ensures Notional(o) == notional && Commission(o) == commission
  {
  }

  lemma AppleCharges()
    ensures Notional(Apple(Buy, 0.0000005)) == 1 && Commission(Apple(Buy, 0.0000005)) == 0
    ensures Notional(Apple(Buy, 0.000002)) == 4 && Commission(Apple(Buy, 0.000002)) == 0
    ensures Notional(Apple(Sell, 0.0000015)) == 3 && Commission(Apple(Sell, 0.0000015)) == 0
  {
    AppleFills();
    Charges(Apple(Buy, 0.0000005), 200200000, 1, 0);
    Charges(Apple(Buy, 0.000002), 200200000, 4, 0);
    Charges(Apple(Sell, 0.0000015), 199800000, 3, 0);
  }

  lemma AppleExcess()
    ensures StoredExcess(Apple(Buy, 0.0000005)) == 0.5 && StoredExcess(Apple(Sell, 0.0000015)) == 0.5
  {
    assert Micro(0.0000005) == 0.5 && Micro(0.0000015) == 1.5;
  }

  /** Half a stored unit in the trader's favour, at 2 units of 10^-4 for each. */
  lemma HalfUnitGain(o: Order, worth: int)
    requires o.price == 200.0 && StoredExcess(o) == 0.5 && Commission(o) == 0
    requires Product(o.quantity, 2000000.0) == worth as real == Notional(o) as real
    ensures TableGain(o) == 1.0
  {
    assert o.price * 10000.0 == 2000000.0;
    assert Product(0.5 / 1000000.0, 2000000.0) == 1.0;
  }

  lemma AppleGains()
    ensures TableGain(Apple(Buy, 0.0000005)) == 1.0 && TableGain(Apple(Sell, 0.0000015)) == 1.0
  {
    AppleCharges();
    AppleExcess();
    HalfUnitGain(Apple(Buy, 0.0000005), 1);
    HalfUnitGain(Apple(Sell, 0.0000015), 3);
  }

  lemma BuyFills(db: Db, o: Order)
    requires o.side.Buy? && o.quantity > 0.0 && o.price > 0.0 && TickerCurrency(o.ticker) in db.accounts
    requires Notional(o) + Commission(o) <= db.accounts[TickerCurrency(o.ticker)].cash
    ensures DecisionFor(db, o).Fill?
  {
  }

  lemma SaleFills(db: Db, o: Order)
    requires o.side.Sell? && o.quantity > 0.0 && o.price > 0.0 && TickerCurrency(o.ticker) in db.accounts
    requires Micro(o.quantity) <= HeldQty(Get(db.holdings, o.ticker)) as real
    ensures DecisionFor(db, o).Fill?
  {
  }

  lemma TwoUnitsOfStock()
    ensures var o := Apple(Buy, 0.000002);
            DecisionFor(SEEDED, o).Fill? && HeldQty(Get(Execute(SEEDED, o).holdings, "AAPL")) == 2
  {
    var o := Apple(Buy, 0.000002);
    AppleFills();
    AppleCharges();
    BuyFills(SEEDED, o);
    assert Micro(0.000002) == 2.0;
    FillQuantity(SEEDED, o);
  }

  /** On the seeded database: half a unit of a 200-dollar share is stored as a whole one, and a sale of
      one and a half units takes only one out of the row. Both pay a whole unit of 10^-4. */
  lemma SeededOrdersPay()
    ensures Fresh(SEEDED) && Pays(SEEDED, Apple(Buy, 0.0000005))
    ensures Pays(Execute(SEEDED, Apple(Buy, 0.000002)), Apple(Sell, 0.0000015))
  {
    SeededBuyPays();
    SeededSalePays();
  }

  lemma SeededBuyPays()
    ensures Pays(SEEDED, Apple(Buy, 0.0000005))
  {
    AppleFills();
    AppleCharges();
    AppleGains();
    BuyFills(SEEDED, Apple(Buy, 0.0000005));
    PaysExactly(SEEDED, Apple(Buy, 0.0000005));
  }

  lemma SeededSalePays()
    ensures Pays(Execute(SEEDED, Apple(Buy, 0.000002)), Apple(Sell, 0.0000015))
  {
    var db := Execute(SEEDED, Apple(Buy, 0.000002));
    AppleFills();
    AppleGains();
    TwoUnitsOfStock();
    assert Micro(0.0000015) == 1.5;
    SaleFills(db, Apple(Sell, 0.0000015));
    PaysExactly(db, Apple(Sell, 0.0000015));
  }

  // ---- Average cost --------------------------------------------------------------------------

  /** Notional per share of a purchase, as a four-decimal column would keep it. */
  function UnitCost(o: Order): int
    requires o.quantity > 0.0
  {
    RoundHalfAway(Ratio(Notional(o), Micro(o.quantity)))
  }

  function Ratio(notional: int, added: real): real
    requires added > 0.0
  {
    notional as real * 1000000.0 / added
  }

  /** The purchases that make up the position in t: those filled since its row was last created. */
  function OpenBuys(db: Db, cmds: seq<Command>, t: Ticker): (buys: seq<Order>)
    ensures forall o :: o in buys ==> o.quantity > 0.0 && o.side.Buy? && o.ticker == t
  {
    if cmds == [] || t !in Run(db, cmds).holdings then []
    else
      var n := |cmds| - 1;
      var before := OpenBuys(db, cmds[..n], t);
      if cmds[n].Place? && cmds[n].order.ticker == t && cmds[n].order.side.Buy?
         && DecisionFor(Run(db, cmds[..n]), cmds[n].order).Fill?
      then before + [cmds[n].order]
      else before
  }

  /** The weighted mean lies between the two costs it blends. */
  lemma BlendBetween(h: real, k: real, x: real, n: real)
    requires h >= 0.0 && x > 0.0
    ensures var u := n / x;
            var blend := (Product(h, k) + n) / (h + x);
            (k <= u ==> k <= blend <= u) && (u <= k ==> u <= blend <= k)
  {
    var u := n / x;
    var blend := (Product(h, k) + n) / (h + x);
    var w := h + x;
    assert blend * w == h * k + u * x;
    assert (blend - k) * w == (u - k) * x;
    assert (u - blend) * w == (u - k) * h;
    DividePositive(blend - k, w, (u - k) * x);
    DividePositive(u - blend, w, (u - k) * h);
    if k <= u {
      ProductNonNegative(u - k, x);
      ProductNonNegative(u - k, h);
    } else {
      ProductNonNegative(k - u, x);
      ProductNonNegative(k - u, h);
      assert (k - u) * x == -((u - k) * x);
      assert (k - u) * h == -((u - k) * h);
    }
  }

  lemma DividePositive(a: real, w: real, product: real)
    requires w > 0.0 && a * w == product
    ensures product >= 0.0 ==> a >= 0.0
    ensures product <= 0.0 ==> a <= 0.0
  {
  }

  lemma BuyBlendsCost(db: Db, o: Order)
    requires o.side.Buy? && DecisionFor(db, o).Fill?
    ensures var k := HeldCost(Get(db.holdings, o.ticker));
            var cost := Execute(db, o).holdings[o.ticker].avgCost;
            && (o.ticker !in db.holdings ==> cost == UnitCost(o))
            && (k <= cost <= UnitCost(o) || UnitCost(o) <= cost <= k)
  {
    var held := Get(db.holdings, o.ticker);
    BlendRounded(HeldQty(held), HeldCost(held), Notional(o), Micro(o.quantity));
  }

  lemma BlendRounded(h: nat, k: int, n: int, x: real)
    requires x > 0.0
    ensures var cost, unit := RoundHalfAway(BlendedCost(h, k, n, x)), RoundHalfAway(Ratio(n, x));
            && (h == 0 ==> cost == unit)
            && (k <= cost <= unit || unit <= cost <= k)
  {
    var blend, u := BlendedCost(h, k, n, x), Ratio(n, x);
    BlendBetween(h as real, k as real, x, n as real * 1000000.0);
    RoundGridPoint(k);
    if h == 0 {
      assert blend == u;
    }
    if k as real <= u {
      RoundHalfAwayMonotone(k as real, blend);
      RoundHalfAwayMonotone(blend, u);
    } else {
      RoundHalfAwayMonotone(u, blend);
      RoundHalfAwayMonotone(blend, k as real);
    }
  }

  /** A purchase conserves the cost basis: the exact new quantity at the new average cost is the old
      basis plus the notional, to half a unit of 10^-4 for each unit of quantity. */
  lemma PurchaseConservesCost(db: Db, o: Order)
    requires o.side.Buy? && DecisionFor(db, o).Fill?
    ensures var held, after := Get(db.holdings, o.ticker), Execute(db, o).holdings[o.ticker];
            var exact := HeldQty(held) as real + Micro(o.quantity);
            var paid := Product(HeldQty(held) as real, HeldCost(held) as real) + Notional(o) as real * 1000000.0;
            -0.5 * exact <= Product(exact, after.avgCost as real) - paid <= 0.5 * exact
  {
    var held := Get(db.holdings, o.ticker);
    var h, k, n, x := HeldQty(held), HeldCost(held), Notional(o), Micro(o.quantity);
    BasisOfRounded(h as real + x, Product(h as real, k as real) + n as real * 1000000.0,
                   RoundHalfAway(BlendedCost(h, k, n, x)) as real);
  }

  lemma BasisOfRounded(exact: real, paid: real, cost: real)
    requires exact > 0.0 && -0.5 <= cost - paid / exact <= 0.5
    ensures -0.5 * exact <= Product(exact, cost) - paid <= 0.5 * exact
  {
    var mean := paid / exact;
    assert mean * exact == paid;
    ProductDifference(mean, cost, exact);
    ProductWithin(exact, exact, cost - mean, 0.5);
    assert Product(exact, 0.5) == 0.5 * exact;
    assert Product(exact, mean) == paid;
  }

  /** A notional or a commission half-way between two units goes to the even one, as Python rounds. */
  lemma ChargesTie(o: Order, k: nat)
    ensures Product(o.quantity, FillPrice(o) as real / 100.0) == k as real + 0.5 ==> Notional(o) % 2 == 0
    ensures Product(Notional(o) as real, o.commissionRate) == k as real + 0.5 ==> Commission(o) % 2 == 0
  {
    TiesDiffer(k);
  }

  /** And so does a fill price. */
  lemma FillPriceTie(o: Order, k: nat)
    requires ExactPrice(o) * 100.0 == k as real + 0.5
    ensures FillPrice(o) % 2 == 0
  {
    assert FillPrice(o) == RoundHalfEven(ExactPrice(o) * 100.0);
    TiesDiffer(k);
  }

  /** A stored quantity half-way between two units goes up, as its column rounds. */
  lemma QuantityTie(db: Db, o: Order, k: nat)
    requires DecisionFor(db, o).Fill?
    requires var h := HeldQty(Get(db.holdings, o.ticker)) as real;
             (if o.side.Buy? then h + Micro(o.quantity) else h - Micro(o.quantity)) == k as real + 0.5
    ensures var after := Get(Execute(db, o).holdings, o.ticker);
            after.Some? && after.value.quantity == k + 1
  {
    TiesDiffer(k);
    FillQuantity(db, o);
  }

  /** The average cost, as a column, goes up too. */
  lemma CostTie(db: Db, o: Order, k: nat)
    requires o.side.Buy? && DecisionFor(db, o).Fill?
    requires var held := Get(db.holdings, o.ticker);
             Product(HeldQty(held) as real, HeldCost(held) as real) + Notional(o) as real * 1000000.0
             == Product(HeldQty(held) as real + Micro(o.quantity), k as real + 0.5)
    ensures Execute(db, o).holdings[o.ticker].avgCost == k + 1
  {
    var held := Get(db.holdings, o.ticker);
    var exact := HeldQty(held) as real + Micro(o.quantity);
    OverProduct(exact, k as real + 0.5);
    TiesDiffer(k);
  }

  lemma OverProduct(x: real, y: real)
    requires x > 0.0
    ensures Product(x, y) / x == y
  {
    var q := Product(x, y) / x;
    assert q * x == Product(x, y);
    SameFactor(x, q, y);
  }

  lemma SameFactor(x: real, a: real, b: real)
    requires x > 0.0 && a * x == x * b
    ensures a == b
  {
  }

  /** The cost basis of a position, in 10^-10. */
  function Basis(h: Option<Holding>): real { Product(HeldQty(h) as real, HeldCost(h) as real) }

  /** What a run paid for the position it leaves in t: the notionals of its purchases, less the average
      cost of the units it sold. */
  function PaidFor(db: Db, cmds: seq<Command>, t: Ticker): real {
    if cmds == [] then Basis(Get(db.holdings, t))
    else
      var n := |cmds| - 1;
      var mid := Run(db, cmds[..n]);
      match cmds[n]
      case ResetAll => 0.0
      case Place(o) =>
        var before := PaidFor(db, cmds[..n], t);
        if o.ticker != t || DecisionFor(mid, o).Reject? then before
        else if o.side.Buy? then before + Notional(o) as real * 1000000.0
        else before - Product(StoredMove(o) as real, HeldCost(Get(mid.holdings, t)) as real)
  }

  /** Half a unit of 10^-4 for each unit held after a purchase, and for a quantity off the grid half a
      unit of 10^-6 at the average cost. */
  function BasisBudget(db: Db, cmds: seq<Command>, t: Ticker): real {
    if cmds == [] then 0.0
    else
      var n := |cmds| - 1;
      var mid := Run(db, cmds[..n]);
      match cmds[n]
      case ResetAll => 0.0
      case Place(o) =>
        var before := BasisBudget(db, cmds[..n], t);
        if o.ticker != t || DecisionFor(mid, o).Reject? || o.side.Sell? then before
        else before + OrderBudget(mid, o)
  }

  function OrderBudget(db: Db, o: Order): real {
    var cost := HeldCost(Get(Execute(db, o).holdings, o.ticker)) as real;
    0.5 * (HeldQty(Get(db.holdings, o.ticker)) as real + Micro(o.quantity))
    + (if OnGrid(o.quantity) then 0.0 else 0.5 * (if cost < 0.0 then -cost else cost))
  }

  lemma StoredBasis(exact: real, stored: int, cost: real, onGrid: bool)
    requires -0.5 <= stored as real - exact <= 0.5 && (onGrid ==> stored as real == exact)
    ensures var slack := if onGrid then 0.0 else 0.5 * (if cost < 0.0 then -cost else cost);
            -slack <= Product(stored as real, cost) - Product(exact, cost) <= slack
  {
    ProductDifference(exact, stored as real, cost);
    var size := if cost < 0.0 then -cost else cost;
    ProductWithin(cost, size, stored as real - exact, 0.5);
    assert Product(size, 0.5) == 0.5 * size;
    assert Product(cost, stored as real - exact) == Product(stored as real - exact, cost);
  }

  lemma PurchaseBasis(db: Db, o: Order)
    requires o.side.Buy? && DecisionFor(db, o).Fill?
    ensures var gained := Basis(Get(Execute(db, o).holdings, o.ticker)) - Basis(Get(db.holdings, o.ticker))
                          - Notional(o) as real * 1000000.0;
            -OrderBudget(db, o) <= gained <= OrderBudget(db, o)
  {
    var after := Execute(db, o).holdings[o.ticker];
    var exact := HeldQty(Get(db.holdings, o.ticker)) as real + Micro(o.quantity);
    FillQuantity(db, o);
    if OnGrid(o.quantity) { RoundGridPoint(HeldQty(Get(db.holdings, o.ticker)) + Micro(o.quantity).Floor); }
    StoredBasis(exact, after.quantity, after.avgCost as real, OnGrid(o.quantity));
    PurchaseConservesCost(db, o);
  }

  /** A sale takes units out at the average cost and leaves the cost of the rest alone. */
  lemma SaleBasis(db: Db, o: Order)
    requires o.side.Sell? && DecisionFor(db, o).Fill?
    ensures Basis(Get(Execute(db, o).holdings, o.ticker))
            == Basis(Get(db.holdings, o.ticker))
               - Product(StoredMove(o) as real, HeldCost(Get(db.holdings, o.ticker)) as real)
  {
    FillMovesStored(db, o);
    var held, after := Get(db.holdings, o.ticker), Get(Execute(db, o).holdings, o.ticker);
    assert after == DecisionFor(db, o).holding;
    var cost := HeldCost(held) as real;
    ProductDifference(StoredMove(o) as real, HeldQty(held) as real, cost);
    assert HeldQty(after) as real == HeldQty(held) as real - StoredMove(o) as real;
    assert after.None? ==> Product(0.0, cost) == 0.0 && Product(0.0, 0.0) == 0.0;
  }

  /** Cost basis is conserved over any run of orders and resets: quantity times average cost is what was
      paid for the position, within its budget. */
  lemma {:induction false} CostBasisConserved(db: Db, cmds: seq<Command>, t: Ticker)
    ensures var basis := Basis(Get(Run(db, cmds).holdings, t));
            -BasisBudget(db, cmds, t) <= basis - PaidFor(db, cmds, t) <= BasisBudget(db, cmds, t)
  {
    if cmds != [] {
      var n := |cmds| - 1;
      var mid := Run(db, cmds[..n]);
      CostBasisConserved(db, cmds[..n], t);
      match cmds[n] {
        case ResetAll => assert Product(0.0, 0.0) == 0.0;
        case Place(o) =>
          if o.ticker == t && DecisionFor(mid, o).Fill? {
            if o.side.Buy? { PurchaseBasis(mid, o); } else { SaleBasis(mid, o); }
          } else {
            assert Get(Execute(mid, o).holdings, t) == Get(mid.holdings, t);
          }
      }
    }
  }

  /** While a position is open, its stored average cost lies between the four-decimal unit costs of
      its cheapest and its dearest purchase, through any mix of orders and resets. */
  lemma {:induction false} AverageCostNeverDrifts(db: Db, cmds: seq<Command>, t: Ticker)
    requires db.holdings == map[] && t in Run(db, cmds).holdings
    ensures exists lo :: lo in OpenBuys(db, cmds, t) && UnitCost(lo) <= Run(db, cmds).holdings[t].avgCost
    ensures exists hi :: hi in OpenBuys(db, cmds, t) && Run(db, cmds).holdings[t].avgCost <= UnitCost(hi)
  {
    var n := |cmds| - 1;
    var mid := Run(db, cmds[..n]);
    var buys := OpenBuys(db, cmds[..n], t);
    assert cmds[n].Place?;
    var o := cmds[n].order;
    if t in mid.holdings {
      AverageCostNeverDrifts(db, cmds[..n], t);
      var lo :| lo in buys && UnitCost(lo) <= mid.holdings[t].avgCost;
      var hi :| hi in buys && mid.holdings[t].avgCost <= UnitCost(hi);
      assert lo in OpenBuys(db, cmds, t) && hi in OpenBuys(db, cmds, t);
      if o.ticker == t && o.side.Buy? && DecisionFor(mid, o).Fill? {
        assert o in OpenBuys(db, cmds, t);
        BuyBlendsCost(mid, o);
      } else {
        assert Run(db, cmds).holdings[t].avgCost == mid.holdings[t].avgCost;
      }
    } else {
      assert o.ticker == t && o.side.Buy? && DecisionFor(mid, o).Fill?;
      assert o in OpenBuys(db, cmds, t);
      BuyBlendsCost(mid, o);
    }
  }
}
