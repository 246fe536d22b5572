/** The broker's tables, updated in place the way the transactions do it. */
module BrokerStore {
  import opened Basics
  import opened Rounding
  import opened Broker
  import opened BrokerLedger
  import opened BrokerValue

  datatype HoldingRow = HoldingRow(ticker: Ticker, holding: Holding)

  datatype NavRow = NavRow(cash: int, holdingsValue: int, totalNav: int)

  /** The rows are the table: every ticker once, with its current row. */
  ghost predicate Lists(rows: seq<HoldingRow>, m: map<Ticker, Holding>) {
    && (forall i, j :: 0 <= i < j < |rows| ==> rows[i].ticker != rows[j].ticker)
    && (forall i :: 0 <= i < |rows| ==> rows[i].ticker in m && m[rows[i].ticker] == rows[i].holding)
    && (forall t :: t in m ==> exists i :: 0 <= i < |rows| && rows[i].ticker == t)
  }

  /** Code-point order of tickers. */
  predicate Before(a: Ticker, b: Ticker) {
    b != "" && (a == "" || a[0] < b[0] || (a[0] == b[0] && Before(a[1..], b[1..])))
  }

  ghost predicate Ordered(rows: seq<HoldingRow>) {
    forall i, j :: 0 <= i < j < |rows| ==> Before(rows[i].ticker, rows[j].ticker)
  }

  lemma {:induction false} BeforeTotal(a: Ticker, b: Ticker)
    requires a != b
    ensures Before(a, b) || Before(b, a)
  {
    if a != "" && b != "" && a[0] == b[0] {
      assert a == [a[0]] + a[1..] && b == [b[0]] + b[1..];
      BeforeTotal(a[1..], b[1..]);
    }
  }

  lemma {:induction false} BeforeTransitive(a: Ticker, b: Ticker, c: Ticker)
    requires Before(a, b) && Before(b, c)
    ensures Before(a, c)
  {
    if a != "" && a[0] == b[0] && b[0] == c[0] {
      BeforeTransitive(a[1..], b[1..], c[1..]);
    }
  }

  /** The first difference decides, and a name comes before its extensions. */
  lemma {:induction false} FirstDifferenceDecides(p: string, x: char, y: char, u: string, v: string)
    ensures x != y ==> (Before(p + [x] + u, p + [y] + v) <==> x < y)
    ensures Before(p, p + [x] + u) && !Before(p + [x] + u, p)
    decreases p
  {
    if p == "" {
      assert ("" + [x] + u)[0] == x && ("" + [y] + v)[0] == y;
    } else {
      FirstDifferenceDecides(p[1..], x, y, u, v);
      assert (p + [x] + u)[1..] == p[1..] + [x] + u && (p + [y] + v)[1..] == p[1..] + [y] + v;
    }
  }

  ghost predicate Smallest(t: Ticker, s: set<Ticker>) { t in s && forall u :: u in s && u != t ==> Before(t, u) }

  lemma {:induction false} HasSmallest(s: set<Ticker>) returns (t: Ticker)
    requires s != {}
    ensures Smallest(t, s)
  {
    var u :| u in s;
    t := u;
    if s != {u} {
      var least := HasSmallest(s - {u});
      BeforeTotal(u, least);
      t := if Before(u, least) then u else least;
      forall v | v in s && v != t ensures Before(t, v) {
        if v != u && v != least && t == u { BeforeTransitive(u, least, v); }
      }
    }
  }

  lemma ListsGrows(rows: seq<HoldingRow>, m: map<Ticker, Holding>, t: Ticker, h: Holding)
    requires Lists(rows, m) && t !in m
    ensures Lists(rows + [HoldingRow(t, h)], m[t := h])
  {
    var more := rows + [HoldingRow(t, h)];
    assert more[|rows|].ticker == t;
    forall u | u in m ensures exists i :: 0 <= i < |more| && more[i].ticker == u {
      var i :| 0 <= i < |rows| && rows[i].ticker == u;
      assert more[i].ticker == u;
    }
  }

  /** The price a holding is marked at: its live price, or else its average cost. */
  function Mark(prices: map<Ticker, real>, r: HoldingRow): real {
    if r.ticker in prices then prices[r.ticker] else r.holding.avgCost as real / 10000.0
  }

  /** Mark-to-market value of the rows of one currency, in 10^-4. */
  function HoldingsValue(rows: seq<HoldingRow>, prices: map<Ticker, real>, c: Currency): real {
    if rows == [] then 0.0
    else
      var r := rows[|rows| - 1];
      HoldingsValue(rows[..|rows| - 1], prices, c) + RowValue(Some(r.holding), Mark(prices, r), c)
  }

  function MarksFor(m: map<Ticker, Holding>, prices: map<Ticker, real>): Ticker -> real {
    t => if t in m then Mark(prices, HoldingRow(t, m[t])) else 0.0
  }

  lemma ListsShrinks(rows: seq<HoldingRow>, m: map<Ticker, Holding>)
    requires rows != [] && Lists(rows, m)
    ensures Lists(rows[..|rows| - 1], m - {rows[|rows| - 1].ticker})
  {
    var n := |rows| - 1;
    forall t | t in m && t != rows[n].ticker ensures exists i :: 0 <= i < n && rows[..n][i].ticker == t {
      var i :| 0 <= i < |rows| && rows[i].ticker == t;
      assert rows[..n][i].ticker == t;
    }
  }

  /** Mark-to-market value of the table's rows of one currency, in 10^-4. */
  ghost function TableValue(m: map<Ticker, Holding>, prices: map<Ticker, real>, c: Currency): real {
    SumRows(m, m.Keys, MarksFor(m, prices), c)
  }

  /** Any listing of the table is worth what the table is worth, in whatever order it comes. */
  lemma ListingWorthTable(rows: seq<HoldingRow>, m: map<Ticker, Holding>, prices: map<Ticker, real>, c: Currency)
    requires Lists(rows, m)
    ensures HoldingsValue(rows, prices, c) == TableValue(m, prices, c)
  {
    ListingWorth(rows, m, prices, c, MarksFor(m, prices));
  }

  lemma {:induction false} ListingWorth(rows: seq<HoldingRow>, m: map<Ticker, Holding>,
                                        prices: map<Ticker, real>, c: Currency, marks: Ticker -> real)
    requires Lists(rows, m)
    requires forall r :: r in rows ==> marks(r.ticker) == Mark(prices, r)
    ensures HoldingsValue(rows, prices, c) == SumRows(m, m.Keys, marks, c)
  {
    if rows == [] {
      assert m.Keys == {};
    } else {
      var n := |rows| - 1;
      var r := rows[n];
      var rest := m - {r.ticker};
      ListsShrinks(rows, m);
      ListingWorth(rows[..n], rest, prices, c, marks);
      assert r in rows;
      SumRowsSplit(m, m.Keys, marks, c, r.ticker);
      assert m.Keys - {r.ticker} == rest.Keys;
      forall t | t in rest.Keys ensures RowValue(Get(m, t), marks(t), c) == RowValue(Get(rest, t), marks(t), c) {
      }
      SumRowsSame(m, rest, rest.Keys, marks, c);
    }
  }

  /** dict.get(currency, 0.0) */
  function ValueIn(byCurrency: map<Currency, real>, c: Currency): real {
    if c in byCurrency then byCurrency[c] else 0.0
  }

  /** Group holdings by currency and add up their mark-to-market values. */
  method MarkToMarket(rows: seq<HoldingRow>, prices: map<Ticker, real>) returns (byCurrency: map<Currency, real>)
    ensures forall c :: ValueIn(byCurrency, c) == HoldingsValue(rows, prices, c)
  {
    byCurrency := map[];
    for i := 0 to |rows|
      invariant forall c :: ValueIn(byCurrency, c) == HoldingsValue(rows[..i], prices, c)
    {
      var r := rows[i];
      var c := r.holding.currency;
      assert rows[..i + 1][..i] == rows[..i];
      byCurrency := byCurrency[c := ValueIn(byCurrency, c)
                                    + Product(r.holding.quantity as real / 1000000.0, Mark(prices, r) * 10000.0)];
    }
    assert rows[..|rows|] == rows;
  }

  /** A snapshot row: the cash itself, the holdings value to half a unit, and the total returned, which is
      their exact sum to half a unit. */
  ghost predicate Snapshot(row: NavRow, cash: int, held: real, total: int) {
    && row.cash == cash
    && held - 0.5 <= row.holdingsValue as real <= held + 0.5
    && row.totalNav == total
    && cash as real + held - 0.5 <= row.totalNav as real <= cash as real + held + 0.5
  }

  class VirtualBroker {
    var accounts: map<Currency, Account>
    var holdings: map<Ticker, Holding>
    var orders: seq<OrderRow>
    var audit: seq<AuditRow>
    var nextId: nat
    var navSnapshots: map<(int, Currency), NavRow>

    ghost function State(): Db
      reads this
    {
      Db(accounts, holdings, orders, audit, nextId)
    }

    /** init_db on an empty database: both accounts are seeded with their starting balances. */
    constructor ()
      ensures State() == SEEDED && Fresh(State()) && navSnapshots == map[]
    {
      accounts := map[KRW := Account(1000000000000, 1000000000000), USD := Account(1000000000, 1000000000)];
      holdings, orders, audit, nextId := map[], [], [], 1;
      navSnapshots := map[];
    }

    method ExecuteVirtualOrder(o: Order) returns (r: Result)
      modifies `accounts, `holdings, `orders, `audit, `nextId
      ensures State() == Execute(old(State()), o)
      ensures r == Outcome(old(State()), o)
    {
      if o.quantity <= 0.0 { return Rejected(QuantityMustBePositive); }
      if o.price <= 0.0 { return Rejected(InvalidPrice); }
      var currency := TickerCurrency(o.ticker);
      var fillPrice := FillPriceAt(o.side, o.price, o.slippage);
      var notional := NotionalAt(o.quantity, fillPrice);
      var commission := CommissionAt(notional, o.commissionRate);

      if currency !in accounts { return Rejected(NoAccount(currency)); }
      var cash := accounts[currency].cash;
      var held := Get(holdings, o.ticker);
      var heldQty, heldCost := HeldQty(held), HeldCost(held);
      ghost var decision := DecisionFor(State(), o);

      if o.side.Buy? {
        var debit := notional + commission;
        if debit > cash { return Rejected(InsufficientCash(debit, cash)); }
        var newQty := heldQty as real + Micro(o.quantity);
        var newCost := BlendedCost(heldQty, heldCost, notional, Micro(o.quantity));
        UpsertHolding(o.ticker, RoundHalfAway(newQty), RoundHalfAway(newCost), currency);
        AddCash(currency, -debit);
      } else {
        if Micro(o.quantity) > heldQty as real { return Rejected(InsufficientHoldings(o.quantity, heldQty)); }
        var remaining := heldQty as real - Micro(o.quantity);
        if remaining <= 0.0 {
          holdings := holdings - {o.ticker};
        } else {
          holdings := holdings[o.ticker := holdings[o.ticker].(quantity := RoundHalfAway(remaining))];
        }
        var proceeds := notional - commission;
        AddCash(currency, proceeds);
      }
      assert decision.Fill? && holdings == Put(old(holdings), o.ticker, decision.holding);
      assert accounts == old(accounts)[currency := Account(cash + decision.cashDelta, old(accounts)[currency].initial)];

      var id := nextId;
      nextId := nextId + 1;
      orders := orders + [OrderRow(id, o.ticker, o.side, RoundHalfAway(Micro(o.quantity)),
                                   RoundHalfAway(fillPrice as real / 100.0), currency,
                                   RoundHalfAway(o.slippage * 1000000.0), commission)];
      audit := audit + [AuditRow(id, o.ticker, o.side, o.quantity, o.price, fillPrice, currency,
                                 notional, commission, o.slippage)];
      return Filled(id, fillPrice, notional, commission);
    }

    /** INSERT ... ON CONFLICT (ticker) DO UPDATE: an existing row keeps its currency column. */
    method UpsertHolding(t: Ticker, quantity: nat, avgCost: int, currency: Currency)
      modifies `holdings
      ensures holdings == old(holdings)[t := Holding(quantity, avgCost,
                            if t in old(holdings) then old(holdings)[t].currency else currency)]
    {
      if t in holdings {
        holdings := holdings[t := holdings[t].(quantity := quantity, avgCost := avgCost)];
      } else {
        holdings := holdings[t := Holding(quantity, avgCost, currency)];
      }
    }

    /** UPDATE virtual_accounts SET cash_balance = cash_balance + delta. */
    method AddCash(c: Currency, delta: int)
      requires c in accounts
      modifies `accounts
      ensures accounts == old(accounts)[c := Account(old(accounts)[c].cash + delta, old(accounts)[c].initial)]
    {
      accounts := accounts[c := accounts[c].(cash := accounts[c].cash + delta)];
    }

    method ResetVirtualPortfolio()
      modifies `accounts, `holdings, `orders
      ensures State() == Reset(old(State()))
    {
      accounts := map c | c in accounts :: accounts[c].(cash := accounts[c].initial);
      holdings := map[];
      orders := [];
    }

    method GetPortfolioHoldings() returns (rows: seq<HoldingRow>)
      ensures Lists(rows, holdings) && Ordered(rows)
    {
      rows := [];
      var left := holdings.Keys;
      while left != {}
        invariant left <= holdings.Keys
        invariant Lists(rows, holdings - left) && Ordered(rows)
        invariant forall r, u :: r in rows && u in left ==> Before(r.ticker, u)
      {
        ghost var least := HasSmallest(left);
        var t :| t in left && forall u :: u in left && u != t ==> Before(t, u);
        ListsGrows(rows, holdings - left, t, holdings[t]);
        rows := rows + [HoldingRow(t, holdings[t])];
        assert (holdings - left)[t := holdings[t]] == holdings - (left - {t});
        left := left - {t};
      }
      assert holdings - left == holdings;
    }

    /** A snapshot marks the whole table to market: the total stored for a currency is its cash plus
        the value of its rows, rounded once; an earlier snapshot of the same instant is kept. */
    method RecordPortfolioNav(prices: map<Ticker, real>, now: int) returns (result: map<Currency, int>)
      modifies `navSnapshots
      ensures result.Keys == accounts.Keys
      ensures forall c :: c in accounts ==> result[c] == NavTotal(accounts[c].cash, TableValue(holdings, prices, c))
      ensures forall k :: k in old(navSnapshots) ==> k in navSnapshots && navSnapshots[k] == old(navSnapshots)[k]
      ensures forall k :: k in navSnapshots && k !in old(navSnapshots) ==> k.0 == now && k.1 in accounts
      ensures forall c :: c in accounts ==> (now, c) in navSnapshots
      ensures forall c :: c in accounts && (now, c) !in old(navSnapshots) ==>
                Snapshot(navSnapshots[(now, c)], accounts[c].cash, TableValue(holdings, prices, c), result[c])
    {
      result := map[];
      if accounts.Keys == {} { return; }
      var rows := GetPortfolioHoldings();
      var byCurrency := MarkToMarket(rows, prices);
      ghost var m := holdings;
      forall c ensures ValueIn(byCurrency, c) == TableValue(m, prices, c) {
        ListingWorthTable(rows, m, prices, c);
      }
      result := InsertSnapshots(byCurrency, now);
    }

    method InsertSnapshots(byCurrency: map<Currency, real>, now: int) returns (result: map<Currency, int>)
      modifies `navSnapshots
      ensures result.Keys == accounts.Keys
      ensures forall c :: c in accounts ==> result[c] == NavTotal(accounts[c].cash, ValueIn(byCurrency, c))
      ensures forall k :: k in old(navSnapshots) ==> k in navSnapshots && navSnapshots[k] == old(navSnapshots)[k]
      ensures forall k :: k in navSnapshots && k !in old(navSnapshots) ==> k.0 == now && k.1 in accounts
      ensures forall c :: c in accounts ==> (now, c) in navSnapshots
      ensures forall c :: c in accounts && (now, c) !in old(navSnapshots) ==>
                Snapshot(navSnapshots[(now, c)], accounts[c].cash, ValueIn(byCurrency, c), result[c])
    {
      result := map[];
      var left := accounts.Keys;
      while left != {}
        invariant left <= accounts.Keys && result.Keys == accounts.Keys - left
        invariant forall c :: c in result ==> result[c] == NavTotal(accounts[c].cash, ValueIn(byCurrency, c))
        invariant forall k :: k in old(navSnapshots) ==> k in navSnapshots && navSnapshots[k] == old(navSnapshots)[k]
        invariant forall k :: k in navSnapshots && k !in old(navSnapshots) ==> k.0 == now && k.1 in result
        invariant forall c :: c in result ==> (now, c) in navSnapshots
        invariant forall c :: c in result && (now, c) !in old(navSnapshots) ==>
                  Snapshot(navSnapshots[(now, c)], accounts[c].cash, ValueIn(byCurrency, c), result[c])
      {
        var c :| c in left;
        if (now, c) !in navSnapshots {
          navSnapshots := navSnapshots[(now, c) := NavRowFor(accounts[c].cash, ValueIn(byCurrency, c))];
        }
        result := result[c := NavTotal(accounts[c].cash, ValueIn(byCurrency, c))];
        left := left - {c};
      }
    }
  }

  function NavRowFor(cash: int, held: real): NavRow { NavRow(cash, NavTotal(0, held), NavTotal(cash, held)) }

  /** Cash plus holdings value, rounded to four decimals. */
  function NavTotal(cash: int, held: real): int { RoundHalfEven(cash as real + held) }

  /** The columns of a row add up, except that an odd cash balance moves a holdings value that lies
      half-way between two units to the other even neighbour. */
  lemma ColumnsAddUpExactly(cash: int, held: real)
    ensures var row := NavRowFor(cash, held);
            row.totalNav == row.cash + row.holdingsValue <==> !(held - held.Floor as real == 0.5 && cash % 2 == 1)
  {
  }

  lemma OddCashHalfUnit()
    ensures NavRowFor(1, 0.5) == NavRow(1, 0, 2)
  {
  }

  lemma {:induction false} SumRowsMarks(m: map<Ticker, Holding>, keys: set<Ticker>, marks: Ticker -> real,
                                        other: Ticker -> real, c: Currency)
    requires forall t :: t in keys ==> marks(t) == other(t)
    ensures SumRows(m, keys, marks, c) == SumRows(m, keys, other, c)
  {
    if keys != {} {
      var t :| t in keys;
      SumRowsSplit(m, keys, marks, c, t);
      SumRowsSplit(m, keys, other, c, t);
      SumRowsMarks(m, keys - {t}, marks, other, c);
    }
  }

  /** A change of one live price moves the table's value by the shares held times the change, in the
      currency of the row and in no other. */
  lemma PriceMovesValue(m: map<Ticker, Holding>, prices: map<Ticker, real>, t: Ticker,
                        was: real, now: real, c: Currency)
    ensures TableValue(m, prices[t := now], c) - TableValue(m, prices[t := was], c)
            == if t in m && m[t].currency == c
               then Product(m[t].quantity as real / 1000000.0, (now - was) * 10000.0) else 0.0
  {
    var before, after := MarksFor(m, prices[t := was]), MarksFor(m, prices[t := now]);
    if t in m {
      SumRowsSplit(m, m.Keys, before, c, t);
      SumRowsSplit(m, m.Keys, after, c, t);
      SumRowsMarks(m, m.Keys - {t}, before, after, c);
      var shares := m[t].quantity as real / 1000000.0;
      ProductDifference(was * 10000.0, now * 10000.0, shares);
      assert now * 10000.0 - was * 10000.0 == (now - was) * 10000.0;
    } else {
      SumRowsMarks(m, m.Keys, before, after, c);
    }
  }
}
