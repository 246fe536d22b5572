/** The portfolio summary, the ten-second cache behind it, and the two calls that change the book. */
module Portfolio {
  import opened Basics
  import opened Rounding
  import opened Broker
  import opened BrokerLedger
  import opened BrokerValue
  import opened BrokerStore

  // ---- The summary ---------------------------------------------------------------------------

  datatype HoldingView = HoldingView(row: HoldingRow, livePrice: int, marketValue: int, unrealizedPl: int)

  datatype AccountView = AccountView(cash: int, marketValue: int, totalValue: int, initial: int,
                                     totalPl: int, totalPlPct: int)

  datatype Summary = Summary(accounts: map<Currency, AccountView>, holdings: seq<HoldingView>)

  function SharesOf(h: Holding): real { h.quantity as real / 1000000.0 }

  /** Each holding's market value is rounded to four decimals before it is added up. */
  function MarketValue(r: HoldingRow, prices: map<Ticker, real>): int {
    RoundHalfEven(Product(SharesOf(r.holding), Mark(prices, r) * 10000.0))
  }

  function HoldingViewOf(r: HoldingRow, prices: map<Ticker, real>): HoldingView {
    HoldingView(r, RoundHalfEven(Mark(prices, r) * 10000.0), MarketValue(r, prices),
                RoundHalfEven(MarketValue(r, prices) as real - Product(SharesOf(r.holding), r.holding.avgCost as real)))
  }

  function MarketValueIn(rows: seq<HoldingRow>, prices: map<Ticker, real>, c: Currency): int {
    if rows == [] then 0
    else
      var r := rows[|rows| - 1];
      MarketValueIn(rows[..|rows| - 1], prices, c) + if r.holding.currency == c then MarketValue(r, prices) else 0
  }

  function AccountViewOf(a: Account, marketValue: int): AccountView {
    var total := a.cash + marketValue;
    AccountView(a.cash, marketValue, total, a.initial, total - a.initial,
                if a.initial == 0 then 0
                else RoundHalfEven((total as real / a.initial as real - 1.0) * 100000.0))
  }

  function IntIn(m: map<Currency, int>, c: Currency): int { if c in m then m[c] else 0 }

  method Summarize(accounts: map<Currency, Account>, rows: seq<HoldingRow>, prices: map<Ticker, real>)
    returns (summary: Summary)
    ensures summary.accounts.Keys == accounts.Keys
    ensures forall c :: c in accounts ==>
              summary.accounts[c] == AccountViewOf(accounts[c], MarketValueIn(rows, prices, c))
    ensures |summary.holdings| == |rows|
    ensures forall i :: 0 <= i < |rows| ==> summary.holdings[i] == HoldingViewOf(rows[i], prices)
  {
    var enriched: seq<HoldingView> := [];
    var byCurrency := map c | c in accounts :: 0;
    for i := 0 to |rows|
      invariant forall c :: IntIn(byCurrency, c) == MarketValueIn(rows[..i], prices, c)
      invariant |enriched| == i && forall j :: 0 <= j < i ==> enriched[j] == HoldingViewOf(rows[j], prices)
    {
      var view := HoldingViewOf(rows[i], prices);
      var c := rows[i].holding.currency;
      assert rows[..i + 1][..i] == rows[..i];
      byCurrency := byCurrency[c := IntIn(byCurrency, c) + view.marketValue];
      enriched := enriched + [view];
    }
    assert rows[..|rows|] == rows;
    summary := Summary(map c | c in accounts :: AccountViewOf(accounts[c], IntIn(byCurrency, c)), enriched);
  }

  // ---- Two valuations of the same book -------------------------------------------------------

  function RowsIn(rows: seq<HoldingRow>, c: Currency): nat {
    if rows == [] then 0
    else RowsIn(rows[..|rows| - 1], c) + if rows[|rows| - 1].holding.currency == c then 1 else 0
  }

  lemma {:induction false} RoundedSumError(rows: seq<HoldingRow>, prices: map<Ticker, real>, c: Currency)
    ensures -0.5 * RowsIn(rows, c) as real
            <= MarketValueIn(rows, prices, c) as real - HoldingsValue(rows, prices, c)
            <= 0.5 * RowsIn(rows, c) as real
  {
    if rows != [] {
      RoundedSumError(rows[..|rows| - 1], prices, c);
    }
  }

  /** The NAV snapshot rounds once and the summary rounds every holding, so with k holdings in a
      currency the total stored and the total shown differ by at most (k + 1) * 1/2 * 10^-4. */
  lemma ValuationsAgree(row: NavRow, total: int, summary: Summary, accounts: map<Currency, Account>,
                        rows: seq<HoldingRow>, m: map<Ticker, Holding>, prices: map<Ticker, real>, c: Currency)
    requires Lists(rows, m) && c in accounts
    requires Snapshot(row, accounts[c].cash, TableValue(m, prices, c), total)
    requires c in summary.accounts && summary.accounts[c] == AccountViewOf(accounts[c], MarketValueIn(rows, prices, c))
    ensures var gap := (row.totalNav - summary.accounts[c].totalValue) as real;
            -0.5 * (RowsIn(rows, c) + 1) as real <= gap <= 0.5 * (RowsIn(rows, c) + 1) as real
  {
    ListingWorthTable(rows, m, prices, c);
    RoundedSumError(rows, prices, c);
  }

  // ---- Profit and loss -----------------------------------------------------------------------

  /** A holding shows the live price, or its average cost without one, to half a unit; its market value
      is its shares at that price to half a unit; and its profit is its shares times price less cost, to
      one unit. */
  lemma HoldingShowsProfit(r: HoldingRow, prices: map<Ticker, real>)
    ensures var price := if r.ticker in prices then prices[r.ticker] else r.holding.avgCost as real / 10000.0;
            var shares := r.holding.quantity as real / 1000000.0;
            var view := HoldingViewOf(r, prices);
            && view.row == r
            && Within(view.livePrice as real, price * 10000.0, 0.5)
            && Within(view.marketValue as real, Product(shares, price * 10000.0), 0.5)
            && Within(view.unrealizedPl as real, Product(shares, price * 10000.0 - r.holding.avgCost as real), 1.0)
  {
    var price := Mark(prices, r) * 10000.0;
    ProductDifference(r.holding.avgCost as real, price, SharesOf(r.holding));
  }

  /** An account shows its cash and market value, their sum, and the profit since it was opened, as an
      amount and in percent of the initial balance; an account opened empty shows 0 %. */
  lemma AccountShowsProfit(a: Account, marketValue: int)
    ensures var view := AccountViewOf(a, marketValue);
            && view.cash == a.cash && view.marketValue == marketValue && view.initial == a.initial
            && view.totalValue == a.cash + marketValue && view.totalPl == a.cash + marketValue - a.initial
            && (a.initial == 0 ==> view.totalPlPct == 0)
            && (a.initial != 0 ==> Within(view.totalPlPct as real, Percent(view.totalPl, a.initial), 0.5))
  {
    if a.initial != 0 {
      PercentOfSum(a.cash + marketValue, a.initial);
    }
  }

  /** A part in percent, in units of 10^-3. */
  function Percent(part: int, whole: int): real
    requires whole != 0
  {
    part as real / whole as real * 100000.0
  }

  lemma PercentOfSum(total: int, initial: int)
    requires initial != 0
    ensures (total as real / initial as real - 1.0) * 100000.0 == Percent(total - initial, initial)
  {
    var y := initial as real;
    LessOne(total as real, y, total as real / y, (total - initial) as real / y);
  }

  lemma LessOne(x: real, y: real, whole: real, part: real)
    requires y != 0.0 && whole * y == x && part * y == x - y
    ensures part == whole - 1.0
  {
    var gap := part - whole + 1.0;
    assert gap * y == 0.0;
    ZeroFactor(gap, y);
  }

  lemma ZeroFactor(x: real, y: real)
    requires y != 0.0 && x * y == 0.0
    ensures x == 0.0
  {
  }

  /** The profit shown after any run from a fresh database is the cash its fills have moved since the
      last reset plus the market value of what they left. */
  lemma ProfitIsFlowPlusHoldings(db: Db, cmds: seq<Command>, c: Currency, marketValue: int)
    requires Fresh(db) && c in db.accounts
    ensures var end := Run(db, cmds);
            && CashMatchesAudit(end) && c in end.accounts
            && AccountViewOf(end.accounts[c], marketValue).totalPl == CashFold(AuditSinceReset(end), c) + marketValue
  {
    RunKeepsCash(db, cmds);
    RunKeepsAccounts(db, cmds);
  }

  // ---- The cache as a state machine ----------------------------------------------------------

  const CACHE_TTL := 10.0

  /** What a database read returned, and when. */
  datatype Cached = Cached(accounts: map<Currency, Account>, holdings: map<Ticker, Holding>, at: real)

  datatype Service = Service(db: Db, cache: Option<Cached>, now: real)

  datatype ServiceEvent =
    | Wait(seconds: real)
    | ToolOrder(order: Order)      // an order placed through the tool
    | OtherWrite(db: Db)           // any write to the database behind the service's back
    | ResetPortfolio
    | Read(force: bool)

  function Refreshed(db: Db, cache: Option<Cached>, force: bool, now: real): Option<Cached> {
    if !force && cache.Some? && now - cache.value.at < CACHE_TTL then cache
    else Some(Cached(db.accounts, db.holdings, now))
  }

  function AfterOrder(db: Db, cache: Option<Cached>, o: Order, now: real): Option<Cached> {
    if Outcome(db, o).Filled? then Refreshed(Execute(db, o), cache, true, now) else cache
  }

  function ServiceStep(s: Service, e: ServiceEvent): Service {
    match e
    case Wait(seconds) => if seconds < 0.0 then s else s.(now := s.now + seconds)
    case ToolOrder(o) => s.(db := Execute(s.db, o), cache := AfterOrder(s.db, s.cache, o, s.now))
    case OtherWrite(db) => s.(db := db)
    case ResetPortfolio => s.(db := Reset(s.db), cache := None)
    case Read(force) => s.(cache := Refreshed(s.db, s.cache, force, s.now))
  }

  function ServiceRun(s: Service, events: seq<ServiceEvent>): Service {
    if events == [] then s else ServiceStep(ServiceRun(s, events[..|events| - 1]), events[|events| - 1])
  }

  /** The events that must be visible in the very next summary. */
  predicate OwnChange(s: Service, e: ServiceEvent) {
    e.ResetPortfolio? || (e.ToolOrder? && Outcome(s.db, e.order).Filled?)
  }

  /** The cache entry is what the database held after the first `i` events, and no order filled by
      the tool and no reset has happened since. */
  ghost predicate TakenAfter(s: Service, events: seq<ServiceEvent>, entry: Cached, i: nat)
    requires i <= |events|
  {
    var past := ServiceRun(s, events[..i]);
    && entry == Cached(past.db.accounts, past.db.holdings, past.now)
    && forall j :: i <= j < |events| ==> !OwnChange(ServiceRun(s, events[..j]), events[j])
  }

  lemma TakenStays(s: Service, events: seq<ServiceEvent>, e: ServiceEvent, entry: Cached, i: nat)
    requires i <= |events| && TakenAfter(s, events, entry, i) && !OwnChange(ServiceRun(s, events), e)
    ensures TakenAfter(s, events + [e], entry, i)
  {
    var more := events + [e];
    assert more[..i] == events[..i];
    forall j | i <= j < |more| ensures !OwnChange(ServiceRun(s, more[..j]), more[j]) {
      assert more[..j] == events[..j];
      if j == |events| { assert events[..j] == events; }
    }
  }

  lemma {:induction false} CacheComesFromThePast(s: Service, events: seq<ServiceEvent>) returns (i: nat)
    requires s.cache.None?
    ensures i <= |events|
    ensures var end := ServiceRun(s, events); end.cache.Some? ==> TakenAfter(s, events, end.cache.value, i)
  {
    i := |events|;
    if events != [] {
      var n := |events| - 1;
      var mid, e := ServiceRun(s, events[..n]), events[n];
      var k := CacheComesFromThePast(s, events[..n]);
      var end := ServiceStep(mid, e);
      assert events[..n] + [e] == events && events[..|events|] == events;
      if end.cache.Some? && end.cache != Some(Cached(end.db.accounts, end.db.holdings, end.now)) {
        assert end.cache == mid.cache && !OwnChange(mid, e);
        TakenStays(s, events[..n], e, mid.cache.value, k);
        i := k;
      }
    }
  }

  /** Every summary shows the accounts and holdings the database held at some instant less than ten
      seconds earlier, no older than the last order filled by the tool and the last reset. */
  lemma SummaryIsRecent(s: Service, events: seq<ServiceEvent>, force: bool) returns (i: nat)
    requires s.cache.None?
    ensures i <= |events|
    ensures var end := ServiceRun(s, events);
            var past := ServiceRun(s, events[..i]);
            var shown := ServiceStep(end, Read(force)).cache;
            && shown == Some(Cached(past.db.accounts, past.db.holdings, past.now))
            && 0.0 <= end.now - past.now < 10.0
            && forall j :: i <= j < |events| ==> !OwnChange(ServiceRun(s, events[..j]), events[j])
  {
    i := CacheComesFromThePast(s, events);
    var end := ServiceRun(s, events);
    assert events[..|events|] == events;
    if ServiceStep(end, Read(force)).cache == end.cache && end.cache.Some? && end.now - end.cache.value.at < CACHE_TTL {
      TimePasses(s, events, i);
    } else {
      i := |events|;
    }
  }

  /** Within ten seconds a second read shows what the first one showed, even if the database has been
      written behind the service's back; a forced read shows the new rows. */
  lemma SecondReadIsCached(s: Service, db: Db, seconds: real, force: bool)
    requires 0.0 <= seconds && (s.cache.Some? ==> s.cache.value.at <= s.now)
    ensures var first := ServiceStep(s, Read(force));
            var later := ServiceStep(ServiceStep(first, OtherWrite(db)), Wait(seconds));
            && first.cache.Some?
            && (later.now - first.cache.value.at < 10.0 ==> ServiceStep(later, Read(false)).cache == first.cache)
            && (later.now - first.cache.value.at >= 10.0 ==>
                  ServiceStep(later, Read(false)).cache == Some(Cached(db.accounts, db.holdings, later.now)))
            && ServiceStep(later, Read(true)).cache == Some(Cached(db.accounts, db.holdings, later.now))
  {
  }

  /** A rejected order leaves database and cache alone. */
  lemma RejectedOrderKeepsCache(s: Service, o: Order)
    requires Outcome(s.db, o).Rejected?
    ensures ServiceStep(s, ToolOrder(o)) == s
  {
  }

  lemma {:induction false} TimePasses(s: Service, events: seq<ServiceEvent>, i: nat)
    requires i <= |events|
    ensures ServiceRun(s, events[..i]).now <= ServiceRun(s, events).now
  {
    if i == |events| {
      assert events[..i] == events;
    } else {
      var n := |events| - 1;
      assert events[..n][..i] == events[..i];
      TimePasses(s, events[..n], i);
    }
  }

  // ---- The service itself --------------------------------------------------------------------

  const COMMISSION_RATE := 0.00025
  const SLIPPAGE := 0.001

  datatype ToolAnswer = InvalidSide | NoLivePrice | Placed(result: Result)

  datatype CacheEntry = CacheEntry(accounts: map<Currency, Account>, rows: seq<HoldingRow>, at: real)

  function Upper(s: string): string {
    seq(|s|, i requires 0 <= i < |s| => if 'a' <= s[i] <= 'z' then s[i] - 'a' + 'A' else s[i])
  }

  function SideOf(s: string): Option<Side> {
    if Upper(s) == "BUY" then Some(Buy) else if Upper(s) == "SELL" then Some(Sell) else None
  }

  /** The side is told by its letters in either case, and nothing else is a side. */
  lemma SidesExactly(s: string)
    ensures SideOf(s) == Some(Buy) <==> |s| == 3 && s[0] in "bB" && s[1] in "uU" && s[2] in "yY"
    ensures SideOf(s) == Some(Sell) <==> |s| == 4 && s[0] in "sS" && s[1] in "eE" && s[2] in "lL" && s[3] in "lL"
  {
    if |s| == 3 { assert Upper(s) == [Upper(s)[0], Upper(s)[1], Upper(s)[2]]; }
    if |s| == 4 { assert Upper(s) == [Upper(s)[0], Upper(s)[1], Upper(s)[2], Upper(s)[3]]; }
  }

  class PortfolioService {
    const broker: VirtualBroker
    var livePrices: map<Ticker, real>
    var cache: Option<CacheEntry>
    /** The cached rows as the table they list. */
    ghost var view: Option<Cached>

    ghost predicate Valid()
      reads this
    {
      && cache.Some? == view.Some?
      && (cache.Some? ==> cache.value.accounts == view.value.accounts && cache.value.at == view.value.at
                          && Lists(cache.value.rows, view.value.holdings) && Ordered(cache.value.rows))
    }

    constructor (broker: VirtualBroker)
      ensures Valid() && this.broker == broker && view.None?
    {
      this.broker := broker;
      livePrices := map[];
      cache, view := None, None;
    }

    method BuildPortfolioSummary(force: bool, now: real) returns (summary: Summary)
      requires Valid()
      modifies `cache, `view
      ensures Valid() && view == Refreshed(broker.State(), old(view), force, now)
      ensures summary.accounts.Keys == view.value.accounts.Keys
      ensures exists rows ::
                && Lists(rows, view.value.holdings) && Ordered(rows) && |summary.holdings| == |rows|
                && (forall c :: c in summary.accounts ==>
                      summary.accounts[c] == AccountViewOf(view.value.accounts[c], MarketValueIn(rows, livePrices, c)))
                && forall i :: 0 <= i < |rows| ==> summary.holdings[i] == HoldingViewOf(rows[i], livePrices)
    {
      if force || cache.None? || now - cache.value.at >= CACHE_TTL {
        var rows := broker.GetPortfolioHoldings();
        cache := Some(CacheEntry(broker.accounts, rows, now));
        view := Some(Cached(broker.accounts, broker.holdings, now));
      }
      summary := Summarize(cache.value.accounts, cache.value.rows, livePrices);
    }

    method ExecuteVirtualOrderTool(ticker: Ticker, side: string, quantity: real, now: real) returns (answer: ToolAnswer)
      requires Valid()
      modifies `cache, `view, broker`accounts, broker`holdings, broker`orders, broker`audit, broker`nextId
      ensures Valid()
      ensures SideOf(side).None? ==> answer == InvalidSide
      ensures SideOf(side).Some? && (ticker !in livePrices || livePrices[ticker] == 0.0) ==> answer == NoLivePrice
      ensures !answer.Placed? ==> broker.State() == old(broker.State()) && view == old(view)
      ensures SideOf(side).Some? && ticker in livePrices && livePrices[ticker] != 0.0 ==>
                var o := Order(ticker, SideOf(side).value, quantity, livePrices[ticker], 0.00025, 0.001);
                && answer == Placed(Outcome(old(broker.State()), o))
                && broker.State() == Execute(old(broker.State()), o)
                && view == AfterOrder(old(broker.State()), old(view), o, now)
    {
      if SideOf(side).None? { return InvalidSide; }
      if ticker !in livePrices || livePrices[ticker] == 0.0 { return NoLivePrice; }
      var result := broker.ExecuteVirtualOrder(
        Order(ticker, SideOf(side).value, quantity, livePrices[ticker], COMMISSION_RATE, SLIPPAGE));
      if result.Filled? {
        var _ := BuildPortfolioSummary(true, now);
      }
      return Placed(result);
    }

    method PortfolioReset()
      requires Valid()
      modifies `cache, `view, broker`accounts, broker`holdings, broker`orders
      ensures Valid() && view.None? && broker.State() == Reset(old(broker.State()))
    {
      broker.ResetVirtualPortfolio();
      cache, view := None, None;
    }
  }
}
