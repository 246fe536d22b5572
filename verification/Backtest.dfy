/** The vectorised SMA(5/20) crossover backtest, and the trading it stands for. */
module Backtest {
  import opened Basics
  import opened Rounding

  const SMA_FAST := 5
  const SMA_SLOW := 20

  // ---- Arithmetic ----------------------------------------------------------------------------

  function Times(x: real, y: real): real { x * y }

  function Ratio(x: real, y: real): real
    requires y > 0.0
  {
    x / y
  }

  lemma TimesAssociates(x: real, y: real, z: real)
    ensures Times(x, Times(y, z)) == Times(Times(x, y), z)
  {
  }

  lemma RatioTimes(x: real, y: real)
    requires y > 0.0
    ensures Times(Ratio(x, y), y) == x == Times(y, Ratio(x, y))
    ensures x > 0.0 ==> Ratio(x, y) > 0.0
  {
    var r := x / y;
    assert r * y == x;
  }

  lemma TimesPositive(x: real, y: real)
    requires x > 0.0 && y > 0.0
    ensures Times(x, y) > 0.0
  {
  }

  /** Scaling by y/x carries an amount from price x to price y. */
  lemma CarriedWorth(shares: real, x: real, y: real)
    requires x > 0.0
    ensures Times(Times(shares, x), Ratio(y, x)) == Times(shares, y)
  {
    RatioTimes(y, x);
    TimesAssociates(shares, x, Ratio(y, x));
  }

  lemma ChainRatio(entry: real, x: real, y: real)
    requires entry > 0.0 && x > 0.0
    ensures Times(Ratio(x, entry), Ratio(y, x)) == Ratio(y, entry)
  {
    var a, b, c := Ratio(x, entry), Ratio(y, x), Ratio(y, entry);
    RatioTimes(x, entry);
    RatioTimes(y, x);
    RatioTimes(y, entry);
    TimesAssociates(entry, a, b);
    assert Times(entry, Times(a, b)) == y;
    CancelFactor(entry, Times(a, b), c);
  }

  lemma CancelFactor(k: real, x: real, y: real)
    requires k != 0.0 && Times(k, x) == Times(k, y)
    ensures x == y
  {
  }

  // ---- Series operations ---------------------------------------------------------------------

  /** Rolling mean; None while the window is incomplete. */
  function Sma(p: seq<real>, window: nat, i: nat): Option<real>
    requires i < |p| && window > 0
  {
    if i + 1 < window then None else Some(Sum(p[i + 1 - window..i + 1]) / window as real)
  }

  /** Comparisons of undefined values are false. */
  predicate Above(a: Option<real>, b: Option<real>) { a.Some? && b.Some? && a.value > b.value }

  function Shift<T>(s: seq<T>, fill: T): (r: seq<T>)
    ensures |r| == |s|
  {
    if s == [] then [] else [fill] + s[..|s| - 1]
  }

  function ForwardFill(s: seq<Option<real>>): (r: seq<Option<real>>)
    ensures |r| == |s|
  {
    if s == [] then []
    else
      var n := |s| - 1;
      var before := ForwardFill(s[..n]);
      before + [if s[n].Some? then s[n] else if n == 0 then None else before[n - 1]]
  }

  function CumProd(s: seq<real>): (r: seq<real>)
    ensures |r| == |s|
  {
    if s == [] then []
    else
      var n := |s| - 1;
      var before := CumProd(s[..n]);
      before + [if n == 0 then s[0] else Times(before[n - 1], s[n])]
  }

  function CumMax(s: seq<real>): (r: seq<real>)
    ensures |r| == |s|
  {
    if s == [] then []
    else
      var n := |s| - 1;
      var before := CumMax(s[..n]);
      before + [if n == 0 || s[n] > before[n - 1] then s[n] else before[n - 1]]
  }

  function MinOf(s: seq<real>): real
    requires s != []
  {
    var n := |s| - 1;
    if n == 0 then s[0] else if s[n] < MinOf(s[..n]) then s[n] else MinOf(s[..n])
  }

  function CountTrue(s: seq<bool>): nat {
    if s == [] then 0 else CountTrue(s[..|s| - 1]) + if s[|s| - 1] then 1 else 0
  }

  // ---- The vectorised program ----------------------------------------------------------------

  function Bullish(p: seq<real>): (r: seq<bool>)
    ensures |r| == |p|
  {
    seq(|p|, i requires 0 <= i < |p| => Above(Sma(p, SMA_FAST, i), Sma(p, SMA_SLOW, i)))
  }

  function GoldenCross(p: seq<real>): (r: seq<bool>)
    ensures |r| == |p|
  {
    seq(|p|, i requires 0 <= i < |p| => Bullish(p)[i] && !Shift(Bullish(p), false)[i])
  }

  function DeadCross(p: seq<real>): (r: seq<bool>)
    ensures |r| == |p|
  {
    seq(|p|, i requires 0 <= i < |p| => !Bullish(p)[i] && Shift(Bullish(p), false)[i])
  }

  /** NaN, with two masked assignments: golden crosses first, dead crosses over them. */
  function Signals(p: seq<real>): (r: seq<Option<real>>)
    ensures |r| == |p|
  {
    seq(|p|, i requires 0 <= i < |p| =>
      if DeadCross(p)[i] then Some(0.0) else if GoldenCross(p)[i] then Some(1.0) else None)
  }

  function Position(p: seq<real>): (r: seq<real>)
    ensures |r| == |p|
  {
    var filled := ForwardFill(Signals(p));
    seq(|p|, i requires 0 <= i < |p| => if filled[i].Some? then filled[i].value else 0.0)
  }

  ghost predicate Positive(p: seq<real>) { forall i :: 0 <= i < |p| ==> p[i] > 0.0 }

  function DailyReturn(p: seq<real>): (r: seq<real>)
    requires Positive(p)
    ensures |r| == |p|
  {
    seq(|p|, i requires 0 <= i < |p| => if i == 0 then 0.0 else Ratio(p[i], p[i - 1]) - 1.0)
  }

  function Growth(p: seq<real>): (r: seq<real>)
    requires Positive(p)
    ensures |r| == |p|
  {
    seq(|p|, i requires 0 <= i < |p| => 1.0 + Times(DailyReturn(p)[i], Shift(Position(p), 0.0)[i]))
  }

  function EquityCurve(p: seq<real>, capital: real): (r: seq<real>)
    requires Positive(p)
    ensures |r| == |p|
  {
    seq(|p|, i requires 0 <= i < |p| => Times(capital, CumProd(Growth(p))[i]))
  }

  function Drawdown(e: seq<real>): (r: seq<real>)
    requires Positive(e)
    ensures |r| == |e|
  {
    CumMaxPositive(e);
    seq(|e|, i requires 0 <= i < |e| => Ratio(e[i] - CumMax(e)[i], CumMax(e)[i]))
  }

  datatype Report = NotEnoughRows(rows: nat) | Report(bars: nat, initialValue: real, finalValue: real,
    totalReturnPct: int, maxDrawdownPct: int, numTrades: nat, equityCurve: seq<int>)

  /** Percentages are kept in units of 10^-3 and the curve in units of 10^-4. */
  function Run(p: seq<real>, capital: real): Report
    requires Positive(p) && capital > 0.0
  {
    if |p| < SMA_SLOW then NotEnoughRows(|p|)
    else
      EquityPositive(p, capital);
      ReportOf(capital, EquityCurve(p, capital), NumTrades(p))
  }

  function ReportOf(capital: real, e: seq<real>, trades: nat): Report
    requires capital > 0.0 && e != [] && Positive(e)
  {
    Report(|e|, capital, e[|e| - 1], ReturnPct(e, capital), DrawdownPct(e), trades, RoundedCurve(e))
  }

  function NumTrades(p: seq<real>): nat { CountTrue(GoldenCross(p)) + CountTrue(DeadCross(p)) }

  ghost predicate RoundedFrom(r: int, x: real) { x - 0.5 <= r as real <= x + 0.5 }

  function Percent(x: real): (r: int)
    ensures RoundedFrom(r, x * 100.0 * 1000.0)
  {
    RoundHalfEven(x * 100.0 * 1000.0)
  }

  function ReturnPct(e: seq<real>, capital: real): int
    requires e != [] && capital > 0.0
  {
    Percent(Ratio(e[|e| - 1], capital) - 1.0)
  }

  function DrawdownPct(e: seq<real>): int
    requires e != [] && Positive(e)
  {
    Percent(MinOf(Drawdown(e)))
  }

  function RoundedCurve(e: seq<real>): seq<int> {
    seq(|e|, i requires 0 <= i < |e| => RoundHalfEven(e[i] * 10000.0))
  }

  lemma MeansCompare(fast: real, slow: real)
    ensures Ratio(fast, 5.0) > Ratio(slow, 20.0) <==> 4.0 * fast > slow
  {
  }

  /** A bar is bullish when there are twenty bars up to it and four times the sum of its last five closes
      exceeds the sum of its last twenty. */
  lemma BullishExactly(p: seq<real>, i: nat)
    requires i < |p|
    ensures Bullish(p)[i] <==> i >= 19 && 4.0 * Sum(p[i - 4..i + 1]) > Sum(p[i - 19..i + 1])
  {
    if i >= 19 {
      var fast, slow := p[i - 4..i + 1], p[i - 19..i + 1];
      assert p[i + 1 - SMA_FAST..i + 1] == fast && p[i + 1 - SMA_SLOW..i + 1] == slow;
      MeansCompare(Sum(fast), Sum(slow));
    }
  }

  // ---- Position ------------------------------------------------------------------------------

  lemma {:induction false} ForwardFillPrefix(s: seq<Option<real>>, k: nat)
    requires k <= |s|
    ensures ForwardFill(s)[..k] == ForwardFill(s[..k])
  {
    if k < |s| {
      var n := |s| - 1;
      ForwardFillPrefix(s[..n], k);
      assert s[..n][..k] == s[..k];
    } else {
      assert s[..k] == s;
    }
  }

  lemma ForwardFillAt(s: seq<Option<real>>, i: nat)
    requires i < |s|
    ensures ForwardFill(s)[i] == if s[i].Some? then s[i] else if i == 0 then None else ForwardFill(s)[i - 1]
  {
    ForwardFillPrefix(s, i + 1);
    ForwardFillPrefix(s, i);
    assert s[..i + 1][..i] == s[..i];
    assert ForwardFill(s)[i] == ForwardFill(s)[..i + 1][i];
    if i > 0 { assert ForwardFill(s)[i - 1] == ForwardFill(s)[..i][i - 1]; }
  }

  /** Holding the last signal is being bullish now: the forward-filled position is 1 exactly on the
      bars whose fast average is above the slow one. */
  lemma {:induction false} PositionIsBullish(p: seq<real>, i: nat)
    requires i < |p|
    ensures Position(p)[i] == if Bullish(p)[i] then 1.0 else 0.0
  {
    ForwardFillAt(Signals(p), i);
    if i > 0 {
      PositionIsBullish(p, i - 1);
    }
  }

  // ---- Equity --------------------------------------------------------------------------------

  lemma {:induction false} CumProdPrefix(s: seq<real>, k: nat)
    requires k <= |s|
    ensures CumProd(s)[..k] == CumProd(s[..k])
  {
    if k < |s| {
      var n := |s| - 1;
      CumProdPrefix(s[..n], k);
      assert s[..n][..k] == s[..k];
    } else {
      assert s[..k] == s;
    }
  }

  lemma CumProdAt(s: seq<real>, i: nat)
    requires i < |s|
    ensures CumProd(s)[i] == if i == 0 then s[0] else Times(CumProd(s)[i - 1], s[i])
  {
    CumProdPrefix(s, i + 1);
    CumProdPrefix(s, i);
    assert s[..i + 1][..i] == s[..i];
    assert CumProd(s)[i] == CumProd(s)[..i + 1][i];
    if i > 0 { assert CumProd(s)[i - 1] == CumProd(s)[..i][i - 1]; }
  }

  lemma CompoundStep(growth: seq<real>, capital: real, i: nat)
    requires i < |growth|
    ensures var e := CumProd(growth);
            Times(capital, e[i]) == Times(if i == 0 then capital else Times(capital, e[i - 1]), growth[i])
  {
    CumProdAt(growth, i);
    if i > 0 {
      TimesAssociates(capital, CumProd(growth)[i - 1], growth[i]);
    }
  }

  /** What a bar from the close x to the close y does to the equity. */
  function NextEquity(equity: real, invested: bool, x: real, y: real): real
    requires x > 0.0
  {
    if invested then Times(equity, Ratio(y, x)) else equity
  }

  ghost predicate FollowsAt(p: seq<real>, capital: real, e: seq<real>, i: nat)
    requires Positive(p) && |e| == |p| && i < |p|
  {
    e[i] == if i == 0 then capital else NextEquity(e[i - 1], Bullish(p)[i - 1], p[i - 1], p[i])
  }

  /** The curve starts at the capital; each bar multiplies it by the price ratio if the bar before was
      bullish, and otherwise leaves it alone. */
  lemma EquityStep(p: seq<real>, capital: real, i: nat)
    requires Positive(p) && i < |p|
    ensures FollowsAt(p, capital, EquityCurve(p, capital), i)
  {
    CompoundStep(Growth(p), capital, i);
    GrowthAt(p, i);
    TimesUnit(if i == 0 then capital else EquityCurve(p, capital)[i - 1], Growth(p)[i]);
  }

  /** A curve that starts at the capital and moves with the price on the bars after a bullish one. */
  ghost predicate FollowsPrice(p: seq<real>, capital: real, e: seq<real>)
    requires Positive(p)
  {
    |e| == |p| && forall i :: 0 <= i < |p| ==> FollowsAt(p, capital, e, i)
  }

  lemma EquityFollowsPrice(p: seq<real>, capital: real)
    requires Positive(p)
    ensures FollowsPrice(p, capital, EquityCurve(p, capital))
  {
    forall i | 0 <= i < |p| ensures FollowsAt(p, capital, EquityCurve(p, capital), i) {
      EquityStep(p, capital, i);
    }
  }

  lemma GrowthAt(p: seq<real>, i: nat)
    requires Positive(p) && i < |p|
    ensures Growth(p)[i] == if i > 0 && Bullish(p)[i - 1] then Ratio(p[i], p[i - 1]) else 1.0
  {
    var change, held := DailyReturn(p)[i], Shift(Position(p), 0.0)[i];
    assert Growth(p)[i] == 1.0 + Times(change, held);
    if i > 0 {
      PositionIsBullish(p, i - 1);
      assert held == Position(p)[i - 1];
      assert held == 1.0 || held == 0.0;
      TimesUnit(change, held);
    } else {
      TimesUnit(change, held);
    }
  }

  lemma TimesUnit(x: real, unit: real)
    ensures unit == 1.0 ==> Times(x, unit) == x
    ensures unit == 0.0 ==> Times(x, unit) == 0.0
  {
  }

  lemma {:induction false} FollowerPositive(p: seq<real>, capital: real, e: seq<real>, i: nat)
    requires Positive(p) && capital > 0.0 && i < |p| && FollowsPrice(p, capital, e)
    ensures e[i] > 0.0
  {
    assert FollowsAt(p, capital, e, i);
    if i > 0 {
      FollowerPositive(p, capital, e, i - 1);
      RatioTimes(p[i], p[i - 1]);
      TimesPositive(e[i - 1], Ratio(p[i], p[i - 1]));
    }
  }

  lemma EquityPositive(p: seq<real>, capital: real)
    requires Positive(p) && capital > 0.0
    ensures Positive(EquityCurve(p, capital))
  {
    EquityFollowsPrice(p, capital);
    forall i | 0 <= i < |p| ensures EquityCurve(p, capital)[i] > 0.0 {
      FollowerPositive(p, capital, EquityCurve(p, capital), i);
    }
  }

  // ---- The trading it stands for -------------------------------------------------------------

  datatype Book = Book(cash: real, shares: real)

  /** Buy with everything at the close of a golden cross, sell everything at the close of a dead one. */
  function Trade(b: Book, golden: bool, dead: bool, close: real): Book
    requires close > 0.0
  {
    if golden then Book(0.0, b.shares + Ratio(b.cash, close))
    else if dead then Book(b.cash + Times(b.shares, close), 0.0)
    else b
  }

  /** The book after the first n bars. */
  function Simulate(p: seq<real>, capital: real, n: nat): Book
    requires Positive(p) && n <= |p|
  {
    if n == 0 then Book(capital, 0.0)
    else Trade(Simulate(p, capital, n - 1), GoldenCross(p)[n - 1], DeadCross(p)[n - 1], p[n - 1])
  }

  function Worth(b: Book, price: real): real { b.cash + Times(b.shares, price) }

  lemma CrossAt(p: seq<real>, i: nat)
    requires i < |p|
    ensures GoldenCross(p)[i] <==> Bullish(p)[i] && !(i > 0 && Bullish(p)[i - 1])
    ensures DeadCross(p)[i] <==> !Bullish(p)[i] && i > 0 && Bullish(p)[i - 1]
  {
  }

  ghost predicate AllIn(b: Book, bullish: bool) { if bullish then b.cash == 0.0 else b.shares == 0.0 }

  /** One bar, from the close x to the close y. */
  lemma TradeKeepsWorth(b: Book, was: bool, bullish: bool, x: real, y: real)
    requires x > 0.0 && y > 0.0
    ensures var b' := Trade(b, bullish && !was, !bullish && was, y);
            AllIn(b, was) ==> AllIn(b', bullish) && Worth(b', y) == NextEquity(Worth(b, x), was, x, y)
  {
    if was {
      CarriedWorth(b.shares, x, y);
    } else {
      RatioTimes(b.cash, y);
    }
  }

  /** At every close the vectorised equity is the event-driven book marked to market; the book is all
      shares when the bar is bullish and all cash when it is not. */
  lemma VectorisedIsEventDriven(p: seq<real>, capital: real, i: nat)
    requires Positive(p) && i < |p|
    ensures var b := Simulate(p, capital, i + 1);
            EquityCurve(p, capital)[i] == Worth(b, p[i]) && AllIn(b, Bullish(p)[i])
  {
    EquityFollowsPrice(p, capital);
    FollowerIsEventDriven(p, capital, EquityCurve(p, capital), i);
  }

  lemma {:induction false} FollowerIsEventDriven(p: seq<real>, capital: real, e: seq<real>, i: nat)
    requires Positive(p) && i < |p| && FollowsPrice(p, capital, e)
    ensures var b := Simulate(p, capital, i + 1);
            e[i] == Worth(b, p[i]) && AllIn(b, Bullish(p)[i])
  {
    assert FollowsAt(p, capital, e, i);
    SimulateStep(p, capital, i);
    if i == 0 {
      TradeKeepsWorth(Simulate(p, capital, 0), false, Bullish(p)[0], p[0], p[0]);
    } else {
      FollowerIsEventDriven(p, capital, e, i - 1);
      TradeKeepsWorth(Simulate(p, capital, i), Bullish(p)[i - 1], Bullish(p)[i], p[i - 1], p[i]);
    }
  }

  lemma SimulateStep(p: seq<real>, capital: real, i: nat)
    requires Positive(p) && i < |p|
    ensures var was, now := i > 0 && Bullish(p)[i - 1], Bullish(p)[i];
            Simulate(p, capital, i + 1) == Trade(Simulate(p, capital, i), now && !was, !now && was, p[i])
  {
    CrossAt(p, i);
  }

  /** What the book is worth at every close. */
  function BookCurve(p: seq<real>, capital: real): (r: seq<real>)
    requires Positive(p)
    ensures |r| == |p|
  {
    seq(|p|, i requires 0 <= i < |p| => Worth(Simulate(p, capital, i + 1), p[i]))
  }

  lemma FollowerIsBookCurve(p: seq<real>, capital: real, e: seq<real>)
    requires Positive(p) && FollowsPrice(p, capital, e)
    ensures e == BookCurve(p, capital)
  {
    forall i | 0 <= i < |p| ensures e[i] == BookCurve(p, capital)[i] {
      FollowerIsEventDriven(p, capital, e, i);
    }
  }

  lemma CurveIsBookCurve(p: seq<real>, capital: real)
    requires Positive(p)
    ensures EquityCurve(p, capital) == BookCurve(p, capital)
  {
    EquityFollowsPrice(p, capital);
    FollowerIsBookCurve(p, capital, EquityCurve(p, capital));
  }

  /** The final value, the return and every point of the curve are those of e, to half a unit of the
      last decimal kept. */
  ghost predicate ReportsOn(r: Report, capital: real, e: seq<real>)
    requires capital > 0.0 && e != []
  {
    && r.Report? && r.bars == |e| && r.initialValue == capital && r.finalValue == e[|e| - 1]
    && RoundedFrom(r.totalReturnPct, (Ratio(r.finalValue, capital) - 1.0) * 100.0 * 1000.0)
    && |r.equityCurve| == |e| && forall i :: 0 <= i < |e| ==> RoundedFrom(r.equityCurve[i], e[i] * 10000.0)
  }

  lemma ReportOfCurve(capital: real, e: seq<real>, trades: nat)
    requires capital > 0.0 && e != [] && Positive(e)
    ensures ReportsOn(ReportOf(capital, e, trades), capital, e)
  {
  }

  /** There is a report from twenty bars on. */
  lemma TwentyBarsNeeded(p: seq<real>, capital: real)
    requires Positive(p) && capital > 0.0
    ensures Run(p, capital) == NotEnoughRows(|p|) <==> |p| < 20
  {
  }

  /** The report is about that trading: it reports on the worth of the book at every close. */
  lemma ReportDescribesTrading(p: seq<real>, capital: real)
    requires Positive(p) && capital > 0.0 && |p| >= SMA_SLOW
    ensures ReportsOn(Run(p, capital), capital, BookCurve(p, capital))
  {
    EquityPositive(p, capital);
    CurveIsBookCurve(p, capital);
    ReportOfCurve(capital, EquityCurve(p, capital), NumTrades(p));
  }

  // ---- Trades and telescoping ----------------------------------------------------------------

  /** The round trips closed so far, as (entry bar, exit bar), and the entry bar of an open one. */
  datatype Trades = Trades(closed: seq<(nat, nat)>, open: Option<nat>)

  /** The book is all shares after the first n bars. */
  predicate LongAfter(p: seq<real>, n: nat)
    requires n <= |p|
  {
    n > 0 && Bullish(p)[n - 1]
  }

  lemma LongChanges(p: seq<real>, i: nat)
    requires i < |p|
    ensures GoldenCross(p)[i] <==> LongAfter(p, i + 1) && !LongAfter(p, i)
    ensures DeadCross(p)[i] <==> !LongAfter(p, i + 1) && LongAfter(p, i)
  {
    CrossAt(p, i);
  }

  /** What bar n does to the trades: a golden cross opens one, a dead cross closes it. */
  function TradesAt(t: Trades, golden: bool, dead: bool, n: nat): (r: Trades)
    requires forall k :: 0 <= k < |t.closed| ==> t.closed[k].0 < t.closed[k].1 < n
    requires t.open.Some? ==> t.open.value < n
    requires dead ==> t.open.Some?
    ensures forall k :: 0 <= k < |r.closed| ==> r.closed[k].0 < r.closed[k].1 < n + 1
    ensures r.open.Some? ==> r.open.value < n + 1
  {
    if golden then Trades(t.closed, Some(n))
    else if dead then Trades(t.closed + [(t.open.value, n)], None)
    else t
  }

  function TradesUpTo(p: seq<real>, n: nat): (t: Trades)
    requires n <= |p|
    ensures forall k :: 0 <= k < |t.closed| ==> t.closed[k].0 < t.closed[k].1 < n
    ensures t.open.Some? ==> t.open.value < n
    ensures t.open.Some? <==> LongAfter(p, n)
  {
    if n == 0 then Trades([], None)
    else
      LongChanges(p, n - 1);
      TradesAt(TradesUpTo(p, n - 1), GoldenCross(p)[n - 1], DeadCross(p)[n - 1], n - 1)
  }

  function RatioProduct(p: seq<real>, closed: seq<(nat, nat)>): real
    requires Positive(p) && forall k :: 0 <= k < |closed| ==> closed[k].0 < |p| && closed[k].1 < |p|
  {
    if closed == [] then 1.0
    else
      var n := |closed| - 1;
      Times(RatioProduct(p, closed[..n]), Ratio(p[closed[n].1], p[closed[n].0]))
  }

  /** The value the trades made so far give the capital, at the current close. */
  function Telescoped(p: seq<real>, capital: real, t: Trades, close: real): real
    requires Positive(p) && (forall k :: 0 <= k < |t.closed| ==> t.closed[k].0 < |p| && t.closed[k].1 < |p|)
    requires t.open.Some? ==> t.open.value < |p|
  {
    var realised := Times(capital, RatioProduct(p, t.closed));
    if t.open.Some? then Times(realised, Ratio(close, p[t.open.value])) else realised
  }

  lemma ExtendOpenTrade(realised: real, entry: real, x: real, y: real)
    requires entry > 0.0 && x > 0.0
    ensures Times(Times(realised, Ratio(x, entry)), Ratio(y, x)) == Times(realised, Ratio(y, entry))
  {
    ChainRatio(entry, x, y);
    TimesAssociates(realised, Ratio(x, entry), Ratio(y, x));
  }

  lemma CloseTrade(p: seq<real>, capital: real, t: Trades, i: nat)
    requires Positive(p) && (forall k :: 0 <= k < |t.closed| ==> t.closed[k].0 < |p| && t.closed[k].1 < |p|)
    requires t.open.Some? && t.open.value < |p| && i < |p|
    ensures Telescoped(p, capital, Trades(t.closed + [(t.open.value, i)], None), p[i])
            == Telescoped(p, capital, t, p[i])
  {
    var closed := t.closed + [(t.open.value, i)];
    assert closed[..|closed| - 1] == t.closed;
    TimesAssociates(capital, RatioProduct(p, t.closed), Ratio(p[i], p[t.open.value]));
  }

  lemma RatioSelf(x: real)
    requires x > 0.0
    ensures Ratio(x, x) == 1.0
  {
  }

  /** Equity telescopes to the capital times the exit/entry ratios of the closed trades, with an open
      trade marked at the current close. */
  lemma {:induction false} EquityTelescopes(p: seq<real>, capital: real, i: nat)
    requires Positive(p) && i < |p|
    ensures EquityCurve(p, capital)[i] == Telescoped(p, capital, TradesUpTo(p, i + 1), p[i])
  {
    EquityStep(p, capital, i);
    CrossAt(p, i);
    RatioSelf(p[i]);
    var before := TradesUpTo(p, i);
    if i > 0 {
      EquityTelescopes(p, capital, i - 1);
      if before.open.Some? {
        ExtendOpenTrade(Times(capital, RatioProduct(p, before.closed)), p[before.open.value], p[i - 1], p[i]);
        CloseTrade(p, capital, before, i);
      }
    }
  }

  /** Two per closed trade and one for an open one. */
  function TradeCount(t: Trades): nat { 2 * |t.closed| + if t.open.Some? then 1 else 0 }

  lemma TradesAtCount(t: Trades, golden: bool, dead: bool, n: nat)
    requires forall k :: 0 <= k < |t.closed| ==> t.closed[k].0 < t.closed[k].1 < n
    requires t.open.Some? ==> t.open.value < n
    requires (golden ==> t.open.None?) && (dead ==> t.open.Some?)
    ensures TradeCount(TradesAt(t, golden, dead, n))
            == TradeCount(t) + (if golden then 1 else 0) + (if dead then 1 else 0)
  {
  }

  lemma CountNext(s: seq<bool>, n: nat)
    requires n < |s|
    ensures CountTrue(s[..n + 1]) == CountTrue(s[..n]) + if s[n] then 1 else 0
  {
    assert s[..n + 1][..n] == s[..n];
  }

  lemma {:induction false} TradesCounted(p: seq<real>, golden: seq<bool>, dead: seq<bool>, n: nat)
    requires n <= |p| && golden == GoldenCross(p) && dead == DeadCross(p)
    ensures CountTrue(golden[..n]) + CountTrue(dead[..n]) == TradeCount(TradesUpTo(p, n))
  {
    if n > 0 {
      TradesCounted(p, golden, dead, n - 1);
      CountNext(golden, n - 1);
      CountNext(dead, n - 1);
      LongChanges(p, n - 1);
      TradesAtCount(TradesUpTo(p, n - 1), golden[n - 1], dead[n - 1], n - 1);
    }
  }

  lemma AllTradesCounted(p: seq<real>)
    ensures NumTrades(p) == TradeCount(TradesUpTo(p, |p|))
  {
    var golden, dead := GoldenCross(p), DeadCross(p);
    TradesCounted(p, golden, dead, |p|);
    assert golden[..|p|] == golden && dead[..|p|] == dead;
  }

  /** The reported trade count is two per closed trade and one for an open one. */
  lemma TradesReported(p: seq<real>, capital: real)
    requires Positive(p) && capital > 0.0 && |p| >= SMA_SLOW
    ensures Run(p, capital).numTrades == TradeCount(TradesUpTo(p, |p|))
  {
    AllTradesCounted(p);
  }

  // ---- Drawdown ------------------------------------------------------------------------------

  lemma {:induction false} CumMaxBounds(e: seq<real>, j: nat)
    requires j < |e|
    ensures forall i :: 0 <= i <= j ==> e[i] <= CumMax(e)[j]
    ensures exists i :: 0 <= i <= j && e[i] == CumMax(e)[j]
  {
    var n := |e| - 1;
    if j < n {
      CumMaxBounds(e[..n], j);
      var i :| 0 <= i <= j && e[..n][i] == CumMax(e[..n])[j];
      assert e[i] == CumMax(e)[j];
      forall i | 0 <= i <= j ensures e[i] <= CumMax(e)[j] {
        assert e[i] == e[..n][i];
      }
    } else if n > 0 {
      CumMaxBounds(e[..n], n - 1);
      var i :| 0 <= i <= n - 1 && e[..n][i] == CumMax(e[..n])[n - 1];
      assert e[i] == CumMax(e[..n])[n - 1];
      forall i | 0 <= i < j ensures e[i] <= CumMax(e)[j] {
        assert e[i] == e[..n][i];
      }
      assert CumMax(e)[j] == e[n] || CumMax(e)[j] == e[i];
    } else {
      assert e[0] == CumMax(e)[0];
    }
  }

  lemma CumMaxPositive(e: seq<real>)
    requires Positive(e)
    ensures Positive(CumMax(e))
  {
    forall j | 0 <= j < |e| ensures CumMax(e)[j] > 0.0 {
      CumMaxBounds(e, j);
    }
  }

  /** The change from bar i to bar j, relative to bar i. */
  function Change(e: seq<real>, i: nat, j: nat): real
    requires Positive(e) && i < |e| && j < |e|
  {
    Ratio(e[j] - e[i], e[i])
  }

  lemma RatioOfChange(base: real, x: real)
    requires base > 0.0
    ensures Ratio(x - base, base) == Ratio(x, base) - 1.0
  {
    RatioTimes(x - base, base);
    RatioTimes(x, base);
    assert Times(base, Ratio(x, base) - 1.0) == Times(base, Ratio(x, base)) - base;
    CancelFactor(base, Ratio(x - base, base), Ratio(x, base) - 1.0);
  }

  /** The same amount, split over a larger base, has the smaller share. */
  lemma ShareAntitone(base: real, bigger: real, x: real, small: real, large: real)
    requires 0.0 < base <= bigger && x > 0.0
    requires small * bigger == x == large * base
    ensures 0.0 < small <= large
  {
    assert small > 0.0;
    assert small * bigger == small * base + small * (bigger - base);
    assert small * (bigger - base) >= 0.0;
    assert (large - small) * base >= 0.0;
  }

  lemma ChangeAntitone(base: real, bigger: real, x: real)
    requires 0.0 < base <= bigger && x > 0.0
    ensures -1.0 < Ratio(x - bigger, bigger) <= Ratio(x - base, base)
  {
    RatioOfChange(bigger, x);
    RatioOfChange(base, x);
    RatioTimes(x, bigger);
    RatioTimes(x, base);
    ShareAntitone(base, bigger, x, Ratio(x, bigger), Ratio(x, base));
  }

  lemma DrawdownAt(e: seq<real>, j: nat)
    requires Positive(e) && j < |e|
    ensures forall i :: 0 <= i <= j ==> Drawdown(e)[j] <= Change(e, i, j)
    ensures exists i :: 0 <= i <= j && Drawdown(e)[j] == Change(e, i, j)
    ensures -1.0 < Drawdown(e)[j] <= 0.0
  {
    CumMaxPositive(e);
    CumMaxBounds(e, j);
    var top := CumMax(e)[j];
    forall i | 0 <= i <= j ensures Drawdown(e)[j] <= Change(e, i, j) {
      ChangeAntitone(e[i], top, e[j]);
    }
    var i :| 0 <= i <= j && e[i] == top;
    assert Drawdown(e)[j] == Change(e, i, j);
    ChangeAntitone(top, top, e[j]);
    RatioOfChange(e[j], e[j]);
    RatioSelf(e[j]);
  }

  lemma {:induction false} MinOfIsLeast(s: seq<real>)
    requires s != []
    ensures MinOf(s) in s && forall i :: 0 <= i < |s| ==> MinOf(s) <= s[i]
  {
    var n := |s| - 1;
    if n > 0 {
      MinOfIsLeast(s[..n]);
      assert MinOf(s[..n]) in s;
      forall i | 0 <= i < |s| ensures MinOf(s) <= s[i] {
        if i < n { assert s[i] == s[..n][i]; }
      }
    }
  }

  /** The minimum found in one running-maximum pass is the worst change over all pairs i <= j, and a
      drawdown of a positive curve lies in (-1, 0]. */
  lemma DrawdownIsWorstPair(e: seq<real>)
    requires Positive(e) && e != []
    ensures var worst := MinOf(Drawdown(e));
            && (forall i, j :: 0 <= i <= j < |e| ==> worst <= Change(e, i, j))
            && (exists i, j :: 0 <= i <= j < |e| && worst == Change(e, i, j))
            && -1.0 < worst <= 0.0
  {
    var worst := MinOf(Drawdown(e));
    MinOfIsLeast(Drawdown(e));
    forall i, j | 0 <= i <= j < |e| ensures worst <= Change(e, i, j) {
      DrawdownAt(e, j);
    }
    var j :| 0 <= j < |e| && Drawdown(e)[j] == worst;
    DrawdownAt(e, j);
    var i :| 0 <= i <= j && Drawdown(e)[j] == Change(e, i, j);
    assert worst == Change(e, i, j);
  }

  /** From bar i to bar j the curve falls more than between any other two bars in order. */
  ghost predicate WorstFall(e: seq<real>, i: nat, j: nat)
    requires Positive(e)
  {
    i <= j < |e| && forall k, l :: 0 <= k <= l < |e| ==> Change(e, i, j) <= Change(e, k, l)
  }

  ghost predicate ReportsFall(r: Report, e: seq<real>, i: nat, j: nat)
    requires Positive(e)
  {
    r.Report? && WorstFall(e, i, j) && RoundedFrom(r.maxDrawdownPct, Change(e, i, j) * 100.0 * 1000.0)
  }

  lemma FallOfCurve(capital: real, e: seq<real>, trades: nat) returns (i: nat, j: nat)
    requires capital > 0.0 && e != [] && Positive(e)
    ensures ReportsFall(ReportOf(capital, e, trades), e, i, j)
  {
    DrawdownIsWorstPair(e);
    i, j :| 0 <= i <= j < |e| && MinOf(Drawdown(e)) == Change(e, i, j);
    assert WorstFall(e, i, j);
  }

  /** The drawdown reported for a price history is the worst fall, in percent, that the worth of the book
      takes between any two closes in order. */
  lemma DrawdownReported(p: seq<real>, capital: real)
    requires Positive(p) && capital > 0.0 && |p| >= SMA_SLOW
    ensures Positive(BookCurve(p, capital))
    ensures exists i: nat, j: nat :: ReportsFall(Run(p, capital), BookCurve(p, capital), i, j)
  {
    EquityPositive(p, capital);
    CurveIsBookCurve(p, capital);
    var i, j := FallOfCurve(capital, EquityCurve(p, capital), NumTrades(p));
    assert ReportsFall(Run(p, capital), BookCurve(p, capital), i, j);
  }

  lemma PercentMonotone(x: real, y: real)
    requires x <= y
    ensures Percent(x) <= Percent(y)
  {
    RoundHalfEvenMonotone(x * 100.0 * 1000.0, y * 100.0 * 1000.0);
  }

  /** The reported total return is never below the reported drawdown, although both are rounded. */
  lemma ReturnNotBelowDrawdown(p: seq<real>, capital: real)
    requires Positive(p) && capital > 0.0 && |p| >= SMA_SLOW
    ensures -100000 <= Run(p, capital).maxDrawdownPct <= 0
    ensures Run(p, capital).maxDrawdownPct <= Run(p, capital).totalReturnPct
  {
    EquityPositive(p, capital);
    EquityStep(p, capital, 0);
    RoundedReturnBound(EquityCurve(p, capital));
  }

  lemma RoundedReturnBound(e: seq<real>)
    requires e != [] && Positive(e)
    ensures -100000 <= DrawdownPct(e) <= 0 && DrawdownPct(e) <= ReturnPct(e, e[0])
  {
    var worst := MinOf(Drawdown(e));
    DrawdownIsWorstPair(e);
    RatioOfChange(e[0], e[|e| - 1]);
    assert worst <= Change(e, 0, |e| - 1);
    PercentMonotone(worst, Ratio(e[|e| - 1], e[0]) - 1.0);
    PercentMonotone(-1.0, worst);
    PercentMonotone(worst, 0.0);
  }

  // ---- No look-ahead -------------------------------------------------------------------------

  lemma BullishPrefix(p: seq<real>, k: nat)
    requires k <= |p|
    ensures Bullish(p[..k]) == Bullish(p)[..k]
  {
    forall i | 0 <= i < k ensures Bullish(p[..k])[i] == Bullish(p)[i] {
      if i + 1 >= SMA_FAST { assert p[..k][i + 1 - SMA_FAST..i + 1] == p[i + 1 - SMA_FAST..i + 1]; }
      if i + 1 >= SMA_SLOW { assert p[..k][i + 1 - SMA_SLOW..i + 1] == p[i + 1 - SMA_SLOW..i + 1]; }
    }
  }

  /** The curve of a prefix is a prefix of the curve. */
  lemma NoLookAhead(p: seq<real>, capital: real, k: nat)
    requires Positive(p) && k <= |p|
    ensures EquityCurve(p[..k], capital) == EquityCurve(p, capital)[..k]
  {
    EquityFollowsPrice(p, capital);
    EquityFollowsPrice(p[..k], capital);
    var part, whole := EquityCurve(p[..k], capital), EquityCurve(p, capital);
    forall i | 0 <= i < k ensures part[i] == whole[i] {
      FollowersAgree(p, capital, k, part, whole, i);
    }
  }

  lemma {:induction false} FollowersAgree(p: seq<real>, capital: real, k: nat,
                                          part: seq<real>, whole: seq<real>, i: nat)
    requires Positive(p) && i < k <= |p|
    requires FollowsPrice(p[..k], capital, part) && FollowsPrice(p, capital, whole)
    ensures part[i] == whole[i]
  {
    assert FollowsAt(p[..k], capital, part, i) && FollowsAt(p, capital, whole, i);
    if i > 0 {
      FollowersAgree(p, capital, k, part, whole, i - 1);
      BullishPrefix(p, k);
      assert Bullish(p[..k])[i - 1] == Bullish(p)[..k][i - 1];
    }
  }

  // ---- The live crossover --------------------------------------------------------------------

  /** QuantEngine looks only at the last two bars, and compares with <= and >= on the earlier one. */
  function LiveGoldenCross(p: seq<real>): bool
    requires |p| >= SMA_SLOW
  {
    var last := |p| - 1;
    && Above(Sma(p, SMA_FAST, last), Sma(p, SMA_SLOW, last))
    && NotAbove(Sma(p, SMA_FAST, last - 1), Sma(p, SMA_SLOW, last - 1))
  }

  function LiveDeadCross(p: seq<real>): bool
    requires |p| >= SMA_SLOW
  {
    var last := |p| - 1;
    && Above(Sma(p, SMA_SLOW, last), Sma(p, SMA_FAST, last))
    && NotAbove(Sma(p, SMA_SLOW, last - 1), Sma(p, SMA_FAST, last - 1))
  }

  predicate NotAbove(a: Option<real>, b: Option<real>) { a.Some? && b.Some? && a.value <= b.value }

  predicate Tie(p: seq<real>, i: nat)
    requires i < |p|
  {
    Sma(p, SMA_FAST, i) == Sma(p, SMA_SLOW, i)
  }

  /** How far four times the sum of the last five closes exceeds the sum of the last twenty. */
  function Lead(p: seq<real>, i: nat): real
    requires 19 <= i < |p|
  {
    4.0 * Sum(p[i - 4..i + 1]) - Sum(p[i - 19..i + 1])
  }

  lemma LeadCompares(p: seq<real>, i: nat)
    requires 19 <= i < |p|
    ensures Above(Sma(p, SMA_FAST, i), Sma(p, SMA_SLOW, i)) <==> Lead(p, i) > 0.0
    ensures Above(Sma(p, SMA_SLOW, i), Sma(p, SMA_FAST, i)) <==> Lead(p, i) < 0.0
    ensures NotAbove(Sma(p, SMA_FAST, i), Sma(p, SMA_SLOW, i)) <==> Lead(p, i) <= 0.0
    ensures NotAbove(Sma(p, SMA_SLOW, i), Sma(p, SMA_FAST, i)) <==> Lead(p, i) >= 0.0
  {
    var fast, slow := p[i - 4..i + 1], p[i - 19..i + 1];
    assert p[i + 1 - SMA_FAST..i + 1] == fast && p[i + 1 - SMA_SLOW..i + 1] == slow;
    MeansOrder(Sum(fast), Sum(slow));
  }

  lemma MeansOrder(fast: real, slow: real)
    ensures Ratio(fast, 5.0) > Ratio(slow, 20.0) <==> 4.0 * fast - slow > 0.0
    ensures Ratio(fast, 5.0) < Ratio(slow, 20.0) <==> 4.0 * fast - slow < 0.0
  {
  }

  /** The live crosses look at the lead of the last two bars: above after at most level is golden, below
      after at least level is dead. */
  lemma LiveCrossesExactly(p: seq<real>)
    requires |p| >= SMA_SLOW
    ensures LiveGoldenCross(p) <==> |p| > 20 && Lead(p, |p| - 1) > 0.0 && Lead(p, |p| - 2) <= 0.0
    ensures LiveDeadCross(p) <==> |p| > 20 && Lead(p, |p| - 1) < 0.0 && Lead(p, |p| - 2) >= 0.0
  {
    LeadCompares(p, |p| - 1);
    if |p| > 20 { LeadCompares(p, |p| - 2); }
  }

  /** On 21 bars or more the live golden cross is the backtest's at the last bar. */
  lemma LiveGoldenAgrees(p: seq<real>)
    requires |p| > SMA_SLOW
    ensures LiveGoldenCross(p) == GoldenCross(p)[|p| - 1]
  {
    assert Shift(Bullish(p), false)[|p| - 1] == Bullish(p)[|p| - 2];
  }

  /** The dead crosses differ exactly when the averages tie on one of the last two bars and the other
      bar is on the side that one of the two tests counts: falling onto a tie is an exit only in the
      backtest, falling off a tie is one only in the live engine. */
  lemma LiveDeadAgreesExactly(p: seq<real>)
    requires |p| > SMA_SLOW
    ensures var last := |p| - 1;
            LiveDeadCross(p) == DeadCross(p)[last]
            <==> !((Tie(p, last) && Bullish(p)[last - 1])
                   || (Tie(p, last - 1) && !Bullish(p)[last] && !Tie(p, last)))
  {
    assert Shift(Bullish(p), false)[|p| - 1] == Bullish(p)[|p| - 2];
  }

  /** With exactly 20 bars the live engine never reports a cross, but the backtest does if the first
      complete slow average lies below the fast one. */
  lemma FirstCompleteBar(p: seq<real>)
    requires |p| == SMA_SLOW
    ensures !LiveGoldenCross(p) && !LiveDeadCross(p)
    ensures GoldenCross(p)[SMA_SLOW - 1] == Above(Sma(p, SMA_FAST, SMA_SLOW - 1), Sma(p, SMA_SLOW, SMA_SLOW - 1))
  {
    assert Shift(Bullish(p), false)[|p| - 1] == Bullish(p)[|p| - 2];
  }

  // ---- Where the two rules differ ------------------------------------------------------------

  function Ones(n: nat): seq<real> { seq(n, _ => 1.0) }

  lemma {:induction false} SumOfOnes(s: seq<real>)
    requires forall i :: 0 <= i < |s| ==> s[i] == 1.0
    ensures Sum(s) == |s| as real
  {
    if s != [] {
      SumOfOnes(s[..|s| - 1]);
    }
  }

  lemma {:induction false} SumFirst(x: real, rest: seq<real>)
    ensures Sum([x] + rest) == x + Sum(rest)
  {
    if rest == [] {
      assert [x] + rest == [x] && [x][..0] == [];
    } else {
      var n := |rest| - 1;
      SumFirst(x, rest[..n]);
      assert ([x] + rest)[..|rest|] == [x] + rest[..n];
    }
  }

  lemma LowSums()
    ensures Sum(Ones(5)) == 5.0 && Sum(Ones(20)) == 20.0
    ensures Sum([0.5] + Ones(19)) == 19.5 && Sum(Ones(19) + [0.5]) == 19.5 && Sum(Ones(4) + [0.5]) == 4.5
  {
    SumOfOnes(Ones(4));
    SumOfOnes(Ones(5));
    SumOfOnes(Ones(19));
    SumOfOnes(Ones(20));
    SumFirst(0.5, Ones(19));
    assert (Ones(19) + [0.5])[..19] == Ones(19) && (Ones(4) + [0.5])[..4] == Ones(4);
  }

  lemma SmaOf(p: seq<real>, window: nat, i: nat, w: seq<real>, mean: real)
    requires 0 < window <= i + 1 <= |p| && p[i + 1 - window..i + 1] == w && Sum(w) == Times(window as real, mean)
    ensures Sma(p, window, i) == Some(mean)
  {
    RatioTimes(Sum(w), window as real);
    CancelFactor(window as real, Ratio(Sum(w), window as real), mean);
  }

  ghost predicate AveragesAt(p: seq<real>, i: nat, fast: real, slow: real)
    requires i < |p|
  {
    Sma(p, SMA_FAST, i) == Some(fast) && Sma(p, SMA_SLOW, i) == Some(slow)
  }

  /** The averages of a bar, and the side it is on. */
  lemma BarAverages(p: seq<real>, i: nat, fast: real, slow: real)
    requires 19 <= i < |p|
    requires Sum(p[i - 4..i + 1]) == 5.0 * fast && Sum(p[i - 19..i + 1]) == 20.0 * slow
    ensures AveragesAt(p, i, fast, slow)
    ensures Bullish(p)[i] <==> fast > slow
  {
    SmaOf(p, 5, i, p[i - 4..i + 1], fast);
    SmaOf(p, 20, i, p[i - 19..i + 1], slow);
  }

  lemma OntoTieBars(p: seq<real>)
    requires p == [0.5] + Ones(20)
    ensures Bullish(p)[19] && !Bullish(p)[20] && AveragesAt(p, 20, 1.0, 1.0)
  {
    LowSums();
    assert p[15..20] == Ones(5) && p[0..20] == [0.5] + Ones(19);
    BarAverages(p, 19, 1.0, 0.975);
    assert p[16..21] == Ones(5) && p[1..21] == Ones(20);
    BarAverages(p, 20, 1.0, 1.0);
  }

  lemma OffTieBars(p: seq<real>)
    requires p == Ones(20) + [0.5]
    ensures !Bullish(p)[19] && !Bullish(p)[20] && AveragesAt(p, 19, 1.0, 1.0) && AveragesAt(p, 20, 0.9, 0.975)
  {
    LowSums();
    assert p[15..20] == Ones(5) && p[0..20] == Ones(20);
    BarAverages(p, 19, 1.0, 1.0);
    assert p[16..21] == Ones(4) + [0.5] && p[1..21] == Ones(19) + [0.5];
    BarAverages(p, 20, 0.9, 0.975);
  }

  /** The exit rule sees a fall at the last bar and the live rule does not, or the other way round. */
  ghost predicate OnlyBacktestExits(p: seq<real>) {
    Positive(p) && |p| > SMA_SLOW && DeadCross(p)[|p| - 1] && !LiveDeadCross(p)
  }

  ghost predicate OnlyLiveExits(p: seq<real>) {
    Positive(p) && |p| > SMA_SLOW && !DeadCross(p)[|p| - 1] && LiveDeadCross(p)
  }

  lemma OntoTieDiffers(p: seq<real>, last: nat, x: real)
    requires SMA_SLOW <= last && |p| == last + 1 && Positive(p) && Bullish(p)[last - 1] && !Bullish(p)[last]
    requires AveragesAt(p, last, x, x)
    ensures OnlyBacktestExits(p)
  {
  }

  lemma OffTieDiffers(p: seq<real>, last: nat, x: real, fast: real, slow: real)
    requires SMA_SLOW <= last && |p| == last + 1 && Positive(p) && !Bullish(p)[last - 1] && !Bullish(p)[last]
    requires AveragesAt(p, last - 1, x, x) && AveragesAt(p, last, fast, slow) && fast < slow
    ensures OnlyLiveExits(p)
  {
  }

  /** Falling onto a tie: the slow window drops its one low price on the last bar. */
  lemma FallOntoTie()
    ensures OnlyBacktestExits([0.5] + Ones(20))
  {
    var p := [0.5] + Ones(20);
    OntoTieBars(p);
    OntoTieDiffers(p, 20, 1.0);
  }

  /** Falling off a tie: a flat series ends on a low price. */
  lemma FallOffTie()
    ensures OnlyLiveExits(Ones(20) + [0.5])
  {
    var p := Ones(20) + [0.5];
    OffTieBars(p);
    OffTieDiffers(p, 20, 1.0, 0.9, 0.975);
  }

  /** With 20 bars the backtest can report a cross that the live engine does not. */
  lemma FirstBarCross(p: seq<real>)
    requires p == [0.5] + Ones(19)
    ensures Positive(p) && |p| == SMA_SLOW && GoldenCross(p)[|p| - 1] && !LiveGoldenCross(p)
  {
    LowSums();
    assert p[15..20] == Ones(5) && p[0..20] == p;
    BarAverages(p, 19, 1.0, 0.975);
    FirstCompleteBar(p);
  }
}
