/** Sector allocation of the virtual holdings by cost basis, with a concentration index. */
module Allocation {
  import opened Basics
  import opened Rounding
  import opened Broker
  import opened BrokerLedger
  import opened BrokerStore

  const SECTORS: map<Ticker, string> := map[
    "AAPL" := "Technology", "MSFT" := "Technology", "TSLA" := "Consumer Discretionary",
    "005930" := "Technology", "000660" := "Technology", "035420" := "Communication Services",
    "051910" := "Materials", "006400" := "Materials", "122630" := "Leveraged ETF",
    "005380" := "Consumer Discretionary", "207940" := "Healthcare", "005490" := "Materials",
    "105560" := "Financials", "QQQ" := "Technology ETF", "BND" := "Fixed Income ETF", "GLD" := "Commodity ETF"]

  function SectorOf(t: Ticker): string { if t in SECTORS then SECTORS[t] else "Other" }

  /** Named tickers have their sector; any other falls under "Other". */
  lemma SectorsTold(t: Ticker)
    ensures SectorOf("AAPL") == "Technology" && SectorOf("GLD") == "Commodity ETF" && SectorOf("") == "Other"
    ensures SectorOf(t) != "Other" ==> t in SECTORS.Keys && SectorOf(t) == SECTORS[t]
  {
  }

  function CostBasis(r: HoldingRow): real {
    Product(r.holding.quantity as real / 1000000.0, r.holding.avgCost as real / 10000.0)
  }

  /** One entry of the dictionaries keyed by sector, kept in insertion order. */
  datatype Group = Group(sector: string, tickers: seq<Ticker>, value: real, currency: Currency)

  datatype Item = Item(sector: string, tickers: seq<Ticker>, weightPct: int, value: int, currency: Currency)

  datatype Warning = NoWarning | NoHoldings | Concentrated(sector: string, weightPct: int)

  /** Weights in units of 0.1 %, the index in units of 10^-4, values in whole units. */
  datatype Report = Report(sectors: seq<Item>, warning: Warning, topSector: Option<string>, hhi: int, totalValue: int)

  // ---- What the report is about --------------------------------------------------------------

  function TotalCost(rows: seq<HoldingRow>): real {
    if rows == [] then 0.0 else TotalCost(rows[..|rows| - 1]) + CostBasis(rows[|rows| - 1])
  }

  function SectorCost(rows: seq<HoldingRow>, s: string): real {
    if rows == [] then 0.0
    else
      var r := rows[|rows| - 1];
      SectorCost(rows[..|rows| - 1], s) + if SectorOf(r.ticker) == s then CostBasis(r) else 0.0
  }

  function SectorTickers(rows: seq<HoldingRow>, s: string): seq<Ticker> {
    if rows == [] then []
    else
      var r := rows[|rows| - 1];
      SectorTickers(rows[..|rows| - 1], s) + if SectorOf(r.ticker) == s then [r.ticker] else []
  }

  /** The currency of the sector's last row. */
  function SectorCurrency(rows: seq<HoldingRow>, s: string): Option<Currency> {
    if rows == [] then None
    else
      var r := rows[|rows| - 1];
      if SectorOf(r.ticker) == s then Some(r.holding.currency) else SectorCurrency(rows[..|rows| - 1], s)
  }

  ghost predicate DistinctSectors(groups: seq<Group>) {
    forall i, j :: 0 <= i < j < |groups| ==> groups[i].sector != groups[j].sector
  }

  /** The group holds the tickers, the cost and the currency of its sector, which has a row. */
  ghost predicate Gathers(g: Group, rows: seq<HoldingRow>) {
    && g.value == SectorCost(rows, g.sector)
    && g.tickers == SectorTickers(rows, g.sector) && g.tickers != []
    && SectorCurrency(rows, g.sector) == Some(g.currency)
  }

  ghost predicate HasSector(groups: seq<Group>, s: string) { exists g :: g in groups && g.sector == s }

  /** The groups are the sectors of the rows, each once, with their tickers, cost and currency. */
  ghost predicate Groups(groups: seq<Group>, rows: seq<HoldingRow>) {
    && DistinctSectors(groups)
    && (forall g :: g in groups ==> Gathers(g, rows))
    && (forall r :: r in rows ==> HasSector(groups, SectorOf(r.ticker)))
  }

  function SumSquares(v: seq<real>): real {
    if v == [] then 0.0 else SumSquares(v[..|v| - 1]) + Product(v[|v| - 1], v[|v| - 1])
  }

  function Values(groups: seq<Group>): (v: seq<real>)
    ensures |v| == |groups|
  {
    seq(|groups|, i requires 0 <= i < |groups| => groups[i].value)
  }

  function Share(x: real, total: real): real
    requires total != 0.0
  {
    x / total
  }

  function Weights(v: seq<real>, total: real): (w: seq<real>)
    requires total != 0.0
    ensures |w| == |v|
  {
    seq(|v|, i requires 0 <= i < |v| => Share(v[i], total))
  }

  lemma ScaledProduct(q: real, cost: real)
    ensures Product(q, cost * 10000.0) == 10000.0 * Product(q, cost)
  {
  }

  /** Without any live price the two currencies' holdings values add up to the total cost. */
  lemma {:induction false} UnpricedRowsWorthCost(rows: seq<HoldingRow>)
    ensures HoldingsValue(rows, map[], KRW) + HoldingsValue(rows, map[], USD) == 10000.0 * TotalCost(rows)
  {
    if rows != [] {
      var r := rows[|rows| - 1];
      UnpricedRowsWorthCost(rows[..|rows| - 1]);
      ScaledProduct(r.holding.quantity as real / 1000000.0, r.holding.avgCost as real / 10000.0);
    }
  }

  // ---- Grouping ------------------------------------------------------------------------------

  function IndexOf(groups: seq<Group>, s: string): (i: nat)
    ensures i <= |groups|
    ensures i < |groups| ==> groups[i].sector == s
    ensures i == |groups| ==> forall k :: 0 <= k < |groups| ==> groups[k].sector != s
  {
    if groups == [] then 0
    else
      var n := |groups| - 1;
      var i := IndexOf(groups[..n], s);
      if i < n then i else if groups[n].sector == s then n else |groups|
  }

  lemma {:induction false} AbsentSector(rows: seq<HoldingRow>, s: string)
    requires forall r :: r in rows ==> SectorOf(r.ticker) != s
    ensures SectorCost(rows, s) == 0.0 && SectorTickers(rows, s) == []
  {
    if rows != [] {
      assert rows[|rows| - 1] in rows;
      AbsentSector(rows[..|rows| - 1], s);
    }
  }

  /** setdefault(...).append, get(...) + value, and the last currency wins. */
  function Added(groups: seq<Group>, r: HoldingRow): seq<Group> {
    var s := SectorOf(r.ticker);
    var i := IndexOf(groups, s);
    if i < |groups| then
      groups[i := Group(s, groups[i].tickers + [r.ticker], groups[i].value + CostBasis(r), r.holding.currency)]
    else
      groups + [Group(s, [r.ticker], 0.0 + CostBasis(r), r.holding.currency)]
  }

  lemma OtherStillGathers(g: Group, rows: seq<HoldingRow>, r: HoldingRow)
    requires Gathers(g, rows) && g.sector != SectorOf(r.ticker)
    ensures Gathers(g, rows + [r])
  {
    assert (rows + [r])[..|rows|] == rows;
  }

  lemma SameGathersMore(g: Group, rows: seq<HoldingRow>, r: HoldingRow)
    requires Gathers(g, rows) && g.sector == SectorOf(r.ticker)
    ensures Gathers(Group(g.sector, g.tickers + [r.ticker], g.value + CostBasis(r), r.holding.currency), rows + [r])
  {
    assert (rows + [r])[..|rows|] == rows;
  }

  lemma FirstGathers(rows: seq<HoldingRow>, r: HoldingRow)
    requires SectorCost(rows, SectorOf(r.ticker)) == 0.0 && SectorTickers(rows, SectorOf(r.ticker)) == []
    ensures Gathers(Group(SectorOf(r.ticker), [r.ticker], 0.0 + CostBasis(r), r.holding.currency), rows + [r])
  {
    assert (rows + [r])[..|rows|] == rows;
  }

  lemma NewSectorAbsent(groups: seq<Group>, rows: seq<HoldingRow>, s: string)
    requires Groups(groups, rows) && IndexOf(groups, s) == |groups|
    ensures SectorCost(rows, s) == 0.0 && SectorTickers(rows, s) == []
  {
    forall x | x in rows ensures SectorOf(x.ticker) != s {
      assert HasSector(groups, SectorOf(x.ticker));
    }
    AbsentSector(rows, s);
  }

  lemma AddedGathers(groups: seq<Group>, rows: seq<HoldingRow>, r: HoldingRow, g: Group)
    requires Groups(groups, rows) && g in Added(groups, r)
    ensures Gathers(g, rows + [r])
  {
    var i := IndexOf(groups, SectorOf(r.ticker));
    if g.sector != SectorOf(r.ticker) {
      assert g in groups;
      OtherStillGathers(g, rows, r);
    } else if i < |groups| {
      assert groups[i] in groups;
      SameGathersMore(groups[i], rows, r);
    } else {
      NewSectorAbsent(groups, rows, SectorOf(r.ticker));
      FirstGathers(rows, r);
    }
  }

  lemma AddedKeepsSectors(groups: seq<Group>, r: HoldingRow, s: string)
    requires HasSector(groups, s)
    ensures HasSector(Added(groups, r), s)
  {
    var g :| g in groups && g.sector == s;
    var k :| 0 <= k < |groups| && groups[k] == g;
    assert Added(groups, r)[k] in Added(groups, r) && Added(groups, r)[k].sector == s;
  }

  lemma AddedKeepsGroups(groups: seq<Group>, rows: seq<HoldingRow>, r: HoldingRow)
    requires Groups(groups, rows)
    ensures Groups(Added(groups, r), rows + [r])
  {
    var more := Added(groups, r);
    forall g | g in more ensures Gathers(g, rows + [r]) {
      AddedGathers(groups, rows, r, g);
    }
    forall x | x in rows + [r] ensures HasSector(more, SectorOf(x.ticker)) {
      if x in rows {
        AddedKeepsSectors(groups, r, SectorOf(x.ticker));
      } else {
        assert more[IndexOf(groups, SectorOf(r.ticker))] in more;
      }
    }
  }

  lemma AddedSum(groups: seq<Group>, r: HoldingRow)
    ensures Sum(Values(Added(groups, r))) == Sum(Values(groups)) + CostBasis(r)
  {
    var i := IndexOf(groups, SectorOf(r.ticker));
    var more := Added(groups, r);
    if i < |groups| {
      SumUpdated(Values(groups), i, CostBasis(r));
      assert Values(more) == Values(groups)[i := groups[i].value + CostBasis(r)];
    } else {
      assert Values(more)[..|groups|] == Values(groups);
    }
  }

  lemma {:induction false} SumUpdated(v: seq<real>, i: nat, x: real)
    requires i < |v|
    ensures Sum(v[i := v[i] + x]) == Sum(v) + x
  {
    var n := |v| - 1;
    if i < n {
      SumUpdated(v[..n], i, x);
      assert v[i := v[i] + x][..n] == v[..n][i := v[i] + x];
    } else {
      assert v[i := v[i] + x][..n] == v[..n];
    }
  }

  // ---- sorted(..., key=lambda x: -x[1]) ------------------------------------------------------

  function Insert(g: Group, sorted: seq<Group>): seq<Group> {
    if sorted == [] || g.value > sorted[|sorted| - 1].value then
      if sorted == [] then [g] else Insert(g, sorted[..|sorted| - 1]) + [sorted[|sorted| - 1]]
    else sorted + [g]
  }

  /** Stable, largest value first. */
  function SortByValue(groups: seq<Group>): seq<Group> {
    if groups == [] then [] else Insert(groups[|groups| - 1], SortByValue(groups[..|groups| - 1]))
  }

  ghost predicate Descending(groups: seq<Group>) {
    forall i, j :: 0 <= i < j < |groups| ==> groups[i].value >= groups[j].value
  }

  lemma {:induction false} InsertMembers(g: Group, sorted: seq<Group>, x: Group)
    ensures x in Insert(g, sorted) <==> x == g || x in sorted
  {
    if sorted != [] && g.value > sorted[|sorted| - 1].value {
      InsertMembers(g, sorted[..|sorted| - 1], x);
      assert sorted == sorted[..|sorted| - 1] + [sorted[|sorted| - 1]];
    }
  }

  lemma {:induction false} InsertSorts(g: Group, sorted: seq<Group>)
    requires Descending(sorted)
    ensures Descending(Insert(g, sorted))
  {
    if sorted != [] && g.value > sorted[|sorted| - 1].value {
      var n := |sorted| - 1;
      InsertSorts(g, sorted[..n]);
      var front := Insert(g, sorted[..n]);
      forall i | 0 <= i < |front| ensures front[i].value >= sorted[n].value {
        InsertMembers(g, sorted[..n], front[i]);
      }
    }
  }

  lemma {:induction false} InsertDistinct(g: Group, sorted: seq<Group>)
    requires DistinctSectors(sorted) && !HasSector(sorted, g.sector)
    ensures DistinctSectors(Insert(g, sorted))
  {
    forall x | x in sorted ensures x.sector != g.sector {}
    if sorted != [] && g.value > sorted[|sorted| - 1].value {
      var n := |sorted| - 1;
      InsertDistinct(g, sorted[..n]);
      var front := Insert(g, sorted[..n]);
      forall i | 0 <= i < |front| ensures front[i].sector != sorted[n].sector {
        InsertMembers(g, sorted[..n], front[i]);
        assert sorted[n] in sorted;
      }
    }
  }

  lemma SumAppended(groups: seq<Group>, g: Group)
    ensures Sum(Values(groups + [g])) == Sum(Values(groups)) + g.value
  {
    assert Values(groups + [g])[..|groups|] == Values(groups);
  }

  lemma {:induction false} InsertSum(g: Group, sorted: seq<Group>)
    ensures Sum(Values(Insert(g, sorted))) == Sum(Values(sorted)) + g.value
  {
    if sorted != [] && g.value > sorted[|sorted| - 1].value {
      var front, last := sorted[..|sorted| - 1], sorted[|sorted| - 1];
      InsertSum(g, front);
      SumAppended(Insert(g, front), last);
      SumAppended(front, last);
      assert sorted == front + [last];
    } else {
      SumAppended(sorted, g);
      assert sorted == [] ==> sorted + [g] == [g];
    }
  }

  lemma {:induction false} SortMembers(groups: seq<Group>, x: Group)
    ensures x in SortByValue(groups) <==> x in groups
  {
    if groups != [] {
      var n := |groups| - 1;
      SortMembers(groups[..n], x);
      InsertMembers(groups[n], SortByValue(groups[..n]), x);
      assert groups == groups[..n] + [groups[n]];
    }
  }

  lemma {:induction false} SortSorts(groups: seq<Group>)
    ensures Descending(SortByValue(groups))
  {
    if groups != [] {
      var n := |groups| - 1;
      SortSorts(groups[..n]);
      InsertSorts(groups[n], SortByValue(groups[..n]));
    }
  }

  lemma {:induction false} SortSum(groups: seq<Group>)
    ensures Sum(Values(SortByValue(groups))) == Sum(Values(groups))
  {
    if groups != [] {
      var n := |groups| - 1;
      SortSum(groups[..n]);
      InsertSum(groups[n], SortByValue(groups[..n]));
      assert Values(groups)[..n] == Values(groups[..n]);
    }
  }

  lemma {:induction false} SortDistinct(groups: seq<Group>)
    requires DistinctSectors(groups)
    ensures DistinctSectors(SortByValue(groups))
  {
    if groups != [] {
      var n := |groups| - 1;
      var sorted := SortByValue(groups[..n]);
      SortDistinct(groups[..n]);
      forall x | x in sorted ensures x.sector != groups[n].sector {
        SortMembers(groups[..n], x);
        var i :| 0 <= i < n && groups[..n][i] == x;
        assert groups[i].sector != groups[n].sector;
      }
      InsertDistinct(groups[n], sorted);
    }
  }

  lemma SortKeepsGroups(groups: seq<Group>, rows: seq<HoldingRow>)
    requires Groups(groups, rows)
    ensures Groups(SortByValue(groups), rows)
  {
    SortDistinct(groups);
    forall g | g in SortByValue(groups) ensures Gathers(g, rows) {
      SortMembers(groups, g);
    }
    forall r | r in rows ensures HasSector(SortByValue(groups), SectorOf(r.ticker)) {
      assert HasSector(groups, SectorOf(r.ticker));
      var g :| g in groups && g.sector == SectorOf(r.ticker);
      SortMembers(groups, g);
    }
  }

  // ---- The concentration index ---------------------------------------------------------------

  lemma {:induction false} WeightsSum(v: seq<real>, total: real)
    requires total != 0.0
    ensures Sum(Weights(v, total)) == Share(Sum(v), total)
  {
    if v != [] {
      var n := |v| - 1;
      WeightsSum(v[..n], total);
      assert Weights(v, total)[..n] == Weights(v[..n], total);
      AddOver(Sum(v[..n]), v[n], total);
    }
  }

  lemma AddOver(x: real, y: real, total: real)
    requires total != 0.0
    ensures Share(x, total) + Share(y, total) == Share(x + y, total)
  {
  }

  /** Cauchy-Schwarz against the all-ones vector, and the other side for non-negative weights. */
  lemma {:induction false} SquaresBounds(w: seq<real>)
    ensures Product(Sum(w), Sum(w)) <= Product(|w| as real, SumSquares(w))
    ensures SumSquares(w) >= 0.0
    ensures (forall i :: 0 <= i < |w| ==> w[i] >= 0.0) ==> Sum(w) >= 0.0 && SumSquares(w) <= Product(Sum(w), Sum(w))
  {
    if w != [] {
      var n := |w| - 1;
      SquaresBounds(w[..n]);
      SquareStep(n, Sum(w[..n]), SumSquares(w[..n]), w[n]);
      if forall i :: 0 <= i < |w| ==> w[i] >= 0.0 {
        ProductNonNegative(Sum(w[..n]), w[n]);
        SquareOfSum(Sum(w[..n]), w[n]);
      }
    }
  }

  lemma SquareOfSum(s: real, x: real)
    ensures Product(s + x, s + x) == Product(s, s) + 2.0 * Product(s, x) + Product(x, x)
  {
  }

  lemma SquareStep(n: nat, s: real, q: real, x: real)
    requires Product(s, s) <= Product(n as real, q) && q >= 0.0 && (n == 0 ==> s == 0.0 && q == 0.0)
    ensures Product(s + x, s + x) <= Product((n + 1) as real, q + Product(x, x))
    ensures q + Product(x, x) >= 0.0
  {
    var k := n as real;
    SquareOfSum(s, x);
    assert Product(x, x) >= 0.0;
    assert Product(k + 1.0, q + Product(x, x)) == Product(k, q) + k * x * x + q + x * x;
    if n > 0 {
      CrossTerm(k, s, q, x);
    }
  }

  lemma FactorNonNegative(k: real, x: real)
    requires k > 0.0 && k * x >= 0.0
    ensures x >= 0.0
  {
  }

  /** 2sx <= q + kx^2 whenever s^2 <= kq: multiply by k and complete the square. */
  lemma CrossTerm(k: real, s: real, q: real, x: real)
    requires k > 0.0 && Product(s, s) <= Product(k, q)
    ensures 2.0 * Product(s, x) <= q + k * x * x
  {
    var gap := q + k * x * x - 2.0 * s * x;
    var root := s - k * x;
    assert root * root >= 0.0;
    assert k * gap == k * q - s * s + root * root;
    FactorNonNegative(k, gap);
  }

  /** For k sectors with non-negative values and a positive total, 1/k <= HHI <= 1. */
  lemma IndexBounds(v: seq<real>, total: real)
    requires total > 0.0 && Sum(v) == total && forall i :: 0 <= i < |v| ==> v[i] >= 0.0
    ensures |v| > 0 && 1.0 / |v| as real <= SumSquares(Weights(v, total)) <= 1.0
  {
    var w := Weights(v, total);
    WeightsSum(v, total);
    WholeShare(total);
    forall i | 0 <= i < |w| ensures w[i] >= 0.0 { ShareNonNegative(v[i], total); }
    SquaresBounds(w);
    InverseBound(|v| as real, SumSquares(w));
  }

  lemma WholeShare(total: real)
    requires total > 0.0
    ensures Share(total, total) == 1.0
  {
  }

  lemma ShareNonNegative(x: real, total: real)
    requires total > 0.0 && x >= 0.0
    ensures Share(x, total) >= 0.0
  {
  }

  lemma InverseBound(k: real, q: real)
    requires k > 0.0 && 1.0 <= Product(k, q)
    ensures 1.0 / k <= q
  {
    var r := 1.0 / k;
    assert k * r == 1.0;
    if q < r { assert k * q < k * r; }
  }

  // ---- The report ----------------------------------------------------------------------------

  function ItemOf(g: Group, total: real): Item
    requires total != 0.0
  {
    Item(g.sector, g.tickers, RoundHalfEven(Share(g.value, total) * 100.0 * 10.0), RoundHalfEven(g.value), g.currency)
  }

  /** The report is built from one grouping of the rows, listed from the largest value down: the group
      values add up to the total cost, the first sector is a largest one, and the index is the rounded
      sum of the squared weights. */
  ghost predicate Describes(a: Report, rows: seq<HoldingRow>, sorted: seq<Group>)
    requires TotalCost(rows) != 0.0
  {
    var total := TotalCost(rows);
    && Groups(sorted, rows) && Descending(sorted) && sorted != []
    && Sum(Values(sorted)) == total
    && |a.sectors| == |sorted| && (forall i :: 0 <= i < |sorted| ==> a.sectors[i] == ItemOf(sorted[i], total))
    && a.topSector == Some(sorted[0].sector)
    && a.hhi == RoundHalfEven(SumSquares(Weights(Values(sorted), total)) * 10000.0)
    && a.totalValue == RoundHalfEven(total)
    && a.warning == if a.sectors[0].weightPct > 400
                    then Concentrated(sorted[0].sector, a.sectors[0].weightPct) else NoWarning
  }

  lemma SomeGroup(groups: seq<Group>, rows: seq<HoldingRow>)
    requires Groups(groups, rows) && rows != []
    ensures groups != []
  {
    assert rows[0] in rows;
    assert HasSector(groups, SectorOf(rows[0].ticker));
  }

  method ListItems(sorted: seq<Group>, total: real)
    returns (items: seq<Item>, hhi: real, top: Option<string>, topWeight: int)
    requires total != 0.0 && sorted != []
    ensures |items| == |sorted| && forall k :: 0 <= k < |sorted| ==> items[k] == ItemOf(sorted[k], total)
    ensures hhi == SumSquares(Weights(Values(sorted), total))
    ensures top == Some(sorted[0].sector) && topWeight == items[0].weightPct
  {
    ghost var weights := Weights(Values(sorted), total);
    items, hhi, top, topWeight := [], 0.0, None, 0;
    for i := 0 to |sorted|
      invariant |items| == i && forall k :: 0 <= k < i ==> items[k] == ItemOf(sorted[k], total)
      invariant hhi == SumSquares(weights[..i])
      invariant if i == 0 then top == None else top == Some(sorted[0].sector) && topWeight == items[0].weightPct
    {
      assert weights[..i + 1][..i] == weights[..i];
      var w := Share(sorted[i].value, total);
      hhi := hhi + Product(w, w);
      var item := ItemOf(sorted[i], total);
      if top == None {
        top, topWeight := Some(sorted[i].sector), item.weightPct;
      }
      items := items + [item];
    }
    assert weights[..|sorted|] == weights;
  }

  method FetchAllocation(rows: seq<HoldingRow>) returns (a: Report)
    ensures rows == [] ==> a == Report([], NoHoldings, None, 0, 0)
    ensures rows != [] && TotalCost(rows) == 0.0 ==> a == Report([], NoWarning, None, 0, 0)
    ensures rows != [] && TotalCost(rows) != 0.0 ==> exists sorted :: Describes(a, rows, sorted)
  {
    if rows == [] {
      return Report([], NoHoldings, None, 0, 0);
    }
    var groups := GroupRows(rows);
    var total := Sum(Values(groups));
    if total == 0.0 {
      return Report([], NoWarning, None, 0, 0);
    }
    var sorted := SortByValue(groups);
    SortSorts(groups);
    SortSum(groups);
    SortKeepsGroups(groups, rows);
    SomeGroup(sorted, rows);
    var items, hhi, top, topWeight := ListItems(sorted, total);
    var warning := if topWeight > 400 then Concentrated(top.value, topWeight) else NoWarning;
    a := Report(items, warning, top, RoundHalfEven(hhi * 10000.0), RoundHalfEven(total));
    assert Describes(a, rows, sorted);
  }

  method GroupRows(rows: seq<HoldingRow>) returns (groups: seq<Group>)
    ensures Groups(groups, rows) && Sum(Values(groups)) == TotalCost(rows)
  {
    groups := [];
    for i := 0 to |rows|
      invariant Groups(groups, rows[..i]) && Sum(Values(groups)) == TotalCost(rows[..i])
    {
      assert rows[..i + 1] == rows[..i] + [rows[i]] && rows[..i + 1][..i] == rows[..i];
      AddedKeepsGroups(groups, rows[..i], rows[i]);
      AddedSum(groups, rows[i]);
      groups := Added(groups, rows[i]);
    }
    assert rows[..|rows|] == rows;
  }

  lemma {:induction false} SectorCostNonNegative(rows: seq<HoldingRow>, s: string)
    requires forall r :: r in rows ==> r.holding.avgCost >= 0
    ensures SectorCost(rows, s) >= 0.0
  {
    if rows != [] {
      var n := |rows| - 1;
      assert rows[n] in rows;
      SectorCostNonNegative(rows[..n], s);
      ProductNonNegative(rows[n].holding.quantity as real / 1000000.0, rows[n].holding.avgCost as real / 10000.0);
    }
  }

  lemma GroupValuesNonNegative(sorted: seq<Group>, rows: seq<HoldingRow>)
    requires Groups(sorted, rows) && forall r :: r in rows ==> r.holding.avgCost >= 0
    ensures forall i :: 0 <= i < |sorted| ==> Values(sorted)[i] >= 0.0
  {
    forall i | 0 <= i < |sorted| ensures Values(sorted)[i] >= 0.0 {
      assert sorted[i] in sorted && Gathers(sorted[i], rows);
      SectorCostNonNegative(rows, sorted[i].sector);
    }
  }

  lemma RoundedIndexInRange(index: real)
    requires 0.0 <= index <= 1.0
    ensures 0 <= RoundHalfEven(index * 10000.0) <= 10000
  {
    RoundHalfEvenMonotone(0.0, index * 10000.0);
    RoundHalfEvenMonotone(index * 10000.0, 10000.0);
    RoundGridPoint(0);
    RoundGridPoint(10000);
  }

  /** Whatever report describes holdings with non-negative costs: with k sectors the index before
      rounding lies in [1/k, 1], and rounded it lies in [0, 1], as the response model demands. */
  lemma IndexInRange(a: Report, rows: seq<HoldingRow>, sorted: seq<Group>)
    requires TotalCost(rows) > 0.0 && Describes(a, rows, sorted)
    requires forall r :: r in rows ==> r.holding.avgCost >= 0
    ensures 1.0 / |sorted| as real <= SumSquares(Weights(Values(sorted), TotalCost(rows))) <= 1.0
    ensures 0 <= a.hhi <= 10000
  {
    GroupValuesNonNegative(sorted, rows);
    IndexBounds(Values(sorted), TotalCost(rows));
    SquaresBounds(Weights(Values(sorted), TotalCost(rows)));
    RoundedIndexInRange(SumSquares(Weights(Values(sorted), TotalCost(rows))));
  }

  /** No sector of the holdings outweighs the first one listed. */
  lemma TopSectorIsLargest(a: Report, rows: seq<HoldingRow>, sorted: seq<Group>, r: HoldingRow)
    requires TotalCost(rows) != 0.0 && Describes(a, rows, sorted) && r in rows
    ensures SectorCost(rows, SectorOf(r.ticker)) <= SectorCost(rows, a.topSector.value)
  {
    assert HasSector(sorted, SectorOf(r.ticker));
    var g :| g in sorted && g.sector == SectorOf(r.ticker);
    assert Gathers(g, rows) && Gathers(sorted[0], rows);
  }

  // ---- What the figures say ------------------------------------------------------------------

  lemma ShareTimes(x: real, total: real)
    requires total > 0.0
    ensures Product(Share(x, total), total) == x
  {
    var q := x / total;
    assert q * total == x;
  }

  /** An item names its sector, tickers and currency, its value to half a unit, and its share of the total
      in percent to half of the last decimal. */
  ghost predicate Describe(item: Item, g: Group, total: real) {
    && item.sector == g.sector && item.tickers == g.tickers && item.currency == g.currency
    && g.value - 0.5 <= item.value as real <= g.value + 0.5
    && -0.5 * total <= Product(item.weightPct as real, total) - 1000.0 * g.value <= 0.5 * total
  }

  lemma ItemDescribes(g: Group, total: real)
    requires total > 0.0
    ensures Describe(ItemOf(g, total), g, total)
  {
    var share, pct := Share(g.value, total), ItemOf(g, total).weightPct as real;
    ShareTimes(g.value, total);
    RoundedTimes(share * 1000.0, pct, total);
    ThousandFold(share, total);
  }

  lemma ThousandFold(x: real, y: real)
    ensures Product(x * 1000.0, y) == 1000.0 * Product(x, y)
  {
  }

  lemma RoundedTimes(x: real, rounded: real, total: real)
    requires total > 0.0 && x - 0.5 <= rounded <= x + 0.5
    ensures -0.5 * total <= Product(rounded, total) - Product(x, total) <= 0.5 * total
  {
    ProductNonNegative(rounded - x + 0.5, total);
    ProductNonNegative(x + 0.5 - rounded, total);
  }

  /** The items of a report describe its groups, and its total the cost of all rows. */
  lemma ReportDescribesGroups(a: Report, rows: seq<HoldingRow>, sorted: seq<Group>)
    requires TotalCost(rows) > 0.0 && Describes(a, rows, sorted)
    ensures |a.sectors| == |sorted|
    ensures forall i :: 0 <= i < |sorted| ==> Describe(a.sectors[i], sorted[i], TotalCost(rows))
    ensures TotalCost(rows) - 0.5 <= a.totalValue as real <= TotalCost(rows) + 0.5
    ensures a.topSector == Some(a.sectors[0].sector)
    ensures a.warning == NoWarning <==> a.sectors[0].weightPct <= 400
  {
    forall i | 0 <= i < |sorted| ensures Describe(a.sectors[i], sorted[i], TotalCost(rows)) {
      ItemDescribes(sorted[i], TotalCost(rows));
    }
  }

  function WeightTotal(items: seq<Item>): int {
    if items == [] then 0 else WeightTotal(items[..|items| - 1]) + items[|items| - 1].weightPct
  }

  lemma {:induction false} WeightsNearSum(items: seq<Item>, groups: seq<Group>, total: real)
    requires total > 0.0 && |items| == |groups|
    requires forall i :: 0 <= i < |groups| ==> items[i] == ItemOf(groups[i], total)
    ensures var w := Sum(Values(groups)) / total * 1000.0;
            w - 0.5 * |items| as real <= WeightTotal(items) as real <= w + 0.5 * |items| as real
  {
    if items != [] {
      var n := |items| - 1;
      WeightsNearSum(items[..n], groups[..n], total);
      assert groups == groups[..n] + [groups[n]];
      SumAppended(groups[..n], groups[n]);
      AddOver(Sum(Values(groups[..n])), groups[n].value, total);
    }
  }

  /** The weights of k sectors add up to 100 %, to k times half of the last decimal. */
  lemma WeightsAddUp(a: Report, rows: seq<HoldingRow>, sorted: seq<Group>)
    requires TotalCost(rows) > 0.0 && Describes(a, rows, sorted)
    ensures 1000.0 - 0.5 * |a.sectors| as real <= WeightTotal(a.sectors) as real <= 1000.0 + 0.5 * |a.sectors| as real
  {
    WeightsNearSum(a.sectors, sorted, TotalCost(rows));
    WholeShare(TotalCost(rows));
  }

  /** The products of all pairs of different entries. */
  function Pairs(v: seq<real>): real {
    if v == [] then 0.0 else Pairs(v[..|v| - 1]) + Product(Sum(v[..|v| - 1]), v[|v| - 1])
  }

  lemma {:induction false} SquaresAndPairs(v: seq<real>)
    ensures SumSquares(v) == Product(Sum(v), Sum(v)) - 2.0 * Pairs(v)
  {
    if v != [] {
      var n := |v| - 1;
      SquaresAndPairs(v[..n]);
      SquareOfSum(Sum(v[..n]), v[n]);
    }
  }

  /** The index is one less the chance that two units of money lie in different sectors. */
  lemma IndexIsOneLessPairs(v: seq<real>, total: real)
    requires total > 0.0 && Sum(v) == total
    ensures SumSquares(Weights(v, total)) == 1.0 - 2.0 * Pairs(Weights(v, total))
  {
    WeightsSum(v, total);
    WholeShare(total);
    SquaresAndPairs(Weights(v, total));
  }

  /** And so is the index reported, to half of its last decimal. */
  lemma IndexReported(a: Report, rows: seq<HoldingRow>, sorted: seq<Group>)
    requires TotalCost(rows) > 0.0 && Describes(a, rows, sorted)
    ensures var index := 1.0 - 2.0 * Pairs(Weights(Values(sorted), TotalCost(rows)));
            index * 10000.0 - 0.5 <= a.hhi as real <= index * 10000.0 + 0.5
  {
    IndexIsOneLessPairs(Values(sorted), TotalCost(rows));
  }
}
