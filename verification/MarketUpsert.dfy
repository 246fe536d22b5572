/** The refresh of market_ticks: delete a window, then copy the fetched rows in. */
module MarketUpsert {

  datatype Tick = Tick(timestamp: int, ticker: string, open: int, high: int, low: int, close: int,
                       volume: int, source: string)

  function MinTimestamp(rows: seq<Tick>): int
    requires rows != []
  {
    var n := |rows| - 1;
    if n == 0 then rows[0].timestamp
    else
      var before := MinTimestamp(rows[..n]);
      if rows[n].timestamp < before then rows[n].timestamp else before
  }

  function Tickers(rows: seq<Tick>): set<string> { set r | r in rows :: r.ticker }

  /** Outside the DELETE: another ticker, or older than the one window all fetched tickers share. */
  predicate Survives(r: Tick, tickers: set<string>, since: int) { r.ticker !in tickers || r.timestamp < since }

  function Filter(rows: seq<Tick>, keep: Tick -> bool): seq<Tick> {
    if rows == [] then []
    else Filter(rows[..|rows| - 1], keep) + if keep(rows[|rows| - 1]) then [rows[|rows| - 1]] else []
  }

  function Window(fetched: seq<Tick>): Tick -> bool
    requires fetched != []
  {
    r => Survives(r, Tickers(fetched), MinTimestamp(fetched))
  }

  function Upserted(table: seq<Tick>, fetched: seq<Tick>): seq<Tick> {
    if fetched == [] then table else Filter(table, Window(fetched)) + fetched
  }

  class MarketTicks {
    var rows: seq<Tick>

    constructor ()
      ensures rows == []
    {
      rows := [];
    }

    /** The statements of the transaction: one DELETE, then a COPY row by row. */
    method Refresh(fetched: seq<Tick>) returns (inserted: nat)
      modifies this
      ensures rows == Upserted(old(rows), fetched)
      ensures fetched == [] ==> rows == old(rows)
      ensures fetched != [] ==> |rows| >= |fetched| && rows[|rows| - |fetched|..] == fetched
      ensures inserted == |fetched|
    {
      if fetched == [] { return 0; }
      var minTs := MinTimestamp(fetched);
      var tickers := Tickers(fetched);
      rows := Filter(rows, r => Survives(r, tickers, minTs));
      FilterSame(old(rows), r => Survives(r, tickers, minTs), Window(fetched));
      ghost var kept := rows;
      for i := 0 to |fetched|
        invariant rows == kept + fetched[..i]
      {
        rows := rows + [fetched[i]];
      }
      return |fetched|;
    }
  }

  lemma {:induction false} FilterSame(rows: seq<Tick>, p: Tick -> bool, q: Tick -> bool)
    requires forall r :: r in rows ==> p(r) == q(r)
    ensures Filter(rows, p) == Filter(rows, q)
  {
    if rows != [] {
      assert rows[|rows| - 1] in rows;
      FilterSame(rows[..|rows| - 1], p, q);
    }
  }

  lemma {:induction false} FilterCounts(rows: seq<Tick>, keep: Tick -> bool, r: Tick)
    ensures multiset(Filter(rows, keep))[r] == if keep(r) then multiset(rows)[r] else 0
  {
    if rows != [] {
      FilterCounts(rows[..|rows| - 1], keep, r);
      assert rows == rows[..|rows| - 1] + [rows[|rows| - 1]];
    }
  }

  lemma {:induction false} MinTimestampIsLeast(rows: seq<Tick>)
    requires rows != []
    ensures forall r :: r in rows ==> MinTimestamp(rows) <= r.timestamp
    ensures exists r :: r in rows && MinTimestamp(rows) == r.timestamp
  {
    var n := |rows| - 1;
    if n == 0 {
      assert rows[0] in rows;
    } else {
      var front := rows[..n];
      MinTimestampIsLeast(front);
      var r :| r in front && MinTimestamp(front) == r.timestamp;
      assert rows == front + [rows[n]];
      assert r in rows && rows[n] in rows;
      assert MinTimestamp(rows) == r.timestamp || MinTimestamp(rows) == rows[n].timestamp;
    }
  }

  /** Afterwards the table is exactly the fetched rows plus the old rows that are of other tickers or
      older than the window, each as often as before. */
  lemma TableAfterwards(table: seq<Tick>, fetched: seq<Tick>, r: Tick)
    requires fetched != []
    ensures multiset(Upserted(table, fetched))[r]
            == multiset(fetched)[r]
               + if Survives(r, Tickers(fetched), MinTimestamp(fetched)) then multiset(table)[r] else 0
    ensures r in Upserted(table, fetched) <==>
              r in fetched || (r in table && Survives(r, Tickers(fetched), MinTimestamp(fetched)))
  {
    FilterCounts(table, Window(fetched), r);
    assert r in Upserted(table, fetched) <==> multiset(Upserted(table, fetched))[r] > 0;
  }

  lemma {:induction false} FilterAppend(a: seq<Tick>, b: seq<Tick>, keep: Tick -> bool)
    ensures Filter(a + b, keep) == Filter(a, keep) + Filter(b, keep)
  {
    if b == [] {
      assert a + b == a;
    } else {
      FilterAppend(a, b[..|b| - 1], keep);
      assert (a + b)[..|a + b| - 1] == a + b[..|b| - 1];
    }
  }

  lemma {:induction false} FilterAll(rows: seq<Tick>, keep: Tick -> bool)
    requires forall r :: r in rows ==> keep(r)
    ensures Filter(rows, keep) == rows
  {
    if rows != [] {
      assert rows[|rows| - 1] in rows;
      FilterAll(rows[..|rows| - 1], keep);
    }
  }

  lemma {:induction false} FilterNone(rows: seq<Tick>, keep: Tick -> bool)
    requires forall r :: r in rows ==> !keep(r)
    ensures Filter(rows, keep) == []
  {
    if rows != [] {
      assert rows[|rows| - 1] in rows;
      FilterNone(rows[..|rows| - 1], keep);
    }
  }

  lemma FilterKeeps(rows: seq<Tick>, keep: Tick -> bool, r: Tick)
    ensures r in Filter(rows, keep) <==> r in rows && keep(r)
  {
    FilterCounts(rows, keep, r);
    assert r in Filter(rows, keep) <==> multiset(Filter(rows, keep))[r] > 0;
    assert r in rows <==> multiset(rows)[r] > 0;
  }

  /** Repeating the refresh with the same fetch changes nothing. */
  lemma RefreshIsIdempotent(table: seq<Tick>, fetched: seq<Tick>)
    ensures Upserted(Upserted(table, fetched), fetched) == Upserted(table, fetched)
  {
    if fetched != [] {
      FetchedInWindow(fetched);
      FilterTwice(table, fetched, Window(fetched));
    }
  }

  lemma FetchedInWindow(fetched: seq<Tick>)
    requires fetched != []
    ensures forall r :: r in fetched ==> !Window(fetched)(r)
  {
    MinTimestampIsLeast(fetched);
    forall r | r in fetched ensures !Window(fetched)(r) {
      assert r.ticker in Tickers(fetched);
    }
  }

  lemma FilterTwice(table: seq<Tick>, fetched: seq<Tick>, keep: Tick -> bool)
    requires forall r :: r in fetched ==> !keep(r)
    ensures Filter(Filter(table, keep) + fetched, keep) + fetched == Filter(table, keep) + fetched
  {
    var kept := Filter(table, keep);
    forall r | r in kept ensures keep(r) { FilterKeeps(table, keep, r); }
    FilterAppend(kept, fetched, keep);
    FilterAll(kept, keep);
    FilterNone(fetched, keep);
    assert kept + [] == kept;
  }

  ghost predicate NoDuplicates(rows: seq<Tick>) {
    forall i, j :: 0 <= i < j < |rows| ==> !(rows[i].ticker == rows[j].ticker && rows[i].timestamp == rows[j].timestamp)
  }

  lemma {:induction false} FilterNoDuplicates(rows: seq<Tick>, keep: Tick -> bool)
    requires NoDuplicates(rows)
    ensures NoDuplicates(Filter(rows, keep))
  {
    if rows != [] {
      var n := |rows| - 1;
      var before := Filter(rows[..n], keep);
      FilterNoDuplicates(rows[..n], keep);
      forall i | 0 <= i < |before|
        ensures !(before[i].ticker == rows[n].ticker && before[i].timestamp == rows[n].timestamp)
      {
        FilterKeeps(rows[..n], keep, before[i]);
        var k :| 0 <= k < n && rows[..n][k] == before[i];
        assert rows[k] == before[i];
      }
    }
  }

  /** The refresh introduces no second row for a ticker and timestamp. */
  lemma RefreshKeepsKeys(table: seq<Tick>, fetched: seq<Tick>)
    requires NoDuplicates(table) && NoDuplicates(fetched)
    ensures NoDuplicates(Upserted(table, fetched))
  {
    if fetched != [] {
      var keep := Window(fetched);
      var kept := Filter(table, keep);
      FilterNoDuplicates(table, keep);
      MinTimestampIsLeast(fetched);
      forall i, j | 0 <= i < |kept| && 0 <= j < |fetched|
        ensures !(kept[i].ticker == fetched[j].ticker && kept[i].timestamp == fetched[j].timestamp)
      {
        FilterKeeps(table, keep, kept[i]);
        assert fetched[j] in fetched && fetched[j].ticker in Tickers(fetched);
      }
    }
  }

  // ---- What the refresh loses ----------------------------------------------------------------

  /** The refresh deletes only what it fetches again, if and only if every row of a fetched ticker in
      the shared window is itself fetched. */
  lemma RefreshKeepsRowsExactly(table: seq<Tick>, fetched: seq<Tick>)
    requires fetched != []
    ensures (forall r :: r in table ==> r in Upserted(table, fetched))
            <==> forall r :: r in table && r.ticker in Tickers(fetched) && MinTimestamp(fetched) <= r.timestamp ==>
                   r in fetched
  {
    forall r | r in table
      ensures r in Upserted(table, fetched)
              <==> (r.ticker in Tickers(fetched) && MinTimestamp(fetched) <= r.timestamp ==> r in fetched)
    {
      TableAfterwards(table, fetched, r);
    }
  }

  function BarAt(timestamp: int, ticker: string): Tick { Tick(timestamp, ticker, 1, 1, 1, 1, 1, "yfinance") }

  /** A bar that the next fetch of the same ticker leaves out is lost. */
  lemma SkippedRowIsLost()
    ensures BarAt(2, "A") !in Upserted([BarAt(2, "A")], [BarAt(1, "A"), BarAt(3, "A")])
  {
    var first, skipped, last := BarAt(1, "A"), BarAt(2, "A"), BarAt(3, "A");
    var fetched := [first, last];
    MinTimestampIsLeast(fetched);
    assert first in fetched && first.ticker in Tickers(fetched);
    TableAfterwards([skipped], fetched, skipped);
  }

  // ---- One window for all tickers ------------------------------------------------------------

  function IsTicker(t: string): Tick -> bool { (r: Tick) => r.ticker == t }

  function OfTicker(rows: seq<Tick>, t: string): seq<Tick> { Filter(rows, IsTicker(t)) }

  /** What a window per ticker would keep: rows older than that ticker's own first fetched row. */
  predicate SurvivesOwn(r: Tick, fetched: seq<Tick>) {
    || r.ticker !in Tickers(fetched) || OfTicker(fetched, r.ticker) == []
    || r.timestamp < MinTimestamp(OfTicker(fetched, r.ticker))
  }

  lemma OwnWindowIsLater(fetched: seq<Tick>, t: string)
    requires fetched != [] && t in Tickers(fetched)
    ensures OfTicker(fetched, t) != [] && MinTimestamp(fetched) <= MinTimestamp(OfTicker(fetched, t))
  {
    var r :| r in fetched && r.ticker == t;
    FilterKeeps(fetched, IsTicker(t), r);
    MinTimestampIsLeast(OfTicker(fetched, t));
    MinTimestampIsLeast(fetched);
    var m :| m in OfTicker(fetched, t) && MinTimestamp(OfTicker(fetched, t)) == m.timestamp;
    FilterKeeps(fetched, IsTicker(t), m);
  }

  /** The shared window deletes rows that a window per ticker would keep, and it does so exactly when
      the table holds a row of a fetched ticker that lies between the shared start and that ticker's
      own first fetched row; such rows are not fetched again. */
  lemma SharedWindowLosesRowsExactly(table: seq<Tick>, fetched: seq<Tick>)
    requires fetched != []
    ensures (exists r :: r in table && SurvivesOwn(r, fetched) && r !in Upserted(table, fetched))
            <==> exists r :: r in table && r.ticker in Tickers(fetched)
                   && MinTimestamp(fetched) <= r.timestamp < MinTimestamp(OwnRows(fetched, r.ticker))
  {
    forall r | r in table
      ensures SurvivesOwn(r, fetched) && r !in Upserted(table, fetched)
              <==> r.ticker in Tickers(fetched)
                   && MinTimestamp(fetched) <= r.timestamp < MinTimestamp(OwnRows(fetched, r.ticker))
    {
      TableAfterwards(table, fetched, r);
      if r.ticker in Tickers(fetched) {
        OwnWindowIsLater(fetched, r.ticker);
        if r in fetched {
          FilterKeeps(fetched, IsTicker(r.ticker), r);
          MinTimestampIsLeast(OfTicker(fetched, r.ticker));
        }
      }
    }
  }

  /** A ticker's fetched rows; all of them if it has none, so that the minimum is defined. */
  function OwnRows(fetched: seq<Tick>, t: string): (own: seq<Tick>)
    requires fetched != []
    ensures own != []
  {
    if OfTicker(fetched, t) == [] then fetched else OfTicker(fetched, t)
  }

  /** One ticker's first fetched row is older than another's: the row in between is lost. */
  lemma MiddleRowIsLost()
    ensures var fetched := [BarAt(1, "B"), BarAt(3, "A")];
            SurvivesOwn(BarAt(2, "A"), fetched) && BarAt(2, "A") !in Upserted([BarAt(2, "A")], fetched)
  {
    var row, other, later := BarAt(2, "A"), BarAt(1, "B"), BarAt(3, "A");
    var fetched := [other, later];
    assert fetched[..1] == [other] && [other][..0] == [];
    assert !IsTicker("A")(other) && IsTicker("A")(later);
    assert Filter([other], IsTicker("A")) == [];
    assert OfTicker(fetched, "A") == [later];
    assert MinTimestamp([other]) == 1 && MinTimestamp(fetched) == 1;
    assert later in fetched && "A" in Tickers(fetched);
    TableAfterwards([row], fetched, row);
  }
}
