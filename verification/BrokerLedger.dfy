/** What every run of orders and resets keeps: the tables stay consistent with the two logs. */
module BrokerLedger {
  import opened Rounding
  import opened Broker

  // ---- Reading the logs ----------------------------------------------------------------------

  /** Each fill appends one row to both logs and a reset empties only the order log, so the audit
      rows written since the last reset are the last |orders| of them. */
  function AuditSinceReset(db: Db): seq<AuditRow>
    requires |db.orders| <= |db.audit|
  {
    db.audit[|db.audit| - |db.orders|..]
  }

  /** The shares of one ticker that the order log says are held. */
  function NetQty(log: seq<OrderRow>, t: Ticker): int {
    if log == [] then 0
    else
      var r := log[|log| - 1];
      NetQty(log[..|log| - 1], t)
      + (if r.ticker != t then 0 else if r.side.Buy? then r.quantity as int else -(r.quantity as int))
  }

  /** The cash one audit row moves. */
  function CashFlow(r: AuditRow, c: Currency): int {
    if r.currency != c then 0
    else if r.side.Buy? then -(r.notional + r.commission)
    else r.notional - r.commission
  }

  function CashFold(log: seq<AuditRow>, c: Currency): int {
    if log == [] then 0 else CashFold(log[..|log| - 1], c) + CashFlow(log[|log| - 1], c)
  }

  function Shares(r: OrderRow): real { r.quantity as real / 1000000.0 }

  /** The cash one order-log row moves when it is rebuilt from quantity * fill price, in 10^-4. */
  function RebuiltFlow(r: OrderRow, c: Currency): real {
    var value := Product(Shares(r), r.fillPrice as real);
    if r.currency != c then 0.0
    else if r.side.Buy? then -value - r.commission as real
    else value - r.commission as real
  }

  function RebuiltCash(log: seq<OrderRow>, c: Currency): real {
    if log == [] then 0.0 else RebuiltCash(log[..|log| - 1], c) + RebuiltFlow(log[|log| - 1], c)
  }

  /** Half a unit of cash for the order and half a unit for each share it moves. */
  function ErrorBudget(log: seq<OrderRow>, c: Currency): real {
    if log == [] then 0.0
    else
      var r := log[|log| - 1];
      ErrorBudget(log[..|log| - 1], c)
      + (if r.currency == c then 0.5 * (Shares(r) + 1.0) else 0.0)
  }

  // ---- The invariants ------------------------------------------------------------------------

  ghost predicate RatesInRange(o: Order) {
    0.0 <= o.commissionRate <= 1.0 && 0.0 <= o.slippage <= 1.0
  }

  /** Solvency: no account is overdrawn or was opened overdrawn. */
  ghost predicate Solvent(db: Db) {
    forall c :: c in db.accounts ==> db.accounts[c].cash >= 0 && db.accounts[c].initial >= 0
  }

  ghost predicate CashMatchesAudit(db: Db) {
    && |db.orders| <= |db.audit|
    && forall c :: c in db.accounts ==>
         db.accounts[c].cash == db.accounts[c].initial + CashFold(AuditSinceReset(db), c)
  }

  ghost predicate HoldingsMatchOrders(db: Db) {
    && (forall t :: MatchesAt(db, t))
    && CurrencyColumns(db)
  }

  ghost predicate MatchesAt(db: Db, t: Ticker) { HeldQty(Get(db.holdings, t)) == NetQty(db.orders, t) }

  ghost predicate CurrencyColumns(db: Db) {
    forall t :: t in db.holdings ==> db.holdings[t].currency == TickerCurrency(t)
  }

  ghost predicate RowsPositive(db: Db) {
    forall t :: t in db.holdings ==> db.holdings[t].quantity > 0
  }

  ghost predicate LogsAgree(db: Db) {
    && |db.orders| <= |db.audit|
    && forall i :: 0 <= i < |db.orders| ==> RowsAgree(db.orders[i], AuditSinceReset(db)[i])
  }

  /** The order row is the audit row seen through the columns of virtual_orders. */
  ghost predicate RowsAgree(r: OrderRow, a: AuditRow) {
    && r.id == a.orderId && r.ticker == a.ticker && r.side == a.side && r.currency == a.currency
    && r.commission == a.commission
    && r.quantity as real == Micro(a.quantity)
    && a.notional == NotionalAt(a.quantity, a.fillPrice)
    && r.fillPrice == RoundHalfAway(a.fillPrice as real / 100.0)
  }

  /** The state init_db leaves behind. */
  ghost predicate Fresh(db: Db) {
    && db.holdings == map[] && db.orders == []
    && forall c :: c in db.accounts ==> db.accounts[c].cash == db.accounts[c].initial >= 0
  }

  // ---- One order -----------------------------------------------------------------------------

  lemma NotionalNonNegative(o: Order)
    requires o.quantity > 0.0 && o.price > 0.0 && RatesInRange(o)
    ensures FillPrice(o) >= 0
    ensures Notional(o) >= 0
    ensures 0 <= Commission(o) <= Notional(o)
  {
    var factor := if o.side.Buy? then 1.0 + o.slippage else 1.0 - o.slippage;
    ProductNonNegative(o.price, factor);
    assert FillPrice(o) >= 0;
    ProductNonNegative(o.quantity, FillPrice(o) as real / 100.0);
    var n := Notional(o) as real;
    ProductNonNegative(n, o.commissionRate);
    ProductNonNegative(n, 1.0 - o.commissionRate);
    assert Product(n, o.commissionRate) == n - Product(n, 1.0 - o.commissionRate);
  }

  lemma ProductNonNegative(x: real, y: real)
    requires x >= 0.0 && y >= 0.0
    ensures x * y >= 0.0 && Product(x, y) >= 0.0
  {
  }

  /** Six digits are a Korean code; a name with any other character in it is quoted in dollars, and so is
      the empty one. */
  lemma CodesAndNames(t: Ticker, i: nat)
    ensures |t| == 6 && (forall k :: 0 <= k < 6 ==> t[k] in "0123456789") ==> TickerCurrency(t) == KRW
    ensures i < |t| && t[i] !in "0123456789" ==> TickerCurrency(t) == USD
    ensures TickerCurrency("") == USD
  {
    var digits := "0123456789";
    if i < |t| { assert t[i] in t; }
    assert forall c :: c in digits <==> '0' <= c <= '9' by {
      forall c | '0' <= c <= '9' ensures c in digits { assert digits[(c - '0') as int] == c; }
    }
  }

  /** An order is filled if and only if quantity and price are positive, its currency has an account, and
      it neither overdraws that account nor sells more than is held; otherwise no table changes. */
  lemma FilledExactly(db: Db, o: Order)
    ensures var c := TickerCurrency(o.ticker);
            Outcome(db, o).Filled? <==>
              && o.quantity > 0.0 && o.price > 0.0 && c in db.accounts
              && (o.side.Buy? ==> db.accounts[c].cash - Notional(o) - Commission(o) >= 0)
              && (o.side.Sell? ==> o.quantity * 1000000.0 <= HeldQty(Get(db.holdings, o.ticker)) as real)
    ensures Outcome(db, o).Rejected? <==> Execute(db, o) == db
  {
    if Outcome(db, o).Filled? {
      assert |Execute(db, o).orders| == |db.orders| + 1;
    }
  }

  /** The reason given is the first one that applies, with the figures that decided. */
  lemma RejectionExplained(db: Db, o: Order)
    requires Outcome(db, o).Rejected?
    ensures var c := TickerCurrency(o.ticker);
            match Outcome(db, o).reason
            case QuantityMustBePositive => o.quantity <= 0.0
            case InvalidPrice => o.quantity > 0.0 && o.price <= 0.0
            case NoAccount(missing) => o.quantity > 0.0 && o.price > 0.0 && missing == c && c !in db.accounts
            case InsufficientCash(required, available) =>
              && o.quantity > 0.0 && o.price > 0.0 && o.side.Buy? && c in db.accounts
              && required == Notional(o) + Commission(o) > available == db.accounts[c].cash
            case InsufficientHoldings(requested, held) =>
              && o.quantity > 0.0 && o.price > 0.0 && o.side.Sell? && c in db.accounts
              && requested == o.quantity && held == HeldQty(Get(db.holdings, o.ticker))
              && requested * 1000000.0 > held as real
  {
  }

  ghost predicate Within(x: real, y: real, bound: real) { -bound <= x - y <= bound }

  /** A fill appends one row to each log, under the next id. The audit row keeps what was ordered and
      what it came to, the answer repeats it, and exactly that moves the one account. */
  lemma FillIsRecorded(db: Db, o: Order)
    requires DecisionFor(db, o).Fill?
    ensures var db' := Execute(db, o);
            && |db'.orders| == |db.orders| + 1 && db'.orders[..|db.orders|] == db.orders
            && |db'.audit| == |db.audit| + 1 && db'.audit[..|db.audit|] == db.audit
            && var r, a := db'.orders[|db.orders|], db'.audit[|db.audit|];
               && r.id == a.orderId == db.nextId < db'.nextId
               && a.ticker == r.ticker == o.ticker && a.side == r.side == o.side
               && a.currency == r.currency == TickerCurrency(o.ticker)
               && a.quantity == o.quantity && a.price == o.price && a.slippage == o.slippage
               && Within(r.quantity as real, o.quantity * 1000000.0, 0.5)
               && Within(r.slippage as real, o.slippage * 1000000.0, 0.5)
               && Within(r.fillPrice as real, a.fillPrice as real / 100.0, 0.5)
               && Within(a.notional as real, Product(o.quantity, a.fillPrice as real / 100.0), 0.5)
               && Within(a.commission as real, Product(a.notional as real, o.commissionRate), 0.5)
               && r.commission == a.commission
               && Outcome(db, o) == Filled(a.orderId, a.fillPrice, a.notional, a.commission)
               && a.currency in db.accounts
               && var moved := if o.side.Buy? then -a.notional - a.commission else a.notional - a.commission;
                  db'.accounts == db.accounts[a.currency :=
                    Account(db.accounts[a.currency].cash + moved, db.accounts[a.currency].initial)]
  {
  }

  lemma ExecuteKeepsSolvent(db: Db, o: Order)
    requires Solvent(db) && RatesInRange(o)
    ensures Solvent(Execute(db, o))
  {
    if DecisionFor(db, o).Fill? {
      NotionalNonNegative(o);
    }
  }

  /** The order's quantity, as the order log records it, is exactly what the holdings row moves by,
      unless a sale lies exactly half-way between two stored quantities: then the row keeps one unit
      too many, because both columns round the half upwards. */
  predicate HalfwaySale(o: Order) {
    o.side.Sell? && Micro(o.quantity) - Micro(o.quantity).Floor as real == 0.5
  }

  /** Adding a positive amount to a stored quantity rounds like the amount alone. */
  lemma StoredSum(h: nat, x: real)
    requires x > 0.0
    ensures RoundHalfAway(h as real + x) == h + RoundHalfAway(x)
  {
  }

  /** Taking an amount from a stored quantity rounds like the amount, except at a half. */
  lemma StoredDifference(h: nat, x: real)
    requires 0.0 < x < h as real
    ensures RoundHalfAway(h as real - x) == h - RoundHalfAway(x) + if x - x.Floor as real == 0.5 then 1 else 0
    ensures x - x.Floor as real == 0.5 ==> RoundHalfAway(x) == x.Floor + 1
  {
    var f := x.Floor;
    var d := x - f as real;
    var y := h as real - x + 0.5;
    assert y == (h - f) as real - d + 0.5;
    if d < 0.5 {
      FloorIs(y, h - f);
      FloorIs(x + 0.5, f);
    } else if d > 0.5 {
      FloorIs(y, h - f - 1);
      FloorIs(x + 0.5, f + 1);
    } else {
      FloorIs(y, h - f);
      FloorIs(x + 0.5, f + 1);
    }
  }

  lemma FloorIs(y: real, k: int)
    requires k as real <= y < k as real + 1.0
    ensures y.Floor == k
  {
  }

  /** The holdings row after a fill, without its cost. */
  lemma FillQuantity(db: Db, o: Order)
    requires DecisionFor(db, o).Fill?
    ensures var h := HeldQty(Get(db.holdings, o.ticker)) as real;
            var x := Micro(o.quantity);
            var after := Get(Execute(db, o).holdings, o.ticker);
            && x > 0.0
            && (o.side.Buy? ==> after.Some? && after.value.quantity == RoundHalfAway(h + x))
            && (o.side.Sell? ==> x <= h)
            && (o.side.Sell? && x == h ==> after.None?)
            && (o.side.Sell? && x < h ==> after.Some? && after.value.quantity == RoundHalfAway(h - x))
  {
  }

  lemma FillMovesHolding(db: Db, o: Order)
    requires DecisionFor(db, o).Fill?
    ensures var before := HeldQty(Get(db.holdings, o.ticker));
            var after := HeldQty(Get(Execute(db, o).holdings, o.ticker));
            var logged := OrderRowOf(o, db.nextId).quantity;
            after == (if o.side.Buy? then before + logged else before - logged) + (if HalfwaySale(o) then 1 else 0)
  {
    FillQuantity(db, o);
    var x := Micro(o.quantity);
    var h := HeldQty(Get(db.holdings, o.ticker));
    if o.side.Buy? {
      StoredSum(h, x);
    } else if x < h as real {
      StoredDifference(h, x);
    }
  }

  lemma ExecuteKeepsHoldings(db: Db, o: Order)
    requires HoldingsMatchOrders(db) && !HalfwaySale(o)
    ensures HoldingsMatchOrders(Execute(db, o))
  {
    var db' := Execute(db, o);
    if DecisionFor(db, o).Fill? {
      FillMovesHolding(db, o);
      assert db'.orders[..|db'.orders| - 1] == db.orders;
      forall t ensures MatchesAt(db', t) {
        assert MatchesAt(db, t);
        if t != o.ticker {
          assert Get(db'.holdings, t) == Get(db.holdings, t);
        }
      }
    }
  }

  lemma AuditSuffixGrows(db: Db, o: Order)
    requires |db.orders| <= |db.audit| && DecisionFor(db, o).Fill?
    ensures |Execute(db, o).orders| <= |Execute(db, o).audit|
    ensures AuditSinceReset(Execute(db, o)) == AuditSinceReset(db) + [AuditRowOf(o, db.nextId)]
  {
  }

  lemma ExecuteKeepsCash(db: Db, o: Order)
    requires CashMatchesAudit(db)
    ensures CashMatchesAudit(Execute(db, o))
  {
    var db' := Execute(db, o);
    if DecisionFor(db, o).Fill? {
      AuditSuffixGrows(db, o);
      var log := AuditSinceReset(db');
      assert log[..|log| - 1] == AuditSinceReset(db);
    }
  }

  lemma ExecuteKeepsPositive(db: Db, o: Order)
    requires RowsPositive(db) && OnGrid(o.quantity)
    ensures RowsPositive(Execute(db, o))
  {
    var db' := Execute(db, o);
    if DecisionFor(db, o).Fill? {
      FillQuantity(db, o);
      var x := Micro(o.quantity).Floor;
      var h := HeldQty(Get(db.holdings, o.ticker));
      RoundGridPoint(h + x);
      RoundGridPoint(h - x);
      assert (h + x) as real == h as real + Micro(o.quantity);
      assert (h - x) as real == h as real - Micro(o.quantity);
      assert o.ticker in db'.holdings ==> db'.holdings[o.ticker].quantity > 0;
    }
  }

  lemma NewRowsAgree(o: Order, id: nat)
    requires o.quantity > 0.0 && OnGrid(o.quantity)
    ensures RowsAgree(OrderRowOf(o, id), AuditRowOf(o, id))
  {
    RoundGridPoint(Micro(o.quantity).Floor);
  }

  lemma ExecuteKeepsLogs(db: Db, o: Order)
    requires LogsAgree(db) && OnGrid(o.quantity)
    ensures LogsAgree(Execute(db, o))
  {
    var db' := Execute(db, o);
    if DecisionFor(db, o).Fill? {
      AuditSuffixGrows(db, o);
      forall i | 0 <= i < |db'.orders| ensures RowsAgree(db'.orders[i], AuditSinceReset(db')[i]) {
        if i < |db.orders| {
          assert db'.orders[i] == db.orders[i];
          assert AuditSinceReset(db')[i] == AuditSinceReset(db)[i];
        } else {
          NewRowsAgree(o, db.nextId);
        }
      }
    }
  }

  // ---- Whole runs ----------------------------------------------------------------------------

  /** After any run whose rates lie in [0, 1], no account is overdrawn, whatever the quantities. */
  lemma {:induction false} RunKeepsSolvent(db: Db, cmds: seq<Command>)
    requires Solvent(db)
    requires forall cmd :: cmd in cmds && cmd.Place? ==> RatesInRange(cmd.order)
    ensures Solvent(Run(db, cmds))
  {
    if cmds != [] {
      var n := |cmds| - 1;
      RunKeepsSolvent(db, cmds[..n]);
      assert cmds[n] in cmds;
      if cmds[n].Place? { ExecuteKeepsSolvent(Run(db, cmds[..n]), cmds[n].order); }
    }
  }

  /** Cash equals the exact fold of the audit notionals and commissions since the last reset,
      whatever the orders were. */
  lemma {:induction false} RunKeepsCash(db: Db, cmds: seq<Command>)
    requires CashMatchesAudit(db)
    ensures CashMatchesAudit(Run(db, cmds))
  {
    if cmds != [] {
      var n := |cmds| - 1;
      RunKeepsCash(db, cmds[..n]);
      if cmds[n].Place? { ExecuteKeepsCash(Run(db, cmds[..n]), cmds[n].order); }
    }
  }

  /** The half-way sales of t filled since the last reset. */
  function HalfwaySales(db: Db, cmds: seq<Command>, t: Ticker): nat {
    if cmds == [] then 0
    else
      var n := |cmds| - 1;
      match cmds[n]
      case ResetAll => 0
      case Place(o) =>
        HalfwaySales(db, cmds[..n], t)
        + if o.ticker == t && HalfwaySale(o) && DecisionFor(Run(db, cmds[..n]), o).Fill? then 1 else 0
  }

  lemma OrderDrift(db: Db, o: Order, t: Ticker)
    ensures var db' := Execute(db, o);
            HeldQty(Get(db'.holdings, t)) - NetQty(db'.orders, t)
            == HeldQty(Get(db.holdings, t)) - NetQty(db.orders, t)
               + if o.ticker == t && HalfwaySale(o) && DecisionFor(db, o).Fill? then 1 else 0
  {
    var db' := Execute(db, o);
    if DecisionFor(db, o).Fill? {
      FillMovesHolding(db, o);
      assert db'.orders[..|db'.orders| - 1] == db.orders;
      if t != o.ticker { assert Get(db'.holdings, t) == Get(db.holdings, t); }
    }
  }

  /** After any run, a holding exceeds the fold of the order log since the last reset by one unit of
      10^-6 for each half-way sale filled since then, and by nothing else. */
  lemma {:induction false} HoldingsDrift(db: Db, cmds: seq<Command>, t: Ticker)
    requires HeldQty(Get(db.holdings, t)) == NetQty(db.orders, t)
    ensures var end := Run(db, cmds);
            HeldQty(Get(end.holdings, t)) - NetQty(end.orders, t) == HalfwaySales(db, cmds, t)
  {
    if cmds != [] {
      var n := |cmds| - 1;
      HoldingsDrift(db, cmds[..n], t);
      if cmds[n].Place? { OrderDrift(Run(db, cmds[..n]), cmds[n].order, t); }
    }
  }

  lemma {:induction false} RunKeepsCurrency(db: Db, cmds: seq<Command>)
    requires CurrencyColumns(db)
    ensures CurrencyColumns(Run(db, cmds))
  {
    if cmds != [] {
      RunKeepsCurrency(db, cmds[..|cmds| - 1]);
    }
  }

  lemma MatchesExactlyAt(db: Db, cmds: seq<Command>, t: Ticker)
    requires MatchesAt(db, t)
    ensures MatchesAt(Run(db, cmds), t) <==> HalfwaySales(db, cmds, t) == 0
  {
    HoldingsDrift(db, cmds, t);
  }

  /** So holdings equal the fold of the order log if and only if no half-way sale has been filled
      since the last reset. */
  lemma HoldingsMatchExactly(db: Db, cmds: seq<Command>)
    requires HoldingsMatchOrders(db)
    ensures HoldingsMatchOrders(Run(db, cmds)) <==> forall t :: HalfwaySales(db, cmds, t) == 0
  {
    RunKeepsCurrency(db, cmds);
    if HoldingsMatchOrders(Run(db, cmds)) {
      forall t ensures HalfwaySales(db, cmds, t) == 0 {
        assert MatchesAt(db, t) && MatchesAt(Run(db, cmds), t);
        MatchesExactlyAt(db, cmds, t);
      }
    } else {
      var t :| !MatchesAt(Run(db, cmds), t);
      assert MatchesAt(db, t);
      MatchesExactlyAt(db, cmds, t);
    }
  }

  lemma {:induction false} OnGridNeverHalfway(db: Db, cmds: seq<Command>, t: Ticker)
    requires forall cmd :: cmd in cmds && cmd.Place? ==> OnGrid(cmd.order.quantity)
    ensures HalfwaySales(db, cmds, t) == 0
  {
    if cmds != [] {
      OnGridNeverHalfway(db, cmds[..|cmds| - 1], t);
      assert cmds[|cmds| - 1] in cmds;
    }
  }

  /** The audit log is append-only: whatever a run does, resets included, the old rows stay in front. */
  lemma {:induction false} AuditIsAppendOnly(db: Db, cmds: seq<Command>)
    ensures db.audit <= Run(db, cmds).audit && db.nextId <= Run(db, cmds).nextId
  {
    if cmds != [] {
      AuditIsAppendOnly(db, cmds[..|cmds| - 1]);
    }
  }

  /** Every id in the two logs was drawn before, and later rows have larger ids. */
  ghost predicate IdsAscend(db: Db) {
    && (forall i, j :: 0 <= i < j < |db.audit| ==> db.audit[i].orderId < db.audit[j].orderId)
    && (forall i :: 0 <= i < |db.audit| ==> db.audit[i].orderId < db.nextId)
  }

  lemma {:induction false} RunKeepsIds(db: Db, cmds: seq<Command>)
    requires IdsAscend(db)
    ensures IdsAscend(Run(db, cmds))
  {
    if cmds != [] {
      var n := |cmds| - 1;
      RunKeepsIds(db, cmds[..n]);
      var mid := Run(db, cmds[..n]);
      if cmds[n].Place? && DecisionFor(mid, cmds[n].order).Fill? {
        FillIsRecorded(mid, cmds[n].order);
      }
    }
  }

  lemma {:induction false} RunKeepsRows(db: Db, cmds: seq<Command>)
    requires RowsPositive(db) && LogsAgree(db)
    requires forall cmd :: cmd in cmds && cmd.Place? ==> OnGrid(cmd.order.quantity)
    ensures RowsPositive(Run(db, cmds)) && LogsAgree(Run(db, cmds))
  {
    if cmds != [] {
      var n := |cmds| - 1;
      var mid := Run(db, cmds[..n]);
      RunKeepsRows(db, cmds[..n]);
      assert cmds[n] in cmds;
      if cmds[n].Place? {
        ExecuteKeepsPositive(mid, cmds[n].order);
        ExecuteKeepsLogs(mid, cmds[n].order);
      }
    }
  }

  /** One row's rebuilt cash differs from the audited flow by its error budget at most. */
  lemma RebuiltFlowError(r: OrderRow, a: AuditRow)
    requires RowsAgree(r, a)
    ensures -0.5 * (Shares(r) + 1.0)
            <= RebuiltFlow(r, r.currency) - CashFlow(a, r.currency) as real
            <= 0.5 * (Shares(r) + 1.0)
  {
    assert Shares(r) == a.quantity;
    ScaledError(Shares(r), a.fillPrice as real / 100.0, r.fillPrice as real, a.notional as real);
  }

  lemma ScaledError(q: real, x: real, y: real, rounded: real)
    requires q >= 0.0 && -0.5 <= x - y <= 0.5
    requires Product(q, x) - 0.5 <= rounded <= Product(q, x) + 0.5
    ensures -0.5 * (q + 1.0) <= rounded - Product(q, y) <= 0.5 * (q + 1.0)
  {
    ProductNonNegative(q, 0.5 - (x - y));
    ProductNonNegative(q, 0.5 + (x - y));
  }

  lemma {:induction false} RebuiltCashError(orders: seq<OrderRow>, audit: seq<AuditRow>, c: Currency)
    requires |orders| == |audit|
    requires forall i :: 0 <= i < |orders| ==> RowsAgree(orders[i], audit[i])
    ensures -ErrorBudget(orders, c) <= RebuiltCash(orders, c) - CashFold(audit, c) as real <= ErrorBudget(orders, c)
  {
    if orders != [] {
      var n := |orders| - 1;
      RebuiltCashError(orders[..n], audit[..n], c);
      RebuiltFlowError(orders[n], audit[n]);
    }
  }

  /** The books after any run from a fresh database, with quantities on the 10^-6 grid and rates in
      [0, 1]: cash is never negative, every holdings row is strictly positive, holdings and cash are
      the folds of the two logs, and cash rebuilt from virtual_orders alone is off by at most half a
      unit of 10^-4 times (quantity + 1) per order. */
  lemma BooksBalance(db: Db, cmds: seq<Command>, c: Currency)
    requires Fresh(db) && c in db.accounts
    requires forall cmd :: cmd in cmds && cmd.Place? ==>
               RatesInRange(cmd.order) && OnGrid(cmd.order.quantity)
    ensures var end := Run(db, cmds);
            && Solvent(end) && RowsPositive(end) && HoldingsMatchOrders(end) && CashMatchesAudit(end)
            && c in end.accounts && end.accounts[c].initial == db.accounts[c].initial
            && var rebuilt := end.accounts[c].initial as real + RebuiltCash(end.orders, c);
               -ErrorBudget(end.orders, c) <= rebuilt - end.accounts[c].cash as real <= ErrorBudget(end.orders, c)
  {
    RunKeepsSolvent(db, cmds);
    RunKeepsCash(db, cmds);
    forall t ensures HalfwaySales(db, cmds, t) == 0 { OnGridNeverHalfway(db, cmds, t); }
    HoldingsMatchExactly(db, cmds);
    RunKeepsRows(db, cmds);
    RunKeepsAccounts(db, cmds);
    var end := Run(db, cmds);
    RebuiltCashError(end.orders, AuditSinceReset(end), c);
  }

  lemma {:induction false} RunKeepsAccounts(db: Db, cmds: seq<Command>)
    ensures Run(db, cmds).accounts.Keys == db.accounts.Keys
    ensures forall c :: c in db.accounts ==> Run(db, cmds).accounts[c].initial == db.accounts[c].initial
  {
    if cmds != [] {
      RunKeepsAccounts(db, cmds[..|cmds| - 1]);
    }
  }

  /** A stored quantity after a fill: exactly when the row it leaves is strictly positive. */
  lemma FilledRowPositive(db: Db, o: Order)
    requires DecisionFor(db, o).Fill? && o.ticker in Execute(db, o).holdings
    ensures var h := HeldQty(Get(db.holdings, o.ticker)) as real;
            var x := Micro(o.quantity);
            Execute(db, o).holdings[o.ticker].quantity > 0
            <==> (if o.side.Buy? then h + x else h - x) >= 0.5
  {
  }

  /** What the last fill of t since the last reset left of it, before rounding to six decimals. */
  function LeftByLastFill(db: Db, cmds: seq<Command>, t: Ticker): real {
    if cmds == [] then HeldQty(Get(db.holdings, t)) as real
    else
      var n := |cmds| - 1;
      var mid := Run(db, cmds[..n]);
      match cmds[n]
      case ResetAll => 0.0
      case Place(o) =>
        if o.ticker == t && DecisionFor(mid, o).Fill? then
          var h := HeldQty(Get(mid.holdings, t)) as real;
          if o.side.Buy? then h + Micro(o.quantity) else h - Micro(o.quantity)
        else LeftByLastFill(db, cmds[..n], t)
  }

  /** After any run, on the grid or off it, a holdings row is strictly positive if and only if its last
      fill left at least half a unit of 10^-6. */
  lemma {:induction false} RowPositiveExactly(db: Db, cmds: seq<Command>, t: Ticker)
    requires t in Run(db, cmds).holdings
    ensures Run(db, cmds).holdings[t].quantity > 0 <==> LeftByLastFill(db, cmds, t) >= 0.5
  {
    if cmds != [] {
      var n := |cmds| - 1;
      var mid := Run(db, cmds[..n]);
      assert cmds[n].Place?;
      var o := cmds[n].order;
      if o.ticker == t && DecisionFor(mid, o).Fill? {
        FilledRowPositive(mid, o);
      } else {
        assert t in mid.holdings && Execute(mid, o).holdings[t] == mid.holdings[t];
        RowPositiveExactly(db, cmds[..n], t);
      }
    }
  }

  const ONE_USD := Db(map[USD := Account(10000, 10000)], map[], [], [], 0)

  /** Off the grid a purchase can leave a row of zero shares: 0.4 units of 10^-6 are stored as 0. */
  lemma OffGridPurchaseLeavesEmptyRow()
    ensures var o := Order("A", Buy, 0.0000004, 1.0, 0.0, 0.0);
            && Fresh(ONE_USD) && RatesInRange(o) && DecisionFor(ONE_USD, o).Fill?
            && !RowsPositive(Execute(ONE_USD, o))
  {
    var o := Order("A", Buy, 0.0000004, 1.0, 0.0, 0.0);
    assert 'A' in "A" && TickerCurrency("A") == USD;
    assert FillPriceAt(Buy, 1.0, 0.0) == 1000000;
    assert Product(0.0000004, 10000.0) == 0.004;
    FillQuantity(ONE_USD, o);
    assert Micro(o.quantity) == 0.4;
    assert Execute(ONE_USD, o).holdings["A"].quantity == 0;
  }

  lemma RunTwo(db: Db, a: Command, b: Command)
    ensures Run(db, [a]) == Apply(db, a) && Run(db, [a, b]) == Apply(Apply(db, a), b)
  {
    assert [a][..0] == [] && [a, b][..1] == [a];
  }

  const BUY_TWO := Order("A", Buy, 0.000002, 1.0, 0.0, 0.0)
  const SELL_ONE_AND_A_HALF := Order("A", Sell, 0.0000015, 1.0, 0.0, 0.0)

  lemma TwoUnitsBought()
    ensures DecisionFor(ONE_USD, BUY_TWO).Fill?
    ensures Get(Execute(ONE_USD, BUY_TWO).holdings, "A").Some? && Execute(ONE_USD, BUY_TWO).holdings["A"].quantity == 2
  {
    assert 'A' in "A" && TickerCurrency("A") == USD;
    assert FillPriceAt(Buy, 1.0, 0.0) == 1000000;
    assert Product(0.000002, 10000.0) == 0.02;
    assert Micro(BUY_TWO.quantity) == 2.0;
    FillQuantity(ONE_USD, BUY_TWO);
  }

  lemma SaleOfOneAndAHalfFills(db: Db)
    requires USD in db.accounts && HeldQty(Get(db.holdings, "A")) == 2
    ensures DecisionFor(db, SELL_ONE_AND_A_HALF).Fill? && HalfwaySale(SELL_ONE_AND_A_HALF)
  {
    assert 'A' in "A" && TickerCurrency("A") == USD;
    assert Micro(SELL_ONE_AND_A_HALF.quantity) == 1.5;
  }

  /** Buy 2 units and sell 1.5: one unit stays in the row while the order log says none is left. */
  lemma HalfwaySaleDrifts()
    ensures Fresh(ONE_USD) && RatesInRange(BUY_TWO) && RatesInRange(SELL_ONE_AND_A_HALF)
    ensures var end := Run(ONE_USD, [Place(BUY_TWO), Place(SELL_ONE_AND_A_HALF)]);
            HeldQty(Get(end.holdings, "A")) == 1 && NetQty(end.orders, "A") == 0 && !HoldingsMatchOrders(end)
  {
    var mid := Execute(ONE_USD, BUY_TWO);
    RunTwo(ONE_USD, Place(BUY_TWO), Place(SELL_ONE_AND_A_HALF));
    TwoUnitsBought();
    SaleOfOneAndAHalfFills(mid);
    OrderDrift(ONE_USD, BUY_TWO, "A");
    OrderDrift(mid, SELL_ONE_AND_A_HALF, "A");
    FillQuantity(mid, SELL_ONE_AND_A_HALF);
    var end := Execute(mid, SELL_ONE_AND_A_HALF);
    assert HeldQty(Get(end.holdings, "A")) == 1;
    assert !MatchesAt(end, "A");
  }
}
