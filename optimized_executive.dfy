/**
 * executive_metrics of payment_intelligence/etl_logic.py: one statement that
 * cross-joins three single-row aggregates (Active subscriptions, the last 30
 * days of transactions, all subscriptions) and a dictionary built from its
 * one row with `x or 0`.
 */
module OptimizedExecutive {
  import opened Relational
  import opened Calendar
  import opened Records

  /** CASE WHEN status = 'Cancelled' THEN 1 END, counted. */
  function CancelledWeight(s: Subscription): int { if s.status == "Cancelled" then 1 else 0 }

  /** The one row of `active_subs, recent_txs, churn_calc`. */
  datatype SummaryRow = SummaryRow(
    activeCount: int,
    totalMrr: Option<int>,
    avgTx: Option<real>,
    successRate: Option<real>,
    churnRate: real)

  /** The transactions of `recent_txs`: the last 30 days. */
  function RecentTxs(txs: seq<Transaction>, today: Date): seq<Transaction>
  {
    Recent(txs, today, 30)
  }

  /** The statement's row; amounts in cents. */
  function SummaryQuery(subs: seq<Subscription>, txs: seq<Transaction>, today: Date): (r: SummaryRow)
    ensures 0 <= r.activeCount <= |subs|
    ensures r.totalMrr.None? <==> r.activeCount == 0
    ensures r.avgTx.None? <==> Where(RecentTxs(txs, today), IsSuccessTx) == []
    ensures r.successRate.None? <==> RecentTxs(txs, today) == []
    ensures r.successRate.Some? ==> 0.0 <= r.successRate.value <= 100.0
    ensures 0.0 <= r.churnRate <= 100.0
  {
    var active := Where(subs, IsActiveSub);
    var window := RecentTxs(txs, today);
    SumOfIndicator(window, SuccessWeight);
    PercentOrNullBounds(SumOf(window, SuccessWeight), |window|);
    SumOfIndicator(subs, CancelledWeight);
    PercentOrNullBounds(SumOf(subs, CancelledWeight), |subs|);
    SummaryRow(
      |active|,
      SumOrNull(active, MrrAmount),
      AvgOrNull(Where(window, IsSuccessTx), TxAmount),
      PercentOrNull(SumOf(window, SuccessWeight), |window|),
      Coalesce(PercentOrNull(SumOf(subs, CancelledWeight), |subs|), 0.0))
  }

  /** The returned dictionary, one field per key. */
  datatype ExecutiveSummary = ExecutiveSummary(
    activeSubscriptions: int,
    mrr: real,
    avgTransactionValue: real,
    paymentSuccessRate: real,
    churnRate: real)

  /** AVG over cents, read in currency units. */
  function AvgInDollars(a: Option<real>): Option<real>
  {
    match a
    case None => None
    case Some(v) => Some(v / 100.0)
  }

  /** executive_metrics(). */
  function ExecutiveMetrics(subs: seq<Subscription>, txs: seq<Transaction>, today: Date): (m: ExecutiveSummary)
    ensures 0 <= m.activeSubscriptions <= |subs|
    ensures 0.0 <= m.paymentSuccessRate <= 100.0
    ensures 0.0 <= m.churnRate <= 100.0
    ensures SummaryQuery(subs, txs, today).totalMrr.None? ==> m.mrr == 0.0
    ensures SummaryQuery(subs, txs, today).avgTx.None? ==> m.avgTransactionValue == 0.0
    ensures SummaryQuery(subs, txs, today).successRate.None? ==> m.paymentSuccessRate == 0.0
  {
    var row := SummaryQuery(subs, txs, today);
    ExecutiveSummary(
      row.activeCount,
      OrZero(DollarsOrNull(row.totalMrr)),
      OrZero(AvgInDollars(row.avgTx)),
      OrZero(row.successRate),
      OrZero(Some(row.churnRate)))
  }

  /**
   * active_subscriptions counts the Active subscriptions (COUNT(*), so
   * a duplicated sub_id counts twice), and mrr is the SUM of their
   * mrr_amount, 0 when there is none.
   */
  lemma ActiveAndMrr(subs: seq<Subscription>, txs: seq<Transaction>, today: Date)
    ensures ExecutiveMetrics(subs, txs, today).activeSubscriptions == |Where(subs, IsActiveSub)|
    ensures 0 <= ExecutiveMetrics(subs, txs, today).activeSubscriptions <= |subs|
    ensures ExecutiveMetrics(subs, txs, today).mrr == Dollars(SumOf(Where(subs, IsActiveSub), MrrAmount))
  {
  }

  /**
   * payment_success_rate is the Success share of the last 30 days, in
   * [0, 100], and 0 exactly when none of them succeeded (or there is none).
   */
  lemma SuccessRate(subs: seq<Subscription>, txs: seq<Transaction>, today: Date)
    ensures var window := RecentTxs(txs, today);
      |window| > 0 ==>
        ExecutiveMetrics(subs, txs, today).paymentSuccessRate == Percent(SumOf(window, SuccessWeight), |window|)
    ensures 0.0 <= ExecutiveMetrics(subs, txs, today).paymentSuccessRate <= 100.0
    ensures ExecutiveMetrics(subs, txs, today).paymentSuccessRate == 0.0
            <==> SumOf(RecentTxs(txs, today), SuccessWeight) == 0
  {
    var window := RecentTxs(txs, today);
    if |window| > 0 {
      SumOfIndicator(window, SuccessWeight);
      PercentBounds(SumOf(window, SuccessWeight), |window|);
      PercentZero(SumOf(window, SuccessWeight), |window|);
    } else {
      assert SumOf(window, SuccessWeight) == 0;
    }
  }

  /**
   * churn_rate is the Cancelled share of all subscriptions, in [0, 100], and
   * 0 exactly when no subscription is Cancelled (or there is none).
   */
  lemma ChurnRate(subs: seq<Subscription>, txs: seq<Transaction>, today: Date)
    ensures |subs| > 0 ==>
              ExecutiveMetrics(subs, txs, today).churnRate == Percent(SumOf(subs, CancelledWeight), |subs|)
    ensures 0.0 <= ExecutiveMetrics(subs, txs, today).churnRate <= 100.0
    ensures ExecutiveMetrics(subs, txs, today).churnRate == 0.0 <==> SumOf(subs, CancelledWeight) == 0
  {
    if |subs| > 0 {
      SumOfIndicator(subs, CancelledWeight);
      PercentBounds(SumOf(subs, CancelledWeight), |subs|);
      PercentZero(SumOf(subs, CancelledWeight), |subs|);
    } else {
      assert SumOf(subs, CancelledWeight) == 0;
    }
  }

  /**
   * avg_transaction_value is the Success revenue of the last 30 days spread
   * over its Success transactions, and 0 when there is none.
   */
  lemma AverageValue(subs: seq<Subscription>, txs: seq<Transaction>, today: Date)
    ensures var successes := Where(RecentTxs(txs, today), IsSuccessTx);
      && (successes == [] ==> ExecutiveMetrics(subs, txs, today).avgTransactionValue == 0.0)
      && (successes != [] ==>
            ExecutiveMetrics(subs, txs, today).avgTransactionValue
            == Dollars(SumOf(successes, TxAmount)) / (|successes| as real))
  {
    var successes := Where(RecentTxs(txs, today), IsSuccessTx);
    if successes != [] {
      DivideInCents(SumOf(successes, TxAmount) as real, |successes| as real);
    }
  }
}
