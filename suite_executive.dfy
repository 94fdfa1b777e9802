/**
 * executive_metrics of src/payment_intelligence/etl_logic.py: five separate
 * queries whose results are written into a dictionary one key at a time,
 * each as `float(x) if x else 0`, so that a NULL and a zero both read as 0.
 * Amounts are reported in currency units (cents / 100).
 */
module SuiteExecutive {
  import opened Relational
  import opened Calendar
  import opened Records

  /** CASE WHEN status = 'Churned' .. on subscriptions. */
  function ChurnedSubWeight(s: Subscription): int { if s.status == "Churned" then 1 else 0 }

  /** current_mrr: SUM(mrr_amount) WHERE status = 'Active'. */
  function CurrentMrr(subs: seq<Subscription>): Option<real>
  {
    DollarsOrNull(SumOrNull(Where(subs, IsActiveSub), MrrAmount))
  }

  /** active_subs: COUNT(DISTINCT sub_id) WHERE status = 'Active'. */
  function ActiveSubCount(subs: seq<Subscription>): int
  {
    |Image(Where(subs, IsActiveSub), SubIdOf)|
  }

  /** success_rate over the last 30 days: NULL when there is no transaction in them. */
  function RecentSuccessRate(txs: seq<Transaction>, today: Date): Option<real>
  {
    var window := Recent(txs, today, 30);
    PercentOrNull(SumOf(window, SuccessWeight), |window|)
  }

  /** total_revenue: SUM(amount) WHERE status = 'Success'. */
  function RevenueSum(txs: seq<Transaction>): Option<real>
  {
    DollarsOrNull(SumOrNull(Where(txs, IsSuccessTx), TxAmount))
  }

  /** The subscriptions started in today's month: current_month_cohort. */
  function CurrentMonthCohort(subs: seq<Subscription>, today: Date): seq<Subscription>
  {
    Group(subs, SubMonth, MonthIndex(today))
  }

  /** churn_rate: churned / NULLIF(total_subs, 0) * 100 over the current month's cohort. */
  function CurrentChurnRate(subs: seq<Subscription>, today: Date): Option<real>
  {
    var cohort := CurrentMonthCohort(subs, today);
    PercentOrNull(SumOf(cohort, ChurnedSubWeight), |cohort|)
  }

  /** avg_tx_value: AVG(amount) WHERE status = 'Success'. */
  function AvgSuccessAmount(txs: seq<Transaction>): Option<real>
  {
    match AvgOrNull(Where(txs, IsSuccessTx), TxAmount)
    case None => None
    case Some(a) => Some(a / 100.0)
  }

  /** The six keys of the dictionary. */
  datatype Metric = Mrr | ActiveSubscriptions | PaymentSuccessRate | TotalRevenue | ChurnRate | AvgTransactionValue

  /** The key's text in the returned dictionary. */
  function KeyName(m: Metric): string
  {
    match m
    case Mrr => "mrr"
    case ActiveSubscriptions => "active_subscriptions"
    case PaymentSuccessRate => "payment_success_rate"
    case TotalRevenue => "total_revenue"
    case ChurnRate => "churn_rate"
    case AvgTransactionValue => "avg_transaction_value"
  }

  const AllMetrics: set<Metric> :=
    {Mrr, ActiveSubscriptions, PaymentSuccessRate, TotalRevenue, ChurnRate, AvgTransactionValue}

  /**
   * executive_metrics(): each query's result is stored under its key, with
   * NULL and zero read as 0.
   */
  method ExecutiveMetrics(subs: seq<Subscription>, txs: seq<Transaction>, today: Date)
    returns (metrics: map<Metric, real>)
    ensures metrics.Keys == AllMetrics
    ensures metrics[Mrr] == Dollars(SumOf(Where(subs, IsActiveSub), MrrAmount))
    ensures metrics[ActiveSubscriptions] == ActiveSubCount(subs) as real
    ensures metrics[PaymentSuccessRate] == Coalesce(RecentSuccessRate(txs, today), 0.0)
    ensures metrics[TotalRevenue] == Dollars(SumOf(txs, SuccessAmount))
    ensures metrics[ChurnRate] == Coalesce(CurrentChurnRate(subs, today), 0.0)
    ensures metrics[AvgTransactionValue] == Coalesce(AvgSuccessAmount(txs), 0.0)
  {
    metrics := map[];

    var mrr := CurrentMrr(subs);
    metrics := metrics[Mrr := OrZero(mrr)];
    MrrIsActiveSum(subs);

    var active := ActiveSubCount(subs);
    metrics := metrics[ActiveSubscriptions := OrZero(Some(active as real))];

    var successRate := RecentSuccessRate(txs, today);
    metrics := metrics[PaymentSuccessRate := OrZero(successRate)];
    OrZeroIsCoalesce(successRate);

    var totalRevenue := RevenueSum(txs);
    metrics := metrics[TotalRevenue := OrZero(totalRevenue)];
    RevenueIsSuccessSum(txs);

    var churnRate := CurrentChurnRate(subs, today);
    metrics := metrics[ChurnRate := OrZero(churnRate)];
    OrZeroIsCoalesce(churnRate);

    var avgValue := AvgSuccessAmount(txs);
    metrics := metrics[AvgTransactionValue := OrZero(avgValue)];
    OrZeroIsCoalesce(avgValue);
  }

  /** mrr is the SUM of mrr_amount over Active subscriptions, 0 when there is none. */
  lemma MrrIsActiveSum(subs: seq<Subscription>)
    ensures OrZero(CurrentMrr(subs)) == Dollars(SumOf(Where(subs, IsActiveSub), MrrAmount))
  {
  }

  /**
   * total_revenue is the SUM of amount over Success transactions, 0 when
   * there is none.
   */
  lemma RevenueIsSuccessSum(txs: seq<Transaction>)
    ensures OrZero(RevenueSum(txs)) == Dollars(SumOf(txs, SuccessAmount))
  {
    SuccessAmountOfSuccesses(txs);
    SumOfWhere(txs, IsSuccessTx, SuccessAmount);
  }

  /** On the Success rows, SuccessAmount is the amount. */
  lemma {:induction false} SuccessAmountOfSuccesses(txs: seq<Transaction>)
    ensures SumOf(Where(txs, IsSuccessTx), SuccessAmount) == SumOf(Where(txs, IsSuccessTx), TxAmount)
  {
    var s := Where(txs, IsSuccessTx);
    forall i | 0 <= i < |s| ensures SuccessAmount(s[i]) == TxAmount(s[i]) {
      assert s[i] in s;
    }
    SumOfSameWeight(s, SuccessAmount, TxAmount);
  }

  lemma {:induction false} SumOfSameWeight(s: seq<Transaction>, w1: Transaction -> int, w2: Transaction -> int)
    requires forall i :: 0 <= i < |s| ==> w1(s[i]) == w2(s[i])
    ensures SumOf(s, w1) == SumOf(s, w2)
  {
    if s != [] {
      SumOfSameWeight(s[1..], w1, w2);
    }
  }

  /**
   * avg_transaction_value is total_revenue spread over the Success
   * transactions, and it is NULL (read as 0) exactly when there is none.
   */
  lemma AverageIsRevenuePerSuccess(txs: seq<Transaction>)
    ensures AvgSuccessAmount(txs).None? <==> Where(txs, IsSuccessTx) == []
    ensures AvgSuccessAmount(txs).Some? ==>
              AvgSuccessAmount(txs).value
              == Dollars(SumOf(txs, SuccessAmount)) / (|Where(txs, IsSuccessTx)| as real)
  {
    var s := Where(txs, IsSuccessTx);
    SuccessAmountOfSuccesses(txs);
    SumOfWhere(txs, IsSuccessTx, SuccessAmount);
    if s != [] {
      AverageInDollars(s);
    }
  }

  /** AVG in cents, read in currency units, is the total in currency units over the count. */
  lemma AverageInDollars(s: seq<Transaction>)
    requires s != []
    ensures AvgOrNull(s, TxAmount).value / 100.0 == Dollars(SumOf(s, TxAmount)) / (|s| as real)
  {
    DivideInCents(SumOf(s, TxAmount) as real, |s| as real);
  }

  /**
   * payment_success_rate lies in [0, 100] and is NULL exactly when no
   * transaction falls in the last 30 days.
   */
  lemma SuccessRateBounds(txs: seq<Transaction>, today: Date)
    ensures RecentSuccessRate(txs, today).None? <==> |Recent(txs, today, 30)| == 0
    ensures 0.0 <= Coalesce(RecentSuccessRate(txs, today), 0.0) <= 100.0
  {
    var window := Recent(txs, today, 30);
    if |window| > 0 {
      SumOfIndicator(window, SuccessWeight);
      PercentBounds(SumOf(window, SuccessWeight), |window|);
    }
  }

  /**
   * churn_rate lies in [0, 100] and is NULL exactly when no subscription
   * started in today's month.
   */
  lemma ChurnRateBounds(subs: seq<Subscription>, today: Date)
    ensures CurrentChurnRate(subs, today).None? <==> forall s :: s in subs ==> SubMonth(s) != MonthIndex(today)
    ensures 0.0 <= Coalesce(CurrentChurnRate(subs, today), 0.0) <= 100.0
  {
    var cohort := CurrentMonthCohort(subs, today);
    if |cohort| > 0 {
      assert cohort[0] in cohort;
      SumOfIndicator(cohort, ChurnedSubWeight);
      PercentBounds(SumOf(cohort, ChurnedSubWeight), |cohort|);
    }
  }

  /** With sub_id a key, active_subscriptions counts the Active subscriptions. */
  lemma ActiveSubsCount(subs: seq<Subscription>)
    requires UniqueSubIds(subs)
    ensures ActiveSubCount(subs) == |Where(subs, IsActiveSub)|
  {
    WhereUnique(subs, IsActiveSub, SubIdOf);
    ImageOfUnique(Where(subs, IsActiveSub), SubIdOf);
  }
}
