/**
 * calculate_monthly_churn_rate of payment_intelligence/etl_logic.py: the
 * subscriptions started in the last 12 months grouped by start month, the
 * Cancelled share of each month and its complement, oldest month first.
 */
module OptimizedChurn {
  import opened Relational
  import opened Calendar
  import opened Records

  function CancelledWeight(s: Subscription): int { if s.status == "Cancelled" then 1 else 0 }

  datatype ChurnRow = ChurnRow(
    cohortMonth: int,
    totalSubs: int,
    churned: int,
    churnRatePct: Option<real>,
    retentionRatePct: Option<real>)

  function RowMonth(r: ChurnRow): int { r.cohortMonth }
  function RowTotal(r: ChurnRow): int { r.totalSubs }

  /** The subscriptions of monthly_stats: started in the last 12 months. */
  function Window(subs: seq<Subscription>, today: Date): seq<Subscription>
  {
    Where(subs, StartedWithin(today, 12))
  }

  /** 100 - x, NULL when x is NULL. */
  function Complement(x: Option<real>): (r: Option<real>)
    ensures r.None? <==> x.None?
    ensures r.Some? ==> r.value + x.value == 100.0
  {
    match x
    case None => None
    case Some(v) => Some(100.0 - v)
  }

  /** The row of start month m, with the final SELECT's two rates. */
  function MonthRow(window: seq<Subscription>, m: int): (r: ChurnRow)
    ensures r.cohortMonth == m
    ensures r.totalSubs == |Group(window, SubMonth, m)|
  {
    var g := Group(window, SubMonth, m);
    var churned := SumOf(g, CancelledWeight);
    var churnRate := PercentOrNull(churned, |g|);
    ChurnRow(m, |g|, churned, churnRate, Complement(churnRate))
  }

  function MonthRows(window: seq<Subscription>, ks: seq<int>): (r: seq<ChurnRow>)
    ensures |r| == |ks|
    ensures forall i :: 0 <= i < |ks| ==> r[i] == MonthRow(window, ks[i])
  {
    if ks == [] then [] else [MonthRow(window, ks[0])] + MonthRows(window, ks[1..])
  }

  /** monthly_stats: one row per start month present in the window. */
  function MonthlyStats(subs: seq<Subscription>, today: Date): seq<ChurnRow>
  {
    var window := Window(subs, today);
    MonthRows(window, Keys(window, SubMonth))
  }

  /** ORDER BY cohort_month. */
  predicate EarlierMonth(a: ChurnRow, b: ChurnRow) { a.cohortMonth <= b.cohortMonth }

  lemma EarlierMonthIsTotal()
    ensures TotalPreorder(EarlierMonth)
  {
  }

  /** calculate_monthly_churn_rate(). */
  function MonthlyChurnRate(subs: seq<Subscription>, today: Date): (r: seq<ChurnRow>)
    ensures multiset(r) == multiset(MonthlyStats(subs, today))
    ensures SortedBy(r, EarlierMonth)
  {
    EarlierMonthIsTotal();
    SortBy(MonthlyStats(subs, today), EarlierMonth)
  }

  /** A reported row is the row of a start month that occurs in the window. */
  lemma RowIsMonth(subs: seq<Subscription>, today: Date, row: ChurnRow)
    requires row in MonthlyChurnRate(subs, today)
    ensures row == MonthRow(Window(subs, today), row.cohortMonth)
    ensures row.cohortMonth in Keys(Window(subs, today), SubMonth)
  {
    var window := Window(subs, today);
    var ks := Keys(window, SubMonth);
    assert row in multiset(MonthlyChurnRate(subs, today));
    var i := SeqIndexOf(MonthRows(window, ks), row);
    assert row == MonthRow(window, ks[i]);
  }

  /**
   * Every row counts at least one subscription, so neither rate is NULL;
   * the churn rate is the Cancelled share in [0, 100], the retention rate
   * is its complement, and the month is at most 12 months before today's.
   */
  lemma RowFacts(subs: seq<Subscription>, today: Date, row: ChurnRow)
    requires row in MonthlyChurnRate(subs, today)
    ensures 0 <= row.churned <= row.totalSubs && row.totalSubs > 0
    ensures row.churnRatePct == Some(Percent(row.churned, row.totalSubs))
    ensures row.retentionRatePct.Some?
    ensures row.churnRatePct.value + row.retentionRatePct.value == 100.0
    ensures 0.0 <= row.churnRatePct.value <= 100.0 && 0.0 <= row.retentionRatePct.value <= 100.0
    ensures row.cohortMonth >= MonthIndex(today) - 12
  {
    var window := Window(subs, today);
    RowIsMonth(subs, today, row);
    var g := Group(window, SubMonth, row.cohortMonth);
    SumOfIndicator(g, CancelledWeight);
    PercentBounds(row.churned, row.totalSubs);
    assert g[0] in g;
    WithinMonthsByMonth(g[0].startDate, today, 12);
  }

  lemma MonthlyStatsUnique(subs: seq<Subscription>, today: Date)
    ensures UniqueBy(MonthlyStats(subs, today), RowMonth)
  {
    var window := Window(subs, today);
    var ks := Keys(window, SubMonth);
    var rows := MonthRows(window, ks);
    forall i, j | 0 <= i < j < |rows| ensures RowMonth(rows[i]) != RowMonth(rows[j]) {
      assert rows[i].cohortMonth == ks[i] && rows[j].cohortMonth == ks[j];
    }
  }

  /** One row per start month, in strictly ascending month order. */
  lemma Ordered(subs: seq<Subscription>, today: Date)
    ensures multiset(MonthlyChurnRate(subs, today)) == multiset(MonthlyStats(subs, today))
    ensures forall i, j :: 0 <= i < j < |MonthlyChurnRate(subs, today)| ==>
              MonthlyChurnRate(subs, today)[i].cohortMonth < MonthlyChurnRate(subs, today)[j].cohortMonth
  {
    var r := MonthlyChurnRate(subs, today);
    EarlierMonthIsTotal();
    MonthlyStatsUnique(subs, today);
    UniqueBySubBag(r, MonthlyStats(subs, today), RowMonth);
    forall i, j | 0 <= i < j < |r| ensures r[i].cohortMonth < r[j].cohortMonth {
      assert EarlierMonth(r[i], r[j]);
      assert RowMonth(r[i]) != RowMonth(r[j]);
    }
  }

  /** The start month of every subscription of the last 12 months has its row. */
  lemma MonthReported(subs: seq<Subscription>, today: Date, s: Subscription)
    requires s in subs && WithinMonths(s.startDate, today, 12)
    ensures MonthRow(Window(subs, today), SubMonth(s)) in MonthlyChurnRate(subs, today)
  {
    var window := Window(subs, today);
    var ks := Keys(window, SubMonth);
    assert s in window;
    var i := SeqIndexOf(ks, SubMonth(s));
    assert MonthRows(window, ks)[i] == MonthRow(window, SubMonth(s));
    assert MonthRow(window, SubMonth(s)) in multiset(MonthlyStats(subs, today));
  }

  lemma {:induction false} MonthRowsTotal(window: seq<Subscription>, ks: seq<int>)
    ensures SumOf(MonthRows(window, ks), RowTotal) == SumGroups(ks, window, SubMonth, SubOne)
  {
    if ks != [] {
      MonthRowsTotal(window, ks[1..]);
      SumOfOnes(Group(window, SubMonth, ks[0]), SubOne);
      assert MonthRows(window, ks)[1..] == MonthRows(window, ks[1..]);
    }
  }

  /** The months' total_subs add up to the subscriptions of the last 12 months. */
  lemma TotalsAddUp(subs: seq<Subscription>, today: Date)
    ensures SumOf(MonthlyChurnRate(subs, today), RowTotal) == |Window(subs, today)|
  {
    var window := Window(subs, today);
    var ks := Keys(window, SubMonth);
    MonthRowsTotal(window, ks);
    Partition(ks, window, SubMonth, SubOne);
    SumOfOnes(window, SubOne);
    SortBySum(MonthlyStats(subs, today), EarlierMonth, RowTotal);
  }
}
