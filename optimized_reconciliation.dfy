/**
 * revenue_reconciliation of payment_intelligence/etl_logic.py: cash
 * collected per transaction month (Success transactions only), revenue
 * booked per subscription start month (Active only), FULL OUTER JOIN on the
 * month with no COALESCE, so that a month missing on one side has NULL
 * figures on that side and a NULL variance; the latest 12 months first.
 */
module OptimizedReconciliation {
  import opened Relational
  import opened Calendar
  import opened Records

  /** A monthly_cash row. */
  datatype CashRow = CashRow(month: int, cashCollected: int, successfulPayments: int)

  /** A monthly_revenue row. */
  datatype RevenueRow = RevenueRow(month: int, bookedRevenue: int)

  function CashMonth(c: CashRow): int { c.month }
  function RevenueMonth(b: RevenueRow): int { b.month }

  /** The Success transactions monthly_cash reads. */
  function Successes(txs: seq<Transaction>): seq<Transaction>
  {
    Where(txs, IsSuccessTx)
  }

  /** The Active subscriptions monthly_revenue reads. */
  function ActiveSubs(subs: seq<Subscription>): seq<Subscription>
  {
    Where(subs, IsActiveSub)
  }

  function MonthlyCashRow(successes: seq<Transaction>, m: int): (r: CashRow)
    ensures r.month == m
  {
    var g := Group(successes, TxMonth, m);
    CashRow(m, SumOf(g, TxAmount), |g|)
  }

  function CashRows(successes: seq<Transaction>, ks: seq<int>): (r: seq<CashRow>)
    ensures |r| == |ks|
    ensures forall i :: 0 <= i < |ks| ==> r[i] == MonthlyCashRow(successes, ks[i])
  {
    if ks == [] then [] else [MonthlyCashRow(successes, ks[0])] + CashRows(successes, ks[1..])
  }

  /** monthly_cash: GROUP BY DATE_TRUNC('month', tx_date) over the Success transactions. */
  function MonthlyCash(txs: seq<Transaction>): seq<CashRow>
  {
    var s := Successes(txs);
    CashRows(s, Keys(s, TxMonth))
  }

  function MonthlyRevenueRow(active: seq<Subscription>, m: int): (r: RevenueRow)
    ensures r.month == m
  {
    RevenueRow(m, SumOf(Group(active, SubMonth, m), MrrAmount))
  }

  function RevenueRows(active: seq<Subscription>, ks: seq<int>): (r: seq<RevenueRow>)
    ensures |r| == |ks|
    ensures forall i :: 0 <= i < |ks| ==> r[i] == MonthlyRevenueRow(active, ks[i])
  {
    if ks == [] then [] else [MonthlyRevenueRow(active, ks[0])] + RevenueRows(active, ks[1..])
  }

  /** monthly_revenue: GROUP BY DATE_TRUNC('month', start_date) over the Active subscriptions. */
  function MonthlyRevenue(subs: seq<Subscription>): seq<RevenueRow>
  {
    var a := ActiveSubs(subs);
    RevenueRows(a, Keys(a, SubMonth))
  }

  datatype ReconRow = ReconRow(
    month: int,
    cashCollected: Option<int>,
    bookedRevenue: Option<int>,
    variance: Option<int>,
    variancePct: Option<real>,
    successfulPayments: Option<int>)

  function ReconMonth(r: ReconRow): int { r.month }

  /** c.cash_collected - r.booked_revenue: NULL when either side is. */
  function Minus(cash: Option<int>, booked: Option<int>): (v: Option<int>)
    ensures v.Some? <==> cash.Some? && booked.Some?
    ensures v.Some? ==> v.value + booked.value == cash.value
  {
    if cash.Some? && booked.Some? then Some(cash.value - booked.value) else None
  }

  /** (c.cash_collected - r.booked_revenue) / NULLIF(r.booked_revenue, 0) * 100. */
  function VariancePct(cash: Option<int>, booked: Option<int>): (p: Option<real>)
    ensures p.None? <==> cash.None? || booked.None? || booked.value == 0
  {
    if cash.Some? && booked.Some? && booked.value != 0
    then Some(Percent(cash.value - booked.value, booked.value))
    else None
  }

  /** The final SELECT's columns from the month's two (nullable) sides. */
  function MakeRow(month: int, cash: Option<int>, booked: Option<int>, successes: Option<int>): ReconRow
  {
    ReconRow(month, cash, booked, Minus(cash, booked), VariancePct(cash, booked), successes)
  }

  function CashOf(c: Option<CashRow>): Option<int>
  {
    if c.Some? then Some(c.value.cashCollected) else None
  }

  function PaymentsOf(c: Option<CashRow>): Option<int>
  {
    if c.Some? then Some(c.value.successfulPayments) else None
  }

  function BookedOf(b: Option<RevenueRow>): Option<int>
  {
    if b.Some? then Some(b.value.bookedRevenue) else None
  }

  /** The final SELECT over one joined row, month = COALESCE(c.month, r.month). */
  function ReconRowOf(j: Joined<int, CashRow, RevenueRow>): ReconRow
  {
    MakeRow(j.key, CashOf(j.left), BookedOf(j.right), PaymentsOf(j.left))
  }

  function ReconRows(js: seq<Joined<int, CashRow, RevenueRow>>): (r: seq<ReconRow>)
    ensures |r| == |js|
    ensures forall i :: 0 <= i < |js| ==> r[i] == ReconRowOf(js[i])
  {
    if js == [] then [] else [ReconRowOf(js[0])] + ReconRows(js[1..])
  }

  function CashJoinRevenue(txs: seq<Transaction>, subs: seq<Subscription>): seq<Joined<int, CashRow, RevenueRow>>
  {
    FullOuterJoin(MonthlyCash(txs), MonthlyRevenue(subs), CashMonth, RevenueMonth)
  }

  /** Every month of the outer join, before ORDER BY .. LIMIT. */
  function AllMonths(txs: seq<Transaction>, subs: seq<Subscription>): seq<ReconRow>
  {
    ReconRows(CashJoinRevenue(txs, subs))
  }

  /** ORDER BY month DESC. */
  predicate LaterMonth(a: ReconRow, b: ReconRow) { a.month >= b.month }

  lemma LaterMonthIsTotal()
    ensures TotalPreorder(LaterMonth)
  {
  }

  /** revenue_reconciliation(). */
  function RevenueReconciliation(txs: seq<Transaction>, subs: seq<Subscription>): (r: seq<ReconRow>)
    ensures |r| <= 12
    ensures multiset(r) <= multiset(AllMonths(txs, subs))
    ensures SortedBy(r, LaterMonth)
  {
    LaterMonthIsTotal();
    TopN(AllMonths(txs, subs), LaterMonth, 12)
  }

  /**
   * The reconciliation of month m stated directly: SUM and COUNT over the
   * month's Success transactions and SUM over the month's Active starts,
   * each NULL when its side has no row in that month.
   */
  function MonthReconciliation(txs: seq<Transaction>, subs: seq<Subscription>, m: int): ReconRow
  {
    var g := Group(Successes(txs), TxMonth, m);
    var b := Group(ActiveSubs(subs), SubMonth, m);
    MakeRow(m, SumOrNull(g, TxAmount), SumOrNull(b, MrrAmount), if g == [] then None else Some(|g|))
  }

  /** A month with a Success transaction or an Active subscription start. */
  predicate HasActivity(txs: seq<Transaction>, subs: seq<Subscription>, m: int)
  {
    m in Keys(Successes(txs), TxMonth) || m in Keys(ActiveSubs(subs), SubMonth)
  }

  lemma CashLookup(txs: seq<Transaction>, m: int)
    ensures Lookup(MonthlyCash(txs), CashMonth, m).None? <==> m !in Keys(Successes(txs), TxMonth)
  {
    var ks := Keys(Successes(txs), TxMonth);
    if m in ks {
      var i := SeqIndexOf(ks, m);
      assert CashMonth(MonthlyCash(txs)[i]) == m;
    }
  }

  lemma RevenueLookup(subs: seq<Subscription>, m: int)
    ensures Lookup(MonthlyRevenue(subs), RevenueMonth, m).None? <==> m !in Keys(ActiveSubs(subs), SubMonth)
  {
    var ks := Keys(ActiveSubs(subs), SubMonth);
    if m in ks {
      var i := SeqIndexOf(ks, m);
      assert RevenueMonth(MonthlyRevenue(subs)[i]) == m;
    }
  }

  /** The cash side of month m: the month's Success sums, NULL when it has none. */
  lemma CashSide(txs: seq<Transaction>, c: Option<CashRow>, m: int)
    requires c.Some? ==> c.value in MonthlyCash(txs) && c.value.month == m
    requires c.None? ==> Lookup(MonthlyCash(txs), CashMonth, m).None?
    ensures CashOf(c) == SumOrNull(Group(Successes(txs), TxMonth, m), TxAmount)
    ensures PaymentsOf(c) == (if Group(Successes(txs), TxMonth, m) == [] then None
                              else Some(|Group(Successes(txs), TxMonth, m)|))
    ensures c.Some? ==> m in Keys(Successes(txs), TxMonth)
  {
    var s := Successes(txs);
    if c.Some? {
      var i := SeqIndexOf(MonthlyCash(txs), c.value);
      var ks := Keys(s, TxMonth);
      assert ks[i] == m;
    } else {
      CashLookup(txs, m);
      GroupOfNonKey(s, TxMonth, m);
    }
  }

  /** The booked side of month m: the month's Active MRR, NULL when it has none. */
  lemma RevenueSide(subs: seq<Subscription>, b: Option<RevenueRow>, m: int)
    requires b.Some? ==> b.value in MonthlyRevenue(subs) && b.value.month == m
    requires b.None? ==> Lookup(MonthlyRevenue(subs), RevenueMonth, m).None?
    ensures BookedOf(b) == SumOrNull(Group(ActiveSubs(subs), SubMonth, m), MrrAmount)
    ensures b.Some? ==> m in Keys(ActiveSubs(subs), SubMonth)
  {
    var a := ActiveSubs(subs);
    if b.Some? {
      var i := SeqIndexOf(MonthlyRevenue(subs), b.value);
      var ks := Keys(a, SubMonth);
      assert ks[i] == m;
    } else {
      RevenueLookup(subs, m);
      GroupOfNonKey(a, SubMonth, m);
    }
  }

  /** Every joined row is the direct reconciliation of its month, and that month has activity. */
  lemma JoinedRowIsMonth(txs: seq<Transaction>, subs: seq<Subscription>, j: Joined<int, CashRow, RevenueRow>)
    requires j in CashJoinRevenue(txs, subs)
    ensures ReconRowOf(j) == MonthReconciliation(txs, subs, j.key)
    ensures HasActivity(txs, subs, j.key)
  {
    var cash, revenue := MonthlyCash(txs), MonthlyRevenue(subs);
    assert j in FullOuterJoin(cash, revenue, CashMonth, RevenueMonth);
    assert j.left.Some? || j.right.Some?;
    assert j.left.Some? ==> j.left.value in cash && CashMonth(j.left.value) == j.key;
    assert j.left.None? ==> Lookup(cash, CashMonth, j.key).None?;
    assert j.right.Some? ==> j.right.value in revenue && RevenueMonth(j.right.value) == j.key;
    assert j.right.None? ==> Lookup(revenue, RevenueMonth, j.key).None?;
    CashSide(txs, j.left, j.key);
    RevenueSide(subs, j.right, j.key);
  }

  /**
   * The rows before the LIMIT are exactly the direct reconciliations of the
   * months with activity on either side.
   */
  lemma AllMonthsExact(txs: seq<Transaction>, subs: seq<Subscription>, row: ReconRow)
    requires row in AllMonths(txs, subs)
    ensures row == MonthReconciliation(txs, subs, row.month)
    ensures HasActivity(txs, subs, row.month)
  {
    var js := CashJoinRevenue(txs, subs);
    var i := SeqIndexOf(AllMonths(txs, subs), row);
    assert js[i] in js;
    JoinedRowIsMonth(txs, subs, js[i]);
  }

  lemma {:induction false} MonthReported(txs: seq<Transaction>, subs: seq<Subscription>, m: int)
    requires HasActivity(txs, subs, m)
    ensures MonthReconciliation(txs, subs, m) in AllMonths(txs, subs)
  {
    var js := CashJoinRevenue(txs, subs);
    var j: Joined<int, CashRow, RevenueRow>;
    if m in Keys(Successes(txs), TxMonth) {
      var ks := Keys(Successes(txs), TxMonth);
      var k := SeqIndexOf(ks, m);
      var c := MonthlyCash(txs)[k];
      assert c in MonthlyCash(txs);
      j := Joined(m, Some(c), Lookup(MonthlyRevenue(subs), RevenueMonth, m));
    } else {
      var ks := Keys(ActiveSubs(subs), SubMonth);
      var k := SeqIndexOf(ks, m);
      var b := MonthlyRevenue(subs)[k];
      assert b in MonthlyRevenue(subs);
      CashLookup(txs, m);
      j := Joined(m, None, Some(b));
    }
    assert j in js;
    JoinedRowIsMonth(txs, subs, j);
    var p := SeqIndexOf(js, j);
    assert AllMonths(txs, subs)[p] == ReconRowOf(j);
  }

  /**
   * The figures of month m: cash is NULL exactly when the month has no
   * Success transaction, booked exactly when it has no Active start; the
   * variance is present exactly when both are, and is then their
   * difference; variance_pct is NULL exactly when either side is NULL or
   * nothing is booked.
   */
  lemma MonthFigures(txs: seq<Transaction>, subs: seq<Subscription>, m: int)
    ensures MonthReconciliation(txs, subs, m).cashCollected.None? <==> m !in Keys(Successes(txs), TxMonth)
    ensures MonthReconciliation(txs, subs, m).cashCollected.Some? ==>
              MonthReconciliation(txs, subs, m).cashCollected.value == SumOf(Group(Successes(txs), TxMonth, m), TxAmount)
    ensures MonthReconciliation(txs, subs, m).bookedRevenue.None? <==> m !in Keys(ActiveSubs(subs), SubMonth)
    ensures MonthReconciliation(txs, subs, m).bookedRevenue.Some? ==>
              MonthReconciliation(txs, subs, m).bookedRevenue.value == SumOf(Group(ActiveSubs(subs), SubMonth, m), MrrAmount)
    ensures MonthReconciliation(txs, subs, m).variance.Some?
            <==> m in Keys(Successes(txs), TxMonth) && m in Keys(ActiveSubs(subs), SubMonth)
    ensures MonthReconciliation(txs, subs, m).variance.Some? ==>
              MonthReconciliation(txs, subs, m).variance.value
              == MonthReconciliation(txs, subs, m).cashCollected.value - MonthReconciliation(txs, subs, m).bookedRevenue.value
    ensures MonthReconciliation(txs, subs, m).variancePct.None?
            <==> MonthReconciliation(txs, subs, m).variance.None?
                 || MonthReconciliation(txs, subs, m).bookedRevenue.value == 0
  {
    var g := Group(Successes(txs), TxMonth, m);
    var b := Group(ActiveSubs(subs), SubMonth, m);
    if m !in Keys(Successes(txs), TxMonth) {
      GroupOfNonKey(Successes(txs), TxMonth, m);
    }
    if m !in Keys(ActiveSubs(subs), SubMonth) {
      GroupOfNonKey(ActiveSubs(subs), SubMonth, m);
    }
  }

  /** Each month of the union once in AllMonths. */
  lemma AllMonthsUnique(txs: seq<Transaction>, subs: seq<Subscription>)
    ensures UniqueBy(AllMonths(txs, subs), ReconMonth)
  {
    var cash := MonthlyCash(txs);
    var revenue := MonthlyRevenue(subs);
    assert UniqueBy(cash, CashMonth) by {
      var ks := Keys(Successes(txs), TxMonth);
      forall i, j | 0 <= i < j < |cash| ensures CashMonth(cash[i]) != CashMonth(cash[j]) {
        assert cash[i].month == ks[i] && cash[j].month == ks[j];
      }
    }
    assert UniqueBy(revenue, RevenueMonth) by {
      var ks := Keys(ActiveSubs(subs), SubMonth);
      forall i, j | 0 <= i < j < |revenue| ensures RevenueMonth(revenue[i]) != RevenueMonth(revenue[j]) {
        assert revenue[i].month == ks[i] && revenue[j].month == ks[j];
      }
    }
    FullOuterJoinUnique(cash, revenue, CashMonth, RevenueMonth);
    var js := CashJoinRevenue(txs, subs);
    var rows := AllMonths(txs, subs);
    forall i, j | 0 <= i < j < |rows| ensures ReconMonth(rows[i]) != ReconMonth(rows[j]) {
      assert JoinedKey(js[i]) != JoinedKey(js[j]);
    }
  }

  /** At most 12 rows, one per month, in strictly descending month order. */
  lemma ReconOrder(txs: seq<Transaction>, subs: seq<Subscription>)
    ensures |RevenueReconciliation(txs, subs)| <= 12
    ensures forall i, j :: 0 <= i < j < |RevenueReconciliation(txs, subs)| ==>
              RevenueReconciliation(txs, subs)[i].month > RevenueReconciliation(txs, subs)[j].month
  {
    var r := RevenueReconciliation(txs, subs);
    LaterMonthIsTotal();
    AllMonthsUnique(txs, subs);
    UniqueBySubBag(r, AllMonths(txs, subs), ReconMonth);
    forall i, j | 0 <= i < j < |r| ensures r[i].month > r[j].month {
      assert LaterMonth(r[i], r[j]);
      assert ReconMonth(r[i]) != ReconMonth(r[j]);
    }
  }

  /**
   * The reported months are the latest ones: a month with activity on either
   * side is reported, or all 12 rows are used by later months.
   */
  lemma LatestMonths(txs: seq<Transaction>, subs: seq<Subscription>, m: int)
    requires HasActivity(txs, subs, m)
    ensures MonthReconciliation(txs, subs, m) in RevenueReconciliation(txs, subs)
            || (|RevenueReconciliation(txs, subs)| == 12
                && forall row :: row in RevenueReconciliation(txs, subs) ==> row.month > m)
  {
    var row0 := MonthReconciliation(txs, subs, m);
    MonthReported(txs, subs, m);
    if row0 !in RevenueReconciliation(txs, subs) {
      LaterMonthIsTotal();
      TopNDropped(AllMonths(txs, subs), LaterMonth, 12, row0);
      forall row | row in RevenueReconciliation(txs, subs) ensures row.month > m {
        LaterThanDropped(txs, subs, row, m);
      }
    }
  }

  lemma LaterThanDropped(txs: seq<Transaction>, subs: seq<Subscription>, row: ReconRow, m: int)
    requires row in RevenueReconciliation(txs, subs)
    requires MonthReconciliation(txs, subs, m) !in RevenueReconciliation(txs, subs)
    requires row.month >= m
    ensures row.month > m
  {
    TopNMember(AllMonths(txs, subs), LaterMonth, 12, row);
    AllMonthsExact(txs, subs, row);
  }
}
