/**
 * revenue_reconciliation of src/payment_intelligence/etl_logic.py: cash
 * collected per transaction month, revenue booked per subscription start
 * month (Active and Past Due), FULL OUTER JOIN on the month with COALESCE(.., 0)
 * on both sides, the latest 12 months first.
 */
module SuiteReconciliation {
  import opened Relational
  import opened Calendar
  import opened Records

  /** A monthly_cash row. */
  datatype CashRow = CashRow(month: int, cashCollected: int, successfulPayments: int, totalAttempts: int)

  /** A monthly_booked row. */
  datatype BookedRow = BookedRow(month: int, bookedRevenue: int, activeSubscriptions: int)

  function CashMonth(c: CashRow): int { c.month }
  function BookedMonth(b: BookedRow): int { b.month }

  function MonthlyCashRow(txs: seq<Transaction>, m: int): (r: CashRow)
    ensures r.month == m
  {
    var g := Group(txs, TxMonth, m);
    CashRow(m, SumOf(g, SuccessAmount), SumOf(g, SuccessWeight), |g|)
  }

  function CashRows(txs: seq<Transaction>, ks: seq<int>): (r: seq<CashRow>)
    ensures |r| == |ks|
    ensures forall i :: 0 <= i < |ks| ==> r[i] == MonthlyCashRow(txs, ks[i])
  {
    if ks == [] then [] else [MonthlyCashRow(txs, ks[0])] + CashRows(txs, ks[1..])
  }

  /** monthly_cash: GROUP BY DATE_TRUNC('month', tx_date) over all transactions. */
  function MonthlyCash(txs: seq<Transaction>): seq<CashRow>
  {
    CashRows(txs, Keys(txs, TxMonth))
  }

  /** WHERE s.status IN ('Active', 'Past Due'). */
  function IsBooked(s: Subscription): bool { s.status == "Active" || s.status == "Past Due" }

  function BookedSubs(subs: seq<Subscription>): seq<Subscription>
  {
    Where(subs, IsBooked)
  }

  function MonthlyBookedRow(booked: seq<Subscription>, m: int): (r: BookedRow)
    ensures r.month == m
  {
    var g := Group(booked, SubMonth, m);
    BookedRow(m, SumOf(g, MrrAmount), |Image(g, SubIdOf)|)
  }

  function BookedRows(booked: seq<Subscription>, ks: seq<int>): (r: seq<BookedRow>)
    ensures |r| == |ks|
    ensures forall i :: 0 <= i < |ks| ==> r[i] == MonthlyBookedRow(booked, ks[i])
  {
    if ks == [] then [] else [MonthlyBookedRow(booked, ks[0])] + BookedRows(booked, ks[1..])
  }

  /** monthly_booked: GROUP BY DATE_TRUNC('month', start_date) over the booked subscriptions. */
  function MonthlyBooked(subs: seq<Subscription>): seq<BookedRow>
  {
    var booked := BookedSubs(subs);
    BookedRows(booked, Keys(booked, SubMonth))
  }

  datatype ReconRow = ReconRow(
    month: int,
    cashCollected: int,
    bookedRevenue: int,
    variance: int,
    variancePct: Option<real>,
    successfulPayments: int,
    totalAttempts: int,
    activeSubscriptions: int)

  function ReconMonth(r: ReconRow): int { r.month }

  /** The final SELECT's columns from the month's cash and booked figures. */
  function MakeRow(month: int, cash: int, booked: int, successes: int, attempts: int, activeSubs: int): (r: ReconRow)
    ensures r.variance == cash - booked
    ensures r.variancePct.None? <==> booked == 0
  {
    ReconRow(month, cash, booked, cash - booked, PercentOrNull(cash - booked, booked), successes, attempts, activeSubs)
  }

  /** The final SELECT over one joined row: each missing side reads as 0. */
  function ReconRowOf(j: Joined<int, CashRow, BookedRow>): ReconRow
  {
    MakeRow(j.key,
            if j.left.Some? then j.left.value.cashCollected else 0,
            if j.right.Some? then j.right.value.bookedRevenue else 0,
            if j.left.Some? then j.left.value.successfulPayments else 0,
            if j.left.Some? then j.left.value.totalAttempts else 0,
            if j.right.Some? then j.right.value.activeSubscriptions else 0)
  }

  function ReconRows(js: seq<Joined<int, CashRow, BookedRow>>): (r: seq<ReconRow>)
    ensures |r| == |js|
    ensures forall i :: 0 <= i < |js| ==> r[i] == ReconRowOf(js[i])
  {
    if js == [] then [] else [ReconRowOf(js[0])] + ReconRows(js[1..])
  }

  function CashJoinBooked(txs: seq<Transaction>, subs: seq<Subscription>): seq<Joined<int, CashRow, BookedRow>>
  {
    FullOuterJoin(MonthlyCash(txs), MonthlyBooked(subs), CashMonth, BookedMonth)
  }

  /** Every month of the outer join, before ORDER BY .. LIMIT. */
  function AllMonths(txs: seq<Transaction>, subs: seq<Subscription>): seq<ReconRow>
  {
    ReconRows(CashJoinBooked(txs, subs))
  }

  /** ORDER BY month DESC. */
  predicate LaterMonth(a: ReconRow, b: ReconRow) { a.month >= b.month }

  lemma LaterMonthIsTotal()
    ensures TotalPreorder(LaterMonth)
  {
  }

  /** revenue_reconciliation(). */
  function RevenueReconciliation(txs: seq<Transaction>, subs: seq<Subscription>): (r: seq<ReconRow>)
    ensures |r| <= 12
    ensures multiset(r) <= multiset(AllMonths(txs, subs))
    ensures SortedBy(r, LaterMonth)
  {
    LaterMonthIsTotal();
    TopN(AllMonths(txs, subs), LaterMonth, 12)
  }

  /**
   * The reconciliation of month m stated directly: the Success amounts of the
   * month's transactions against the MRR of the Active or Past Due
   * subscriptions that started in it.
   */
  function MonthReconciliation(txs: seq<Transaction>, subs: seq<Subscription>, m: int): ReconRow
  {
    var g := Group(txs, TxMonth, m);
    var b := Group(BookedSubs(subs), SubMonth, m);
    MakeRow(m, SumOf(g, SuccessAmount), SumOf(b, MrrAmount), SumOf(g, SuccessWeight), |g|, |Image(b, SubIdOf)|)
  }

  /** A month with a transaction or a booked subscription. */
  predicate HasActivity(txs: seq<Transaction>, subs: seq<Subscription>, m: int)
  {
    m in Keys(txs, TxMonth) || m in Keys(BookedSubs(subs), SubMonth)
  }

  lemma CashRowOfMonth(txs: seq<Transaction>, c: CashRow)
    requires c in MonthlyCash(txs)
    ensures c == MonthlyCashRow(txs, c.month) && c.month in Keys(txs, TxMonth)
  {
    var i := SeqIndexOf(MonthlyCash(txs), c);
  }

  lemma BookedRowOfMonth(subs: seq<Subscription>, b: BookedRow)
    requires b in MonthlyBooked(subs)
    ensures b == MonthlyBookedRow(BookedSubs(subs), b.month) && b.month in Keys(BookedSubs(subs), SubMonth)
  {
    var i := SeqIndexOf(MonthlyBooked(subs), b);
  }

  /** A month has a monthly_cash row exactly when it has a transaction. */
  lemma CashLookup(txs: seq<Transaction>, m: int)
    ensures Lookup(MonthlyCash(txs), CashMonth, m).None? <==> m !in Keys(txs, TxMonth)
  {
    var ks := Keys(txs, TxMonth);
    if m in ks {
      var i := SeqIndexOf(ks, m);
      assert CashMonth(MonthlyCash(txs)[i]) == m;
    }
  }

  lemma BookedLookup(subs: seq<Subscription>, m: int)
    ensures Lookup(MonthlyBooked(subs), BookedMonth, m).None? <==> m !in Keys(BookedSubs(subs), SubMonth)
  {
    var ks := Keys(BookedSubs(subs), SubMonth);
    if m in ks {
      var i := SeqIndexOf(ks, m);
      assert BookedMonth(MonthlyBooked(subs)[i]) == m;
    }
  }

  /** COALESCE(c.., 0) of the cash side of month m is the sum over the month's transactions. */
  lemma CashSide(txs: seq<Transaction>, c: Option<CashRow>, m: int)
    requires c.Some? ==> c.value in MonthlyCash(txs) && c.value.month == m
    requires c.None? ==> Lookup(MonthlyCash(txs), CashMonth, m).None?
    ensures (if c.Some? then c.value.cashCollected else 0) == SumOf(Group(txs, TxMonth, m), SuccessAmount)
    ensures (if c.Some? then c.value.successfulPayments else 0) == SumOf(Group(txs, TxMonth, m), SuccessWeight)
    ensures (if c.Some? then c.value.totalAttempts else 0) == |Group(txs, TxMonth, m)|
    ensures c.Some? ==> m in Keys(txs, TxMonth)
  {
    if c.Some? {
      CashRowOfMonth(txs, c.value);
    } else {
      CashLookup(txs, m);
      GroupOfNonKey(txs, TxMonth, m);
    }
  }

  /** COALESCE(b.., 0) of the booked side of month m is the sum over the month's booked starts. */
  lemma BookedSide(subs: seq<Subscription>, b: Option<BookedRow>, m: int)
    requires b.Some? ==> b.value in MonthlyBooked(subs) && b.value.month == m
    requires b.None? ==> Lookup(MonthlyBooked(subs), BookedMonth, m).None?
    ensures (if b.Some? then b.value.bookedRevenue else 0) == SumOf(Group(BookedSubs(subs), SubMonth, m), MrrAmount)
    ensures (if b.Some? then b.value.activeSubscriptions else 0) == |Image(Group(BookedSubs(subs), SubMonth, m), SubIdOf)|
    ensures b.Some? ==> m in Keys(BookedSubs(subs), SubMonth)
  {
    if b.Some? {
      BookedRowOfMonth(subs, b.value);
    } else {
      BookedLookup(subs, m);
      GroupOfNonKey(BookedSubs(subs), SubMonth, m);
    }
  }

  /**
   * COALESCE(.., 0) on a missing side agrees with summing over that month's
   * empty group: every joined row is the direct reconciliation of its month.
   */
  lemma JoinedRowIsMonth(txs: seq<Transaction>, subs: seq<Subscription>, j: Joined<int, CashRow, BookedRow>)
    requires j in CashJoinBooked(txs, subs)
    ensures ReconRowOf(j) == MonthReconciliation(txs, subs, j.key)
    ensures HasActivity(txs, subs, j.key)
  {
    var cash, booked := MonthlyCash(txs), MonthlyBooked(subs);
    assert j in FullOuterJoin(cash, booked, CashMonth, BookedMonth);
    assert j.left.Some? || j.right.Some?;
    assert j.left.Some? ==> j.left.value in cash && CashMonth(j.left.value) == j.key;
    assert j.left.None? ==> Lookup(cash, CashMonth, j.key).None?;
    assert j.right.Some? ==> j.right.value in booked && BookedMonth(j.right.value) == j.key;
    assert j.right.None? ==> Lookup(booked, BookedMonth, j.key).None?;
    CashSide(txs, j.left, j.key);
    BookedSide(subs, j.right, j.key);
  }

  /**
   * The outer union: the rows before the LIMIT are exactly the direct
   * reconciliations of the months with activity on either side, one per month.
   */
  lemma AllMonthsExact(txs: seq<Transaction>, subs: seq<Subscription>, row: ReconRow)
    requires row in AllMonths(txs, subs)
    ensures row == MonthReconciliation(txs, subs, row.month)
    ensures HasActivity(txs, subs, row.month)
  {
    var js := CashJoinBooked(txs, subs);
    var i := SeqIndexOf(AllMonths(txs, subs), row);
    assert js[i] in js;
    JoinedRowIsMonth(txs, subs, js[i]);
  }

  lemma {:induction false} MonthReported(txs: seq<Transaction>, subs: seq<Subscription>, m: int)
    requires HasActivity(txs, subs, m)
    ensures MonthReconciliation(txs, subs, m) in AllMonths(txs, subs)
  {
    var js := CashJoinBooked(txs, subs);
    var j: Joined<int, CashRow, BookedRow>;
    if m in Keys(txs, TxMonth) {
      var ks := Keys(txs, TxMonth);
      var k := SeqIndexOf(ks, m);
      var c := MonthlyCash(txs)[k];
      assert c in MonthlyCash(txs);
      j := Joined(m, Some(c), Lookup(MonthlyBooked(subs), BookedMonth, m));
    } else {
      var ks := Keys(BookedSubs(subs), SubMonth);
      var k := SeqIndexOf(ks, m);
      var b := MonthlyBooked(subs)[k];
      assert b in MonthlyBooked(subs);
      CashLookup(txs, m);
      j := Joined(m, None, Some(b));
    }
    assert j in js;
    JoinedRowIsMonth(txs, subs, j);
    var p := SeqIndexOf(js, j);
    assert AllMonths(txs, subs)[p] == ReconRowOf(j);
  }

  /**
   * The reported row of a month: cash is the Success amount of its
   * transactions, booked the MRR of its Active / Past Due starts, a side
   * without rows reads as 0, variance is their difference and variance_pct is
   * NULL exactly when nothing is booked.
   */
  lemma MonthFigures(txs: seq<Transaction>, subs: seq<Subscription>, m: int)
    ensures MonthReconciliation(txs, subs, m).cashCollected == SumOf(Group(txs, TxMonth, m), SuccessAmount)
    ensures MonthReconciliation(txs, subs, m).bookedRevenue
            == SumOf(Group(Where(subs, IsBooked), SubMonth, m), MrrAmount)
    ensures m !in Keys(txs, TxMonth) ==> MonthReconciliation(txs, subs, m).cashCollected == 0
    ensures m !in Keys(BookedSubs(subs), SubMonth) ==> MonthReconciliation(txs, subs, m).bookedRevenue == 0
    ensures MonthReconciliation(txs, subs, m).variance
            == MonthReconciliation(txs, subs, m).cashCollected - MonthReconciliation(txs, subs, m).bookedRevenue
    ensures MonthReconciliation(txs, subs, m).variancePct.None? <==> MonthReconciliation(txs, subs, m).bookedRevenue == 0
  {
    if m !in Keys(txs, TxMonth) {
      GroupOfNonKey(txs, TxMonth, m);
    }
    if m !in Keys(BookedSubs(subs), SubMonth) {
      GroupOfNonKey(BookedSubs(subs), SubMonth, m);
    }
  }

  /** Each month of the union once in AllMonths. */
  lemma AllMonthsUnique(txs: seq<Transaction>, subs: seq<Subscription>)
    ensures UniqueBy(AllMonths(txs, subs), ReconMonth)
  {
    var cash := MonthlyCash(txs);
    var booked := MonthlyBooked(subs);
    assert UniqueBy(cash, CashMonth) by {
      var ks := Keys(txs, TxMonth);
      forall i, j | 0 <= i < j < |cash| ensures CashMonth(cash[i]) != CashMonth(cash[j]) {
        assert cash[i].month == ks[i] && cash[j].month == ks[j];
      }
    }
    assert UniqueBy(booked, BookedMonth) by {
      var ks := Keys(BookedSubs(subs), SubMonth);
      forall i, j | 0 <= i < j < |booked| ensures BookedMonth(booked[i]) != BookedMonth(booked[j]) {
        assert booked[i].month == ks[i] && booked[j].month == ks[j];
      }
    }
    FullOuterJoinUnique(cash, booked, CashMonth, BookedMonth);
    var js := CashJoinBooked(txs, subs);
    var rows := AllMonths(txs, subs);
    forall i, j | 0 <= i < j < |rows| ensures ReconMonth(rows[i]) != ReconMonth(rows[j]) {
      assert JoinedKey(js[i]) != JoinedKey(js[j]);
    }
  }

  /** At most 12 rows, one per month, in strictly descending month order. */
  lemma ReconOrder(txs: seq<Transaction>, subs: seq<Subscription>)
    ensures |RevenueReconciliation(txs, subs)| <= 12
    ensures forall i, j :: 0 <= i < j < |RevenueReconciliation(txs, subs)| ==>
              RevenueReconciliation(txs, subs)[i].month > RevenueReconciliation(txs, subs)[j].month
  {
    var r := RevenueReconciliation(txs, subs);
    LaterMonthIsTotal();
    AllMonthsUnique(txs, subs);
    UniqueBySubBag(r, AllMonths(txs, subs), ReconMonth);
    forall i, j | 0 <= i < j < |r| ensures r[i].month > r[j].month {
      assert LaterMonth(r[i], r[j]);
      assert ReconMonth(r[i]) != ReconMonth(r[j]);
    }
  }

  /**
   * The reported months are the latest ones: a month with activity on either
   * side is reported, or all 12 rows are used by later months.
   */
  lemma LatestMonths(txs: seq<Transaction>, subs: seq<Subscription>, m: int)
    requires HasActivity(txs, subs, m)
    ensures MonthReconciliation(txs, subs, m) in RevenueReconciliation(txs, subs)
            || (|RevenueReconciliation(txs, subs)| == 12
                && forall row :: row in RevenueReconciliation(txs, subs) ==> row.month > m)
  {
    var row0 := MonthReconciliation(txs, subs, m);
    MonthReported(txs, subs, m);
    if row0 !in RevenueReconciliation(txs, subs) {
      LaterMonthIsTotal();
      TopNDropped(AllMonths(txs, subs), LaterMonth, 12, row0);
      forall row | row in RevenueReconciliation(txs, subs) ensures row.month > m {
        LaterThanDropped(txs, subs, row, m);
      }
    }
  }

  lemma LaterThanDropped(txs: seq<Transaction>, subs: seq<Subscription>, row: ReconRow, m: int)
    requires row in RevenueReconciliation(txs, subs)
    requires MonthReconciliation(txs, subs, m) !in RevenueReconciliation(txs, subs)
    requires row.month >= m
    ensures row.month > m
  {
    TopNMember(AllMonths(txs, subs), LaterMonth, 12, row);
    AllMonthsExact(txs, subs, row);
  }
}
