/**
 * cohort_retention_analysis of payment_intelligence/etl_logic.py: every
 * subscription started in the last `cohort_months` months opens a cohort
 * entry (its user, its start month); every Active or Cancelled subscription
 * of the same user is placed at its month offset from that cohort month;
 * per (cohort month, offset) cell with an offset in [0, 12] the distinct
 * users are counted and compared with the count of the cohort's first
 * present offset (FIRST_VALUE .. ORDER BY months_since_signup); newest
 * cohort first, offsets ascending.
 */
module OptimizedRetention {
  import opened Relational
  import opened Calendar
  import opened Records

  /** One row of the `cohorts` CTE. */
  datatype CohortEntry = CohortEntry(userId: int, cohortMonth: int)

  function EntryOf(s: Subscription): CohortEntry { CohortEntry(s.userId, SubMonth(s)) }

  function Entries(ss: seq<Subscription>): (r: seq<CohortEntry>)
    ensures |r| == |ss|
    ensures forall i :: 0 <= i < |ss| ==> r[i] == EntryOf(ss[i])
  {
    if ss == [] then [] else [EntryOf(ss[0])] + Entries(ss[1..])
  }

  /** cohorts: the subscriptions with start_date >= CURRENT_DATE - INTERVAL 'n months'. */
  function Cohorts(subs: seq<Subscription>, today: Date, n: int): seq<CohortEntry>
  {
    Entries(Where(subs, StartedWithin(today, n)))
  }

  /** One row of the `sub_months` CTE. */
  datatype SubMonthRow = SubMonthRow(userId: int, cohortMonth: int, monthsSinceSignup: int)

  /** DATEDIFF('month', c.cohort_month, DATE_TRUNC('month', s.start_date)). */
  function Placed(s: Subscription, c: CohortEntry): SubMonthRow
  {
    SubMonthRow(s.userId, c.cohortMonth, SubMonth(s) - c.cohortMonth)
  }

  /** WHERE s.status IN ('Active', 'Cancelled'). */
  predicate IsRetainedStatus(s: Subscription) { s.status == "Active" || s.status == "Cancelled" }

  /** One subscription JOIN cohorts ON s.user_id = c.user_id. */
  function JoinSub(s: Subscription, cs: seq<CohortEntry>): seq<SubMonthRow>
  {
    if cs == [] then []
    else (if cs[0].userId == s.userId then [Placed(s, cs[0])] else []) + JoinSub(s, cs[1..])
  }

  /** The join of the `sub_months` CTE. */
  function JoinSubs(ss: seq<Subscription>, cs: seq<CohortEntry>): seq<SubMonthRow>
  {
    if ss == [] then [] else JoinSub(ss[0], cs) + JoinSubs(ss[1..], cs)
  }

  /** Each matching pair of a subscription and a cohort entry is joined. */
  lemma {:induction false} JoinSubHas(s: Subscription, cs: seq<CohortEntry>, c: CohortEntry)
    requires c in cs && c.userId == s.userId
    ensures Placed(s, c) in JoinSub(s, cs)
  {
    if cs[0] != c {
      JoinSubHas(s, cs[1..], c);
    }
  }

  lemma {:induction false} JoinSubsHas(ss: seq<Subscription>, cs: seq<CohortEntry>, s: Subscription, c: CohortEntry)
    requires s in ss && c in cs && c.userId == s.userId
    ensures Placed(s, c) in JoinSubs(ss, cs)
  {
    if ss[0] == s {
      JoinSubHas(s, cs, c);
    } else {
      JoinSubsHas(ss[1..], cs, s, c);
    }
  }

  /** Every joined row is a matching pair. */
  lemma {:induction false} JoinSubSource(s: Subscription, cs: seq<CohortEntry>, row: SubMonthRow) returns (c: CohortEntry)
    requires row in JoinSub(s, cs)
    ensures c in cs && c.userId == s.userId && row == Placed(s, c)
  {
    if cs[0].userId == s.userId && row == Placed(s, cs[0]) {
      c := cs[0];
    } else {
      c := JoinSubSource(s, cs[1..], row);
    }
  }

  lemma {:induction false} JoinSubsSource(ss: seq<Subscription>, cs: seq<CohortEntry>, row: SubMonthRow)
    returns (s: Subscription, c: CohortEntry)
    requires row in JoinSubs(ss, cs)
    ensures s in ss && c in cs && c.userId == s.userId && row == Placed(s, c)
  {
    if row in JoinSub(ss[0], cs) {
      s := ss[0];
      c := JoinSubSource(s, cs, row);
    } else {
      s, c := JoinSubsSource(ss[1..], cs, row);
    }
  }

  /** sub_months. */
  function SubMonths(subs: seq<Subscription>, today: Date, n: int): seq<SubMonthRow>
  {
    JoinSubs(Where(subs, IsRetainedStatus), Cohorts(subs, today, n))
  }

  /** WHERE months_since_signup BETWEEN 0 AND 12. */
  predicate InFirstYear(row: SubMonthRow) { 0 <= row.monthsSinceSignup <= 12 }

  /** The rows that reach GROUP BY. */
  function Placements(subs: seq<Subscription>, today: Date, n: int): seq<SubMonthRow>
  {
    Where(SubMonths(subs, today, n), InFirstYear)
  }

  /** GROUP BY cohort_month, months_since_signup. */
  datatype CellKey = CellKey(cohortMonth: int, monthsSinceSignup: int)

  function CellOf(row: SubMonthRow): CellKey { CellKey(row.cohortMonth, row.monthsSinceSignup) }
  function RowCohort(row: SubMonthRow): int { row.cohortMonth }
  function RowUser(row: SubMonthRow): int { row.userId }
  function RowOffset(row: SubMonthRow): int { row.monthsSinceSignup }

  /** COUNT(DISTINCT user_id) of one cell. */
  function Retained(ps: seq<SubMonthRow>, k: CellKey): int
  {
    |Image(Group(ps, CellOf, k), RowUser)|
  }

  /** The smallest offset among some rows: the first row of ORDER BY months_since_signup. */
  function FirstOffset(g: seq<SubMonthRow>): (o: int)
    requires g != []
    ensures exists i :: 0 <= i < |g| && g[i].monthsSinceSignup == o
    ensures forall i :: 0 <= i < |g| ==> o <= g[i].monthsSinceSignup
  {
    if |g| == 1 then g[0].monthsSinceSignup
    else
      var rest := FirstOffset(g[1..]);
      assert forall i :: 1 <= i < |g| ==> g[i] == g[1..][i - 1];
      if g[0].monthsSinceSignup <= rest then g[0].monthsSinceSignup else rest
  }

  /** The first cell of cohort m: its month and the first offset present. */
  function FirstCell(ps: seq<SubMonthRow>, m: int): CellKey
    requires Group(ps, RowCohort, m) != []
  {
    CellKey(m, FirstOffset(Group(ps, RowCohort, m)))
  }

  /** The first cell of a cohort that has a row is not empty. */
  lemma FirstCellPresent(ps: seq<SubMonthRow>, m: int)
    requires Group(ps, RowCohort, m) != []
    ensures Group(ps, CellOf, FirstCell(ps, m)) != []
    ensures Retained(ps, FirstCell(ps, m)) > 0
  {
    var g := Group(ps, RowCohort, m);
    var i :| 0 <= i < |g| && g[i].monthsSinceSignup == FirstOffset(g);
    assert g[i] in g;
    assert g[i] in Group(ps, CellOf, FirstCell(ps, m));
  }

  /** A non-empty cell lies in a non-empty cohort. */
  lemma CellInCohort(ps: seq<SubMonthRow>, k: CellKey)
    requires Group(ps, CellOf, k) != []
    ensures Group(ps, RowCohort, k.cohortMonth) != []
  {
    var g := Group(ps, CellOf, k);
    assert g[0] in g;
    assert g[0] in Group(ps, RowCohort, k.cohortMonth);
  }

  datatype RetentionRow = RetentionRow(
    cohortMonth: int,
    monthsSinceSignup: int,
    retainedUsers: int,
    retentionRatePct: real)

  function RowKey(r: RetentionRow): CellKey { CellKey(r.cohortMonth, r.monthsSinceSignup) }

  /** The output row of a non-empty cell. */
  function CellRow(ps: seq<SubMonthRow>, k: CellKey): (r: RetentionRow)
    requires Group(ps, CellOf, k) != []
    ensures RowKey(r) == k
    ensures r.retainedUsers == Retained(ps, k)
  {
    CellInCohort(ps, k);
    FirstCellPresent(ps, k.cohortMonth);
    var retained := Retained(ps, k);
    RetentionRow(k.cohortMonth, k.monthsSinceSignup, retained,
                 Percent(retained, Retained(ps, FirstCell(ps, k.cohortMonth))))
  }

  function CellRows(ps: seq<SubMonthRow>, ks: seq<CellKey>): (r: seq<RetentionRow>)
    requires forall i :: 0 <= i < |ks| ==> Group(ps, CellOf, ks[i]) != []
    ensures |r| == |ks|
  {
    if ks == [] then []
    else
      assert forall i :: 1 <= i < |ks| ==> ks[i] == ks[1..][i - 1];
      [CellRow(ps, ks[0])] + CellRows(ps, ks[1..])
  }

  /** The i-th grouped row is the row of the i-th cell. */
  lemma {:induction false} CellRowsAt(ps: seq<SubMonthRow>, ks: seq<CellKey>, i: nat)
    requires forall i :: 0 <= i < |ks| ==> Group(ps, CellOf, ks[i]) != []
    requires i < |ks|
    ensures CellRows(ps, ks)[i] == CellRow(ps, ks[i])
  {
    if i > 0 {
      var tail := ks[1..];
      forall j | 0 <= j < |tail| ensures Group(ps, CellOf, tail[j]) != [] {
        assert tail[j] == ks[j + 1];
      }
      CellRowsAt(ps, tail, i - 1);
      assert tail[i - 1] == ks[i];
    }
  }

  /** Every grouped row, before ORDER BY. */
  function AllCells(subs: seq<Subscription>, today: Date, n: int): seq<RetentionRow>
  {
    var ps := Placements(subs, today, n);
    CellRows(ps, Keys(ps, CellOf))
  }

  /** ORDER BY cohort_month DESC, months_since_signup. */
  predicate NewerCohortEarlierMonth(a: RetentionRow, b: RetentionRow)
  {
    a.cohortMonth > b.cohortMonth
    || (a.cohortMonth == b.cohortMonth && a.monthsSinceSignup <= b.monthsSinceSignup)
  }

  lemma NewerCohortEarlierMonthIsTotal()
    ensures TotalPreorder(NewerCohortEarlierMonth)
  {
  }

  /** cohort_retention_analysis(cohort_months). */
  function CohortRetentionAnalysis(subs: seq<Subscription>, today: Date, cohortMonths: int := 12): (r: seq<RetentionRow>)
    ensures multiset(r) == multiset(AllCells(subs, today, cohortMonths))
    ensures SortedBy(r, NewerCohortEarlierMonth)
  {
    NewerCohortEarlierMonthIsTotal();
    SortBy(AllCells(subs, today, cohortMonths), NewerCohortEarlierMonth)
  }

  // ---------------------------------------------------------------------------
  // Properties

  /** A reported row is the row of a non-empty cell. */
  lemma RowIsCell(subs: seq<Subscription>, today: Date, n: int, row: RetentionRow)
    requires row in CohortRetentionAnalysis(subs, today, n)
    ensures Group(Placements(subs, today, n), CellOf, RowKey(row)) != []
    ensures row == CellRow(Placements(subs, today, n), RowKey(row))
  {
    SortByMember(AllCells(subs, today, n), NewerCohortEarlierMonth, row);
    var ps := Placements(subs, today, n);
    CellRowsMember(ps, Keys(ps, CellOf), row);
  }

  lemma CellRowsMember(ps: seq<SubMonthRow>, ks: seq<CellKey>, row: RetentionRow)
    requires forall i :: 0 <= i < |ks| ==> Group(ps, CellOf, ks[i]) != []
    requires row in CellRows(ps, ks)
    ensures Group(ps, CellOf, RowKey(row)) != []
    ensures row == CellRow(ps, RowKey(row))
  {
    var i := SeqIndexOf(CellRows(ps, ks), row);
    CellRowsAt(ps, ks, i);
  }

  /** A placement comes from a subscription of a user whose cohort subscription started in the window. */
  lemma PlacementSource(subs: seq<Subscription>, today: Date, n: int, p: SubMonthRow)
    returns (s: Subscription, s0: Subscription)
    requires p in Placements(subs, today, n)
    ensures 0 <= p.monthsSinceSignup <= 12
    ensures s in subs && s0 in subs && IsRetainedStatus(s) && WithinMonths(s0.startDate, today, n)
    ensures s0.userId == s.userId && p == Placed(s, EntryOf(s0))
  {
    var cs := Cohorts(subs, today, n);
    var c;
    s, c := JoinSubsSource(Where(subs, IsRetainedStatus), cs, p);
    var window := Where(subs, StartedWithin(today, n));
    var j := SeqIndexOf(cs, c);
    s0 := window[j];
    assert s0 in window;
  }

  /**
   * The shape of a reported row: its offset is in [0, 12], its cohort month
   * is no older than `cohort_months` months before today's month, it counts
   * at least one user, and its rate is its count against the count of the
   * cohort's first offset, which is positive.
   */
  lemma RowFacts(subs: seq<Subscription>, today: Date, n: int, row: RetentionRow)
    requires row in CohortRetentionAnalysis(subs, today, n)
    ensures 0 <= row.monthsSinceSignup <= 12
    ensures row.cohortMonth >= MonthIndex(today) - n
    ensures row.retainedUsers > 0
    ensures Group(Placements(subs, today, n), RowCohort, row.cohortMonth) != []
    ensures Retained(Placements(subs, today, n), FirstCell(Placements(subs, today, n), row.cohortMonth)) > 0
    ensures row.retentionRatePct
            == Percent(row.retainedUsers,
                       Retained(Placements(subs, today, n), FirstCell(Placements(subs, today, n), row.cohortMonth)))
    ensures row.retentionRatePct > 0.0
  {
    var ps := Placements(subs, today, n);
    var k := RowKey(row);
    RowIsCell(subs, today, n, row);
    var g := Group(ps, CellOf, k);
    assert g[0] in g;
    var s, s0 := PlacementSource(subs, today, n, g[0]);
    WithinMonthsByMonth(s0.startDate, today, n);
    CellInCohort(ps, k);
    FirstCellPresent(ps, k.cohortMonth);
    var first := Retained(ps, FirstCell(ps, k.cohortMonth));
    PercentZero(row.retainedUsers, first);
    PercentBounds(0, first);
    PercentSign(row.retainedUsers, first);
  }

  lemma PercentSign(n: int, d: int)
    requires n > 0 && d > 0
    ensures Percent(n, d) > 0.0
  {
  }

  /** No two grouped rows share a cell. */
  lemma AllCellsUnique(subs: seq<Subscription>, today: Date, n: int)
    ensures UniqueBy(AllCells(subs, today, n), RowKey)
  {
    var ps := Placements(subs, today, n);
    var ks := Keys(ps, CellOf);
    var rows := CellRows(ps, ks);
    forall i, j | 0 <= i < j < |rows| ensures RowKey(rows[i]) != RowKey(rows[j]) {
      CellRowsAt(ps, ks, i);
      CellRowsAt(ps, ks, j);
    }
  }

  /** Newest cohort first and, within a cohort, offsets strictly ascending. */
  predicate StrictlyOrdered(r: seq<RetentionRow>)
  {
    forall i, j :: 0 <= i < j < |r| ==>
      r[i].cohortMonth > r[j].cohortMonth
      || (r[i].cohortMonth == r[j].cohortMonth && r[i].monthsSinceSignup < r[j].monthsSinceSignup)
  }

  /**
   * The output is a permutation of the grouped rows with one row per cell,
   * newest cohort first and, within a cohort, offsets strictly ascending.
   */
  lemma Ordered(subs: seq<Subscription>, today: Date, n: int)
    ensures multiset(CohortRetentionAnalysis(subs, today, n)) == multiset(AllCells(subs, today, n))
    ensures StrictlyOrdered(CohortRetentionAnalysis(subs, today, n))
  {
    var r := CohortRetentionAnalysis(subs, today, n);
    NewerCohortEarlierMonthIsTotal();
    AllCellsUnique(subs, today, n);
    UniqueBySubBag(r, AllCells(subs, today, n), RowKey);
    forall i, j | 0 <= i < j < |r|
      ensures r[i].cohortMonth > r[j].cohortMonth
              || (r[i].cohortMonth == r[j].cohortMonth && r[i].monthsSinceSignup < r[j].monthsSinceSignup)
    {
      assert NewerCohortEarlierMonth(r[i], r[j]);
      assert RowKey(r[i]) != RowKey(r[j]);
    }
  }

  /**
   * Every Active or Cancelled subscription at an offset in [0, 12] from the
   * start month of a subscription of the same user started in the window is
   * counted in a reported row.
   */
  lemma CellReported(subs: seq<Subscription>, today: Date, n: int, s: Subscription, s0: Subscription)
    requires s in subs && s0 in subs && IsRetainedStatus(s) && WithinMonths(s0.startDate, today, n)
    requires s0.userId == s.userId && 0 <= SubMonth(s) - SubMonth(s0) <= 12
    ensures exists j :: 0 <= j < |CohortRetentionAnalysis(subs, today, n)|
                        && RowKey(CohortRetentionAnalysis(subs, today, n)[j])
                           == CellKey(SubMonth(s0), SubMonth(s) - SubMonth(s0))
  {
    var ps := Placements(subs, today, n);
    var p := Placed(s, EntryOf(s0));
    PlacementPresent(subs, today, n, s, s0);
    assert p in Group(ps, CellOf, CellOf(p));
    var j := CellRowReported(subs, today, n, CellOf(p));
  }

  lemma PlacementPresent(subs: seq<Subscription>, today: Date, n: int, s: Subscription, s0: Subscription)
    requires s in subs && s0 in subs && IsRetainedStatus(s) && WithinMonths(s0.startDate, today, n)
    requires s0.userId == s.userId && 0 <= SubMonth(s) - SubMonth(s0) <= 12
    ensures Placed(s, EntryOf(s0)) in Placements(subs, today, n)
  {
    var window := Where(subs, StartedWithin(today, n));
    assert s0 in window;
    var j := SeqIndexOf(window, s0);
    assert Cohorts(subs, today, n)[j] == EntryOf(s0);
    assert s in Where(subs, IsRetainedStatus);
    JoinSubsHas(Where(subs, IsRetainedStatus), Cohorts(subs, today, n), s, EntryOf(s0));
  }

  /** Every non-empty cell has its row in the output. */
  lemma CellRowReported(subs: seq<Subscription>, today: Date, n: int, k: CellKey) returns (j: nat)
    requires Group(Placements(subs, today, n), CellOf, k) != []
    ensures j < |CohortRetentionAnalysis(subs, today, n)|
    ensures RowKey(CohortRetentionAnalysis(subs, today, n)[j]) == k
  {
    var ps := Placements(subs, today, n);
    var ks := Keys(ps, CellOf);
    var g := Group(ps, CellOf, k);
    assert g[0] in g;
    var i := SeqIndexOf(ks, k);
    var row := CellRows(ps, ks)[i];
    CellRowsAt(ps, ks, i);
    assert row in AllCells(subs, today, n);
    SortByMember(AllCells(subs, today, n), NewerCohortEarlierMonth, row);
    j := SeqIndexOf(CohortRetentionAnalysis(subs, today, n), row);
  }

  /**
   * The first reported row of each cohort is its first offset, so its rate
   * is 100: FIRST_VALUE compares every cell with the top of its cohort.
   */
  lemma FirstRowOfCohort(subs: seq<Subscription>, today: Date, n: int, i: nat)
    requires i < |CohortRetentionAnalysis(subs, today, n)|
    requires i == 0 || CohortRetentionAnalysis(subs, today, n)[i - 1].cohortMonth
                       != CohortRetentionAnalysis(subs, today, n)[i].cohortMonth
    ensures CohortRetentionAnalysis(subs, today, n)[i].retentionRatePct == 100.0
  {
    var r := CohortRetentionAnalysis(subs, today, n);
    var ps := Placements(subs, today, n);
    var row := r[i];
    assert row in r;
    RowIsCell(subs, today, n, row);
    OpensAtFirstCell(subs, today, n, i);
    FirstCellRate(ps, row.cohortMonth);
  }

  /** Row i, opening its cohort, is the row of the cohort's first cell. */
  lemma OpensAtFirstCell(subs: seq<Subscription>, today: Date, n: int, i: nat)
    requires i < |CohortRetentionAnalysis(subs, today, n)|
    requires i == 0 || CohortRetentionAnalysis(subs, today, n)[i - 1].cohortMonth
                       != CohortRetentionAnalysis(subs, today, n)[i].cohortMonth
    ensures Group(Placements(subs, today, n), RowCohort, CohortRetentionAnalysis(subs, today, n)[i].cohortMonth) != []
    ensures RowKey(CohortRetentionAnalysis(subs, today, n)[i])
            == FirstCell(Placements(subs, today, n), CohortRetentionAnalysis(subs, today, n)[i].cohortMonth)
  {
    var r := CohortRetentionAnalysis(subs, today, n);
    var ps := Placements(subs, today, n);
    assert r[i] in r;
    RowIsCell(subs, today, n, r[i]);
    CellInCohort(ps, RowKey(r[i]));
    FirstCellPresent(ps, r[i].cohortMonth);
    var j := CellRowReported(subs, today, n, FirstCell(ps, r[i].cohortMonth));
    Ordered(subs, today, n);
    OpensAtFirst(r, ps, i, j);
  }

  lemma OpensAtFirst(r: seq<RetentionRow>, ps: seq<SubMonthRow>, i: nat, j: nat)
    requires StrictlyOrdered(r) && i < |r| && j < |r|
    requires i == 0 || r[i - 1].cohortMonth != r[i].cohortMonth
    requires Group(ps, CellOf, RowKey(r[i])) != [] && Group(ps, RowCohort, r[i].cohortMonth) != []
    requires RowKey(r[j]) == FirstCell(ps, r[i].cohortMonth)
    ensures RowKey(r[i]) == FirstCell(ps, r[i].cohortMonth)
  {
    OffsetAtLeastFirst(ps, RowKey(r[i]));
    FirstInCohort(r, i, j);
  }

  /** The first cell of a cohort is 100 percent of itself. */
  lemma FirstCellRate(ps: seq<SubMonthRow>, m: int)
    requires Group(ps, RowCohort, m) != []
    ensures Group(ps, CellOf, FirstCell(ps, m)) != []
    ensures CellRow(ps, FirstCell(ps, m)).retentionRatePct == 100.0
  {
    FirstCellPresent(ps, m);
    PercentWhole(Retained(ps, FirstCell(ps, m)));
  }

  /**
   * In a sequence ordered newest cohort first, offsets strictly ascending, a
   * row of the same cohort at an offset no larger than row i's is row i
   * itself when row i opens its cohort.
   */
  lemma FirstInCohort(r: seq<RetentionRow>, i: nat, j: nat)
    requires i < |r| && j < |r|
    requires StrictlyOrdered(r)
    requires i == 0 || r[i - 1].cohortMonth != r[i].cohortMonth
    requires r[j].cohortMonth == r[i].cohortMonth && r[j].monthsSinceSignup <= r[i].monthsSinceSignup
    ensures j == i
  {
  }

  /** Every cell's offset is at least the first offset of its cohort. */
  lemma OffsetAtLeastFirst(ps: seq<SubMonthRow>, k: CellKey)
    requires Group(ps, CellOf, k) != []
    ensures Group(ps, RowCohort, k.cohortMonth) != []
    ensures FirstCell(ps, k.cohortMonth).monthsSinceSignup <= k.monthsSinceSignup
  {
    CellInCohort(ps, k);
    var g := Group(ps, CellOf, k);
    assert g[0] in g;
    var c := Group(ps, RowCohort, k.cohortMonth);
    assert g[0] in c;
    var i := SeqIndexOf(c, g[0]);
  }
}
