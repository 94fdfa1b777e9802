/**
 * cohort_retention_analysis of src/payment_intelligence/etl_logic.py: users
 * JOIN subscriptions, each joined row tagged with its signup cohort and with
 * the months from signup to CURRENT_DATE; per (cohort, months) cell the
 * distinct users holding an Active subscription against the cohort's
 * distinct users; the cohorts of the last `cohort_months` months, in order.
 *
 * months_since_signup is measured to CURRENT_DATE, so it is the same for
 * every row of a cohort: each cohort has exactly one cell.
 */
module SuiteRetention {
  import opened Relational
  import opened Calendar
  import opened Records

  /** DATE_DIFF('month', u.signup_date, CURRENT_DATE). */
  function MonthsSinceSignup(today: Date, p: UserSub): int
  {
    MonthsBetween(p.user.signupDate, today)
  }

  /** GROUP BY c.cohort_month, c.months_since_signup. */
  datatype CellKey = CellKey(cohortMonth: int, monthsSinceSignup: int)

  function CellOf(today: Date): UserSub -> CellKey
  {
    (p: UserSub) => CellKey(CohortMonth(p), MonthsSinceSignup(today, p))
  }

  /** WHERE c.months_since_signup <= 12. */
  function InFirstYear(today: Date): UserSub -> bool
  {
    (p: UserSub) => MonthsSinceSignup(today, p) <= 12
  }

  /** CASE WHEN c.status = 'Active' THEN c.user_id END is not NULL. */
  predicate IsActivePair(p: UserSub) { p.sub.status == "Active" }

  /** cohort_sizes: COUNT(DISTINCT user_id) over every joined row of cohort m. */
  function CohortSize(cohorts: seq<UserSub>, m: int): int
  {
    |Image(Group(cohorts, CohortMonth, m), PairUserId)|
  }

  datatype RetentionRow = RetentionRow(
    cohortMonth: int,
    monthsSinceSignup: int,
    retainedUsers: int,
    cohortSize: int,
    retentionRatePct: real)

  function RowCohort(r: RetentionRow): int { r.cohortMonth }

  /** The joined rows of one cell that pass WHERE months_since_signup <= 12. */
  function Cell(cohorts: seq<UserSub>, today: Date, k: CellKey): seq<UserSub>
  {
    Group(Where(cohorts, InFirstYear(today)), CellOf(today), k)
  }

  /** A non-empty cell lies in a non-empty cohort. */
  lemma CellInCohort(cohorts: seq<UserSub>, today: Date, k: CellKey)
    requires |Cell(cohorts, today, k)| > 0
    ensures forall p :: p in Cell(cohorts, today, k) ==> p in Group(cohorts, CohortMonth, k.cohortMonth)
    ensures CohortSize(cohorts, k.cohortMonth) > 0
  {
    var g := Cell(cohorts, today, k);
    assert g[0] in g;
    assert g[0] in Group(cohorts, CohortMonth, k.cohortMonth);
  }

  /** The retention_by_month row of one non-empty cell, with its rate. */
  function RetentionCell(cohorts: seq<UserSub>, today: Date, k: CellKey): (r: RetentionRow)
    requires |Cell(cohorts, today, k)| > 0
    ensures r.cohortMonth == k.cohortMonth && r.monthsSinceSignup == k.monthsSinceSignup
    ensures r.cohortSize == CohortSize(cohorts, k.cohortMonth) > 0
    ensures r.retainedUsers == |Image(Where(Cell(cohorts, today, k), IsActivePair), PairUserId)|
    ensures r.retentionRatePct == Percent(r.retainedUsers, r.cohortSize)
  {
    CellInCohort(cohorts, today, k);
    var size := CohortSize(cohorts, k.cohortMonth);
    var retained := |Image(Where(Cell(cohorts, today, k), IsActivePair), PairUserId)|;
    RetentionRow(k.cohortMonth, k.monthsSinceSignup, retained, size, Percent(retained, size))
  }

  function CellRows(cohorts: seq<UserSub>, today: Date, ks: seq<CellKey>): (r: seq<RetentionRow>)
    requires forall i :: 0 <= i < |ks| ==> |Cell(cohorts, today, ks[i])| > 0
    ensures |r| == |ks|
    ensures forall i :: 0 <= i < |ks| ==> r[i] == RetentionCell(cohorts, today, ks[i])
  {
    if ks == [] then [] else [RetentionCell(cohorts, today, ks[0])] + CellRows(cohorts, today, ks[1..])
  }

  /** Every cell of the first-year rows: retention_by_month. */
  function AllCells(users: seq<User>, subs: seq<Subscription>, today: Date): seq<RetentionRow>
  {
    var cohorts := JoinUsersSubs(users, subs);
    CellRows(cohorts, today, Keys(Where(cohorts, InFirstYear(today)), CellOf(today)))
  }

  /** WHERE cohort_month >= CURRENT_DATE - INTERVAL 'n months'. */
  function InCohortWindow(today: Date, n: int): RetentionRow -> bool
  {
    (r: RetentionRow) => WithinMonths(MonthStart(r.cohortMonth), today, n)
  }

  /** ORDER BY cohort_month, months_since_signup. */
  predicate EarlierCell(a: RetentionRow, b: RetentionRow)
  {
    a.cohortMonth < b.cohortMonth
    || (a.cohortMonth == b.cohortMonth && a.monthsSinceSignup <= b.monthsSinceSignup)
  }

  lemma EarlierCellIsTotal()
    ensures TotalPreorder(EarlierCell)
  {
  }

  /** The rows of the final WHERE, before ORDER BY. */
  function WindowCells(users: seq<User>, subs: seq<Subscription>, today: Date, cohortMonths: int): seq<RetentionRow>
  {
    Where(AllCells(users, subs, today), InCohortWindow(today, cohortMonths))
  }

  /** cohort_retention_analysis(cohort_months). */
  function CohortRetentionAnalysis(users: seq<User>, subs: seq<Subscription>, today: Date, cohortMonths: int := 12): (r: seq<RetentionRow>)
    ensures multiset(r) == multiset(WindowCells(users, subs, today, cohortMonths))
    ensures SortedBy(r, EarlierCell)
  {
    EarlierCellIsTotal();
    SortBy(WindowCells(users, subs, today, cohortMonths), EarlierCell)
  }

  /** A reported row is the row of a non-empty cell whose cohort passes the window. */
  lemma {:induction false} RowIsCell(users: seq<User>, subs: seq<Subscription>, today: Date, cohortMonths: int, row: RetentionRow)
    returns (k: CellKey)
    requires row in CohortRetentionAnalysis(users, subs, today, cohortMonths)
    ensures |Cell(JoinUsersSubs(users, subs), today, k)| > 0
    ensures row == RetentionCell(JoinUsersSubs(users, subs), today, k)
    ensures WithinMonths(MonthStart(row.cohortMonth), today, cohortMonths)
  {
    var cohorts := JoinUsersSubs(users, subs);
    var ks := Keys(Where(cohorts, InFirstYear(today)), CellOf(today));
    var rows := CellRows(cohorts, today, ks);
    assert row in multiset(CohortRetentionAnalysis(users, subs, today, cohortMonths));
    assert row in WindowCells(users, subs, today, cohortMonths);
    var i := SeqIndexOf(rows, row);
    k := ks[i];
  }

  /** The months of a cell are the months from its cohort to today, at most 12. */
  lemma CellMonths(cohorts: seq<UserSub>, today: Date, k: CellKey)
    requires |Cell(cohorts, today, k)| > 0
    ensures k.monthsSinceSignup == MonthIndex(today) - k.cohortMonth
    ensures k.monthsSinceSignup <= 12
  {
    var g := Cell(cohorts, today, k);
    assert g[0] in g;
  }

  /**
   * The shape of a reported row: its months are those from its cohort to
   * today and at most 12, its cohort is no older than `cohort_months` months
   * before today's month, and its retained users are among the cohort's
   * users, so the rate lies in [0, 100].
   */
  lemma RowShape(users: seq<User>, subs: seq<Subscription>, today: Date, cohortMonths: int, row: RetentionRow)
    requires row in CohortRetentionAnalysis(users, subs, today, cohortMonths)
    ensures row.monthsSinceSignup == MonthIndex(today) - row.cohortMonth
    ensures row.monthsSinceSignup <= 12
    ensures row.cohortMonth >= MonthIndex(today) - cohortMonths
    ensures 0 <= row.retainedUsers <= row.cohortSize && row.cohortSize > 0
    ensures row.retentionRatePct == Percent(row.retainedUsers, row.cohortSize)
    ensures 0.0 <= row.retentionRatePct <= 100.0
  {
    var cohorts := JoinUsersSubs(users, subs);
    var k := RowIsCell(users, subs, today, cohortMonths, row);
    CellMonths(cohorts, today, k);
    WithinMonthsByMonth(MonthStart(row.cohortMonth), today, cohortMonths);
    var g := Cell(cohorts, today, k);
    CellInCohort(cohorts, today, k);
    var active := Where(g, IsActivePair);
    ImageSubset(active, Group(cohorts, CohortMonth, k.cohortMonth), PairUserId);
    PercentBounds(row.retainedUsers, row.cohortSize);
  }

  /** The months of a cell follow from its cohort, so the cells have distinct cohorts. */
  lemma KeysByCohort(cohorts: seq<UserSub>, today: Date, ks: seq<CellKey>)
    requires Distinct(ks)
    requires forall i :: 0 <= i < |ks| ==> |Cell(cohorts, today, ks[i])| > 0
    ensures forall i, j :: 0 <= i < j < |ks| ==> ks[i].cohortMonth != ks[j].cohortMonth
  {
    forall i, j | 0 <= i < j < |ks| ensures ks[i].cohortMonth != ks[j].cohortMonth {
      CellMonths(cohorts, today, ks[i]);
      CellMonths(cohorts, today, ks[j]);
      assert ks[i] != ks[j];
      KeyOfCohort(ks[i], ks[j]);
    }
  }

  lemma KeyOfCohort(a: CellKey, b: CellKey)
    requires a.monthsSinceSignup - b.monthsSinceSignup == b.cohortMonth - a.cohortMonth
    ensures a != b ==> a.cohortMonth != b.cohortMonth
  {
  }

  lemma AllCellsUnique(users: seq<User>, subs: seq<Subscription>, today: Date)
    ensures UniqueBy(AllCells(users, subs, today), RowCohort)
  {
    var cohorts := JoinUsersSubs(users, subs);
    var ks := Keys(Where(cohorts, InFirstYear(today)), CellOf(today));
    KeysByCohort(cohorts, today, ks);
    CellRowsUnique(cohorts, today, ks);
  }

  lemma CellRowsUnique(cohorts: seq<UserSub>, today: Date, ks: seq<CellKey>)
    requires forall i :: 0 <= i < |ks| ==> |Cell(cohorts, today, ks[i])| > 0
    requires forall i, j :: 0 <= i < j < |ks| ==> ks[i].cohortMonth != ks[j].cohortMonth
    ensures UniqueBy(CellRows(cohorts, today, ks), RowCohort)
  {
    var rows := CellRows(cohorts, today, ks);
    forall i, j | 0 <= i < j < |rows| ensures RowCohort(rows[i]) != RowCohort(rows[j]) {
      assert rows[i].cohortMonth == ks[i].cohortMonth && rows[j].cohortMonth == ks[j].cohortMonth;
    }
  }

  /** One row per cohort, in strictly ascending cohort order. */
  lemma Ordered(users: seq<User>, subs: seq<Subscription>, today: Date, cohortMonths: int)
    ensures multiset(CohortRetentionAnalysis(users, subs, today, cohortMonths))
            == multiset(WindowCells(users, subs, today, cohortMonths))
    ensures forall i, j :: 0 <= i < j < |CohortRetentionAnalysis(users, subs, today, cohortMonths)| ==>
              CohortRetentionAnalysis(users, subs, today, cohortMonths)[i].cohortMonth
              < CohortRetentionAnalysis(users, subs, today, cohortMonths)[j].cohortMonth
  {
    var r := CohortRetentionAnalysis(users, subs, today, cohortMonths);
    EarlierCellIsTotal();
    AllCellsUnique(users, subs, today);
    WhereUnique(AllCells(users, subs, today), InCohortWindow(today, cohortMonths), RowCohort);
    UniqueBySubBag(r, WindowCells(users, subs, today, cohortMonths), RowCohort);
    forall i, j | 0 <= i < j < |r| ensures r[i].cohortMonth < r[j].cohortMonth {
      assert EarlierCell(r[i], r[j]);
      assert RowCohort(r[i]) != RowCohort(r[j]);
    }
  }

  /**
   * Every cohort of a user holding a subscription, signed up at most 12
   * months before today's month and inside the window, is reported.
   */
  lemma CohortReported(users: seq<User>, subs: seq<Subscription>, today: Date, cohortMonths: int, u: User, s: Subscription)
    requires u in users && s in subs && s.userId == u.userId
    requires MonthIndex(today) - MonthIndex(u.signupDate) <= 12
    requires WithinMonths(MonthStart(MonthIndex(u.signupDate)), today, cohortMonths)
    ensures var k := CellKey(MonthIndex(u.signupDate), MonthIndex(today) - MonthIndex(u.signupDate));
            |Cell(JoinUsersSubs(users, subs), today, k)| > 0
            && RetentionCell(JoinUsersSubs(users, subs), today, k)
               in CohortRetentionAnalysis(users, subs, today, cohortMonths)
  {
    var cohorts := JoinUsersSubs(users, subs);
    var k := CellKey(MonthIndex(u.signupDate), MonthIndex(today) - MonthIndex(u.signupDate));
    var p := UserSub(u, s);
    assert p in cohorts;
    assert p in Where(cohorts, InFirstYear(today));
    assert CellOf(today)(p) == k;
    assert p in Cell(cohorts, today, k);
    CellPresent(users, subs, today, k);
    var row := RetentionCell(cohorts, today, k);
    assert row in WindowCells(users, subs, today, cohortMonths);
    assert row in multiset(WindowCells(users, subs, today, cohortMonths));
    assert row in multiset(CohortRetentionAnalysis(users, subs, today, cohortMonths));
  }

  /** Every non-empty cell has its row. */
  lemma CellPresent(users: seq<User>, subs: seq<Subscription>, today: Date, k: CellKey)
    requires |Cell(JoinUsersSubs(users, subs), today, k)| > 0
    ensures RetentionCell(JoinUsersSubs(users, subs), today, k) in AllCells(users, subs, today)
  {
    var cohorts := JoinUsersSubs(users, subs);
    var g := Cell(cohorts, today, k);
    assert g[0] in g;
    var ks := Keys(Where(cohorts, InFirstYear(today)), CellOf(today));
    var i := SeqIndexOf(ks, k);
    assert CellRows(cohorts, today, ks)[i] == RetentionCell(cohorts, today, k);
  }
}
