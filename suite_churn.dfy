/**
 * calculate_monthly_churn_rate of src/payment_intelligence/etl_logic.py:
 * users JOIN subscriptions, grouped by the users' signup month, with the
 * subscriptions counted by status, the two rates over NULLIF(total_subs, 0),
 * the latest 24 cohorts first.
 */
module SuiteChurn {
  import opened Relational
  import opened Calendar
  import opened Records

  function ChurnedWeight(p: UserSub): int { if p.sub.status == "Churned" then 1 else 0 }
  function ActiveWeight(p: UserSub): int { if p.sub.status == "Active" then 1 else 0 }
  function PastDueWeight(p: UserSub): int { if p.sub.status == "Past Due" then 1 else 0 }

  /** The three labels the query counts. */
  predicate CountedStatus(status: string)
  {
    status == "Churned" || status == "Active" || status == "Past Due"
  }

  datatype ChurnRow = ChurnRow(
    cohortMonth: int,
    totalSubs: int,
    churnedSubs: int,
    activeSubs: int,
    pastDueSubs: int,
    churnRatePct: Option<real>,
    retentionRatePct: Option<real>)

  function RowMonth(r: ChurnRow): int { r.cohortMonth }

  /** The cohort_metrics row of month `m`, with the final SELECT's two rates. */
  function CohortMetrics(cohorts: seq<UserSub>, m: int): (r: ChurnRow)
    ensures r.cohortMonth == m
    ensures r.churnRatePct.None? <==> r.totalSubs == 0
    ensures r.retentionRatePct.None? <==> r.totalSubs == 0
  {
    var g := Group(cohorts, CohortMonth, m);
    var total := |Image(g, PairSubId)|;
    var churned := SumOf(g, ChurnedWeight);
    var active := SumOf(g, ActiveWeight);
    ChurnRow(m, total, churned, active, SumOf(g, PastDueWeight),
             PercentOrNull(churned, total), PercentOrNull(active, total))
  }

  /** One row per listed cohort month. */
  function CohortRows(cohorts: seq<UserSub>, ks: seq<int>): (r: seq<ChurnRow>)
    ensures |r| == |ks|
    ensures forall i :: 0 <= i < |ks| ==> r[i] == CohortMetrics(cohorts, ks[i])
  {
    if ks == [] then [] else [CohortMetrics(cohorts, ks[0])] + CohortRows(cohorts, ks[1..])
  }

  /** ORDER BY cohort_month DESC. */
  predicate LaterCohort(a: ChurnRow, b: ChurnRow) { a.cohortMonth >= b.cohortMonth }

  lemma LaterCohortIsTotal()
    ensures TotalPreorder(LaterCohort)
  {
  }

  /** All cohort rows, before ORDER BY .. LIMIT. */
  function AllCohorts(users: seq<User>, subs: seq<Subscription>): seq<ChurnRow>
  {
    var cohorts := JoinUsersSubs(users, subs);
    CohortRows(cohorts, Keys(cohorts, CohortMonth))
  }

  /** calculate_monthly_churn_rate(). */
  function MonthlyChurnRate(users: seq<User>, subs: seq<Subscription>): (r: seq<ChurnRow>)
    ensures |r| <= 24
    ensures multiset(r) <= multiset(AllCohorts(users, subs))
    ensures SortedBy(r, LaterCohort)
  {
    LaterCohortIsTotal();
    TopN(AllCohorts(users, subs), LaterCohort, 24)
  }

  /** Every row of AllCohorts is the metrics row of a cohort month present in the join. */
  lemma AllCohortsRow(users: seq<User>, subs: seq<Subscription>, row: ChurnRow)
    requires row in AllCohorts(users, subs)
    ensures row == CohortMetrics(JoinUsersSubs(users, subs), row.cohortMonth)
    ensures row.cohortMonth in Keys(JoinUsersSubs(users, subs), CohortMonth)
  {
    var cohorts := JoinUsersSubs(users, subs);
    var ks := Keys(cohorts, CohortMonth);
    var i := SeqIndexOf(CohortRows(cohorts, ks), row);
    assert row == CohortMetrics(cohorts, ks[i]);
  }

  lemma AllCohortsUnique(users: seq<User>, subs: seq<Subscription>)
    ensures UniqueBy(AllCohorts(users, subs), RowMonth)
  {
    var cohorts := JoinUsersSubs(users, subs);
    var ks := Keys(cohorts, CohortMonth);
    var rows := CohortRows(cohorts, ks);
    forall i, j | 0 <= i < j < |rows| ensures RowMonth(rows[i]) != RowMonth(rows[j]) {
      assert rows[i].cohortMonth == ks[i] && rows[j].cohortMonth == ks[j];
    }
  }

  /**
   * The counts of one cohort: with user_id and sub_id keys, the three status
   * counts add up to at most total_subs (exactly, when every subscription has
   * one of the three labels); both rates are present and lie in [0, 100]; and
   * the cohort is the signup month of a user holding a subscription.
   */
  lemma {:induction false} CohortCounts(users: seq<User>, subs: seq<Subscription>, row: ChurnRow)
    requires UniqueUserIds(users) && UniqueSubIds(subs)
    requires row in MonthlyChurnRate(users, subs)
    ensures row.totalSubs > 0
    ensures row.churnedSubs + row.activeSubs + row.pastDueSubs <= row.totalSubs
    ensures (forall s :: s in subs ==> CountedStatus(s.status)) ==>
              row.churnedSubs + row.activeSubs + row.pastDueSubs == row.totalSubs
    ensures row.churnRatePct == Some(Percent(row.churnedSubs, row.totalSubs))
    ensures row.retentionRatePct == Some(Percent(row.activeSubs, row.totalSubs))
    ensures 0.0 <= row.churnRatePct.value <= 100.0 && 0.0 <= row.retentionRatePct.value <= 100.0
    ensures exists p :: p in JoinUsersSubs(users, subs) && MonthIndex(p.user.signupDate) == row.cohortMonth
  {
    var cohorts := JoinUsersSubs(users, subs);
    TopNMember(AllCohorts(users, subs), LaterCohort, 24, row);
    AllCohortsRow(users, subs, row);
    var m := row.cohortMonth;
    var g := Group(cohorts, CohortMonth, m);
    assert g[0] in g;
    JoinUnique(users, subs);
    GroupUnique(cohorts, CohortMonth, m, PairSubId);
    ImageOfUnique(g, PairSubId);
    assert row.totalSubs == |g|;
    CountsOfGroup(g);
    assert (forall s :: s in subs ==> CountedStatus(s.status)) ==>
             forall i :: 0 <= i < |g| ==> CountedStatus(g[i].sub.status) by {
      forall i | 0 <= i < |g| ensures g[i] in cohorts {
        assert g[i] in g;
      }
    }
    PercentBounds(row.churnedSubs, row.totalSubs);
    PercentBounds(row.activeSubs, row.totalSubs);
  }

  function TwoWeights(p: UserSub): int { ChurnedWeight(p) + ActiveWeight(p) }
  function ThreeWeights(p: UserSub): int { TwoWeights(p) + PastDueWeight(p) }

  /** SUM(CASE ..) over the three labels, within one group of joined rows. */
  lemma CountsOfGroup(g: seq<UserSub>)
    ensures 0 <= SumOf(g, ChurnedWeight) && 0 <= SumOf(g, ActiveWeight) && 0 <= SumOf(g, PastDueWeight)
    ensures SumOf(g, ChurnedWeight) + SumOf(g, ActiveWeight) + SumOf(g, PastDueWeight) <= |g|
    ensures (forall i :: 0 <= i < |g| ==> CountedStatus(g[i].sub.status)) ==>
              SumOf(g, ChurnedWeight) + SumOf(g, ActiveWeight) + SumOf(g, PastDueWeight) == |g|
  {
    SumOfNonNegative(g, ChurnedWeight);
    SumOfNonNegative(g, ActiveWeight);
    SumOfNonNegative(g, PastDueWeight);
    SumOfAdd(g, ChurnedWeight, ActiveWeight, TwoWeights);
    SumOfAdd(g, TwoWeights, PastDueWeight, ThreeWeights);
    SumOfIndicator(g, ThreeWeights);
    if forall i :: 0 <= i < |g| ==> CountedStatus(g[i].sub.status) {
      SumOfOnes(g, ThreeWeights);
    }
  }

  /** At most 24 rows, one per cohort month, in strictly descending month order. */
  lemma ChurnOrder(users: seq<User>, subs: seq<Subscription>)
    ensures |MonthlyChurnRate(users, subs)| <= 24
    ensures forall i, j :: 0 <= i < j < |MonthlyChurnRate(users, subs)| ==>
              MonthlyChurnRate(users, subs)[i].cohortMonth > MonthlyChurnRate(users, subs)[j].cohortMonth
  {
    var all := AllCohorts(users, subs);
    var r := MonthlyChurnRate(users, subs);
    LaterCohortIsTotal();
    AllCohortsUnique(users, subs);
    UniqueBySubBag(r, all, RowMonth);
    forall i, j | 0 <= i < j < |r| ensures r[i].cohortMonth > r[j].cohortMonth {
      assert LaterCohort(r[i], r[j]);
      assert RowMonth(r[i]) != RowMonth(r[j]);
    }
  }

  /**
   * The reported cohorts are the latest ones: the cohort of a user holding a
   * subscription is reported, or all 24 rows are used by later cohorts.
   */
  lemma LatestCohorts(users: seq<User>, subs: seq<Subscription>, u: User, s: Subscription)
    requires u in users && s in subs && s.userId == u.userId
    ensures CohortMetrics(JoinUsersSubs(users, subs), MonthIndex(u.signupDate)) in MonthlyChurnRate(users, subs)
            || (|MonthlyChurnRate(users, subs)| == 24
                && forall row :: row in MonthlyChurnRate(users, subs) ==> row.cohortMonth > MonthIndex(u.signupDate))
  {
    var cohorts := JoinUsersSubs(users, subs);
    var m := MonthIndex(u.signupDate);
    var row0 := CohortMetrics(cohorts, m);
    CohortPresent(users, subs, u, s);
    if row0 !in MonthlyChurnRate(users, subs) {
      LaterCohortIsTotal();
      TopNDropped(AllCohorts(users, subs), LaterCohort, 24, row0);
      forall row | row in MonthlyChurnRate(users, subs) ensures row.cohortMonth > m {
        LaterThanDropped(users, subs, row, row0);
      }
    }
  }

  lemma CohortPresent(users: seq<User>, subs: seq<Subscription>, u: User, s: Subscription)
    requires u in users && s in subs && s.userId == u.userId
    ensures CohortMetrics(JoinUsersSubs(users, subs), MonthIndex(u.signupDate)) in AllCohorts(users, subs)
  {
    var cohorts := JoinUsersSubs(users, subs);
    var ks := Keys(cohorts, CohortMonth);
    assert UserSub(u, s) in cohorts;
    var k := SeqIndexOf(ks, MonthIndex(u.signupDate));
    assert CohortRows(cohorts, ks)[k] == CohortMetrics(cohorts, MonthIndex(u.signupDate));
  }

  lemma LaterThanDropped(users: seq<User>, subs: seq<Subscription>, row: ChurnRow, row0: ChurnRow)
    requires row in MonthlyChurnRate(users, subs) && row0 !in MonthlyChurnRate(users, subs)
    requires row0 == CohortMetrics(JoinUsersSubs(users, subs), row0.cohortMonth)
    requires LaterCohort(row, row0)
    ensures row.cohortMonth > row0.cohortMonth
  {
    TopNMember(AllCohorts(users, subs), LaterCohort, 24, row);
    AllCohortsRow(users, subs, row);
    assert row != row0;
  }
}
