/**
 * detect_gateway_friction of payment_intelligence/etl_logic.py: every
 * (gateway, raw country) group of all transactions with at least 30
 * attempts, against the average acceptance rate of those groups, flagged by
 * how far it falls below, lowest variance first, at most 100 rows.
 */
module OptimizedFriction {
  import opened Relational
  import opened Records

  /** HAVING COUNT(*) >= 30. */
  const MinAttempts := 30
  /** LIMIT 100. */
  const RowLimit := 100

  /** The ELSE arm reads 'Low Friction' in this query. */
  datatype FrictionFlag = HighFriction | MediumFriction | LowFriction

  function FlagLabel(f: FrictionFlag): string
  {
    match f
    case HighFriction => "High Friction"
    case MediumFriction => "Medium Friction"
    case LowFriction => "Low Friction"
  }

  /** One gateway_stats row. */
  datatype StatsRow = StatsRow(
    gateway: string,
    country: Option<string>,
    attempts: int,
    acceptanceRatePct: Option<real>,
    commonErrors: Option<set<string>>)

  function PairStats(txs: seq<Transaction>, k: PairKey): (r: StatsRow)
    ensures r.gateway == k.gateway && r.country == k.country
    ensures r.attempts == |Group(txs, PairOf, k)|
    ensures r.commonErrors == CommonErrors(Group(txs, PairOf, k))
  {
    var g := Group(txs, PairOf, k);
    StatsRow(k.gateway, k.country, |g|, PercentOrNull(SumOf(g, SuccessWeight), |g|), CommonErrors(g))
  }

  function PairStatsRows(txs: seq<Transaction>, ks: seq<PairKey>): (r: seq<StatsRow>)
    ensures |r| == |ks|
    ensures forall i :: 0 <= i < |ks| ==> r[i] == PairStats(txs, ks[i])
  {
    if ks == [] then [] else [PairStats(txs, ks[0])] + PairStatsRows(txs, ks[1..])
  }

  predicate Significant(r: StatsRow) { r.attempts >= MinAttempts }

  /** gateway_stats. */
  function GatewayStats(txs: seq<Transaction>): seq<StatsRow>
  {
    Where(PairStatsRows(txs, Keys(txs, PairOf)), Significant)
  }

  /** The rows AVG reads: those with a non-NULL rate. */
  predicate IsRated(r: StatsRow) { r.acceptanceRatePct.Some? }

  function RateOf(r: StatsRow): real { Coalesce(r.acceptanceRatePct, 0.0) }

  /** baseline: AVG(acceptance_rate_pct) over gateway_stats, NULL when no rate is present. */
  function Baseline(stats: seq<StatsRow>): (b: Option<real>)
    ensures b.None? <==> Where(stats, IsRated) == []
  {
    var rated := Where(stats, IsRated);
    if rated == [] then None else Some(SumReal(rated, RateOf) / (|rated| as real))
  }

  /** The CASE of friction_flag; a NULL variance fails both tests and is Low Friction. */
  function Classify(variance: Option<real>): (f: FrictionFlag)
    ensures f == HighFriction <==> variance.Some? && variance.value < -10.0
    ensures f == MediumFriction <==> variance.Some? && -10.0 <= variance.value < -5.0
    ensures f == LowFriction <==> variance.None? || variance.value >= -5.0
  {
    match variance
    case None => LowFriction
    case Some(v) => if v < -10.0 then HighFriction else if v < -5.0 then MediumFriction else LowFriction
  }

  /** g.acceptance_rate_pct - b.baseline_rate: NULL when either side is. */
  function Difference(rate: Option<real>, baseline: Option<real>): (v: Option<real>)
    ensures v.Some? <==> rate.Some? && baseline.Some?
    ensures v.Some? ==> v.value + baseline.value == rate.value
  {
    if rate.Some? && baseline.Some? then Some(rate.value - baseline.value) else None
  }

  datatype FrictionRow = FrictionRow(
    gateway: string,
    country: Option<string>,
    attempts: int,
    acceptanceRatePct: Option<real>,
    commonErrors: Option<set<string>>,
    baselineRatePct: Option<real>,
    varianceFromBaseline: Option<real>,
    frictionFlag: FrictionFlag)

  /** `g.*` with the baseline, the variance and the flag. */
  function AgainstBaseline(g: StatsRow, baseline: Option<real>): (r: FrictionRow)
    ensures r.gateway == g.gateway && r.country == g.country && r.attempts == g.attempts
    ensures r.acceptanceRatePct == g.acceptanceRatePct && r.commonErrors == g.commonErrors
    ensures r.baselineRatePct == baseline
    ensures r.varianceFromBaseline == Difference(g.acceptanceRatePct, baseline)
    ensures r.frictionFlag == Classify(r.varianceFromBaseline)
  {
    var v := Difference(g.acceptanceRatePct, baseline);
    FrictionRow(g.gateway, g.country, g.attempts, g.acceptanceRatePct, g.commonErrors, baseline, v, Classify(v))
  }

  /** gateway_stats g, baseline b: the single baseline row joined to every group. */
  function CrossBaseline(stats: seq<StatsRow>, baseline: Option<real>): (r: seq<FrictionRow>)
    ensures |r| == |stats|
    ensures forall i :: 0 <= i < |stats| ==> r[i] == AgainstBaseline(stats[i], baseline)
  {
    if stats == [] then [] else [AgainstBaseline(stats[0], baseline)] + CrossBaseline(stats[1..], baseline)
  }

  /** ORDER BY variance_from_baseline ASC, with DuckDB's NULLS LAST. */
  predicate LowerVarianceFirst(a: FrictionRow, b: FrictionRow)
  {
    if a.varianceFromBaseline.None? then b.varianceFromBaseline.None?
    else b.varianceFromBaseline.None? || a.varianceFromBaseline.value <= b.varianceFromBaseline.value
  }

  lemma LowerVarianceFirstIsTotal()
    ensures TotalPreorder(LowerVarianceFirst)
  {
  }

  /** All joined rows, before ORDER BY .. LIMIT. */
  function AllPairs(txs: seq<Transaction>): seq<FrictionRow>
  {
    var stats := GatewayStats(txs);
    CrossBaseline(stats, Baseline(stats))
  }

  /** detect_gateway_friction(). */
  function DetectGatewayFriction(txs: seq<Transaction>): (r: seq<FrictionRow>)
    ensures |r| <= RowLimit
    ensures multiset(r) <= multiset(AllPairs(txs))
    ensures SortedBy(r, LowerVarianceFirst)
  {
    LowerVarianceFirstIsTotal();
    TopN(AllPairs(txs), LowerVarianceFirst, RowLimit)
  }

  // ---------------------------------------------------------------------------
  // Properties

  /** A gateway_stats row is the group of a pair with at least 30 attempts; its rate is present and in [0, 100]. */
  lemma StatsRowIsPair(txs: seq<Transaction>, s: StatsRow) returns (k: PairKey)
    requires s in GatewayStats(txs)
    ensures |Group(txs, PairOf, k)| >= MinAttempts
    ensures s == PairStats(txs, k)
    ensures s.acceptanceRatePct == Some(Percent(SumOf(Group(txs, PairOf, k), SuccessWeight), s.attempts))
    ensures 0.0 <= s.acceptanceRatePct.value <= 100.0
  {
    var ks := Keys(txs, PairOf);
    var i := SeqIndexOf(PairStatsRows(txs, ks), s);
    k := ks[i];
    var g := Group(txs, PairOf, k);
    SumOfIndicator(g, SuccessWeight);
    PercentBounds(SumOf(g, SuccessWeight), |g|);
  }

  /** Every group of gateway_stats has a rate, so AVG reads all of them. */
  lemma AllRated(txs: seq<Transaction>)
    ensures Where(GatewayStats(txs), IsRated) == GatewayStats(txs)
  {
    var stats := GatewayStats(txs);
    forall i | 0 <= i < |stats| ensures IsRated(stats[i]) {
      var k := StatsRowIsPair(txs, stats[i]);
    }
    WhereAll(stats, IsRated);
  }

  lemma {:induction false} WhereAll<T(!new)>(xs: seq<T>, p: T -> bool)
    requires forall i :: 0 <= i < |xs| ==> p(xs[i])
    ensures Where(xs, p) == xs
  {
    if xs != [] {
      WhereAll(xs[1..], p);
      assert xs == [xs[0]] + xs[1..];
    }
  }

  /** The baseline is NULL exactly when no group qualifies, and is otherwise the mean rate of all of them. */
  lemma BaselineIsMean(txs: seq<Transaction>)
    ensures Baseline(GatewayStats(txs)).None? <==> GatewayStats(txs) == []
    ensures GatewayStats(txs) != [] ==>
              Baseline(GatewayStats(txs)).value
              == SumReal(GatewayStats(txs), RateOf) / (|GatewayStats(txs)| as real)
  {
    AllRated(txs);
  }

  function VarianceOf(r: FrictionRow): real { Coalesce(r.varianceFromBaseline, 0.0) }

  /** b added up n times. */
  function Repeated(n: nat, b: real): real
  {
    if n == 0 then 0.0 else b + Repeated(n - 1, b)
  }

  lemma {:induction false} RepeatedMean(n: nat, total: real)
    requires n > 0
    ensures Repeated(n, total / (n as real)) == total
  {
    RepeatedTimes(n, total / (n as real));
  }

  lemma {:induction false} RepeatedTimes(n: nat, b: real)
    ensures Repeated(n, b) == (n as real) * b
  {
    if n > 0 {
      RepeatedTimes(n - 1, b);
    }
  }

  lemma {:induction false} CrossBaselineVariance(stats: seq<StatsRow>, b: real)
    requires forall i :: 0 <= i < |stats| ==> IsRated(stats[i])
    ensures SumReal(CrossBaseline(stats, Some(b)), VarianceOf) + Repeated(|stats|, b) == SumReal(stats, RateOf)
  {
    if stats != [] {
      CrossBaselineVariance(stats[1..], b);
      assert CrossBaseline(stats, Some(b))[1..] == CrossBaseline(stats[1..], Some(b));
    }
  }

  /** The variances from the baseline of all qualifying groups add up to 0. */
  lemma VariancesCancel(txs: seq<Transaction>)
    ensures SumReal(AllPairs(txs), VarianceOf) == 0.0
  {
    var stats := GatewayStats(txs);
    AllRated(txs);
    if stats != [] {
      BaselineIsMean(txs);
      forall i | 0 <= i < |stats| ensures IsRated(stats[i]) {
        assert stats[i] in Where(stats, IsRated);
      }
      CrossBaselineVariance(stats, Baseline(stats).value);
      RepeatedMean(|stats|, SumReal(stats, RateOf));
    }
  }

  /** Some qualifying group lies at or above the baseline, so not every group is flagged High or Medium. */
  lemma SomeLowFriction(txs: seq<Transaction>)
    requires GatewayStats(txs) != []
    ensures exists r :: r in AllPairs(txs) && r.varianceFromBaseline.Some? && r.varianceFromBaseline.value >= 0.0
    ensures exists r :: r in AllPairs(txs) && r.frictionFlag == LowFriction
  {
    var rows := AllPairs(txs);
    var stats := GatewayStats(txs);
    VariancesCancel(txs);
    AllRated(txs);
    var i := NonNegativeTerm(rows, VarianceOf);
    assert stats[i] in Where(stats, IsRated);
    assert rows[i].varianceFromBaseline.Some?;
  }

  /** A sum of reals that is 0 over a non-empty sequence has a non-negative term. */
  lemma {:induction false} NonNegativeTerm<T>(xs: seq<T>, w: T -> real) returns (i: nat)
    requires xs != [] && SumReal(xs, w) >= 0.0
    ensures i < |xs| && w(xs[i]) >= 0.0
  {
    if w(xs[0]) >= 0.0 {
      i := 0;
    } else {
      var j := NonNegativeTerm(xs[1..], w);
      i := j + 1;
    }
  }

  /** A reported row is a qualifying group against the common baseline, which lies in [0, 100]. */
  lemma RowFacts(txs: seq<Transaction>, row: FrictionRow) returns (k: PairKey)
    requires row in DetectGatewayFriction(txs)
    ensures |Group(txs, PairOf, k)| >= MinAttempts
    ensures row == AgainstBaseline(PairStats(txs, k), Baseline(GatewayStats(txs)))
    ensures row.acceptanceRatePct.Some? && 0.0 <= row.acceptanceRatePct.value <= 100.0
    ensures row.baselineRatePct.Some? && 0.0 <= row.baselineRatePct.value <= 100.0
    ensures row.varianceFromBaseline.Some?
    ensures row.varianceFromBaseline.value + row.baselineRatePct.value == row.acceptanceRatePct.value
  {
    var stats := GatewayStats(txs);
    TopNMember(AllPairs(txs), LowerVarianceFirst, RowLimit, row);
    var i := SeqIndexOf(AllPairs(txs), row);
    var g := stats[i];
    assert row == AgainstBaseline(g, Baseline(stats));
    k := StatsRowIsPair(txs, g);
    BaselineBounds(txs);
    var b := Baseline(stats);
    assert b.Some? && 0.0 <= b.value <= 100.0;
  }

  /** The mean of rates in [0, 100] lies in [0, 100]. */
  lemma BaselineBounds(txs: seq<Transaction>)
    ensures GatewayStats(txs) != [] ==>
              Baseline(GatewayStats(txs)).Some? && 0.0 <= Baseline(GatewayStats(txs)).value <= 100.0
  {
    var stats := GatewayStats(txs);
    if stats != [] {
      forall i | 0 <= i < |stats| ensures 0.0 <= RateOf(stats[i]) <= 100.0 {
        var k := StatsRowIsPair(txs, stats[i]);
      }
      RatesBounded(stats);
      BaselineIsMean(txs);
      MeanBounds(SumReal(stats, RateOf), |stats| as real);
    }
  }

  lemma {:induction false} RatesBounded(xs: seq<StatsRow>)
    requires forall i :: 0 <= i < |xs| ==> 0.0 <= RateOf(xs[i]) <= 100.0
    ensures 0.0 <= SumReal(xs, RateOf) <= (|xs| as real) * 100.0
  {
    if xs != [] {
      RatesBounded(xs[1..]);
    }
  }

  lemma MeanBounds(total: real, n: real)
    requires n > 0.0 && 0.0 <= total <= n * 100.0
    ensures 0.0 <= total / n <= 100.0
  {
  }

  /** At most 100 rows, lowest variance first, NULL variances last. */
  lemma Ordered(txs: seq<Transaction>)
    ensures |DetectGatewayFriction(txs)| <= RowLimit
    ensures forall i, j :: 0 <= i < j < |DetectGatewayFriction(txs)| ==>
              LowerVarianceFirst(DetectGatewayFriction(txs)[i], DetectGatewayFriction(txs)[j])
  {
    LowerVarianceFirstIsTotal();
  }

  /**
   * With at most 100 qualifying groups every group is reported, and the
   * reported variances add up to 0.
   */
  lemma AllReported(txs: seq<Transaction>)
    requires |GatewayStats(txs)| <= RowLimit
    ensures multiset(DetectGatewayFriction(txs)) == multiset(AllPairs(txs))
    ensures SumReal(DetectGatewayFriction(txs), VarianceOf) == 0.0
  {
    TopNAll(AllPairs(txs), LowerVarianceFirst, RowLimit);
    SortBySumReal(AllPairs(txs), LowerVarianceFirst, VarianceOf);
    VariancesCancel(txs);
  }
}
