/**
 * detect_gateway_friction of src/payment_intelligence/etl_logic.py: the
 * acceptance rate of every (gateway, country) pair of the last 90 days with at
 * least 50 attempts, against the all-time acceptance rate of all
 * transactions, flagged by how far it falls below, lowest variance first.
 */
module SuiteFriction {
  import opened Relational
  import opened Calendar
  import opened Records

  /** HAVING COUNT(*) >= 50. */
  const MinAttempts := 50

  datatype FrictionFlag = HighFriction | MediumFriction | Normal

  /** The friction_flag text. */
  function FlagLabel(f: FrictionFlag): string
  {
    match f
    case HighFriction => "\U{1F534} High Friction"
    case MediumFriction => "\U{1F7E1} Medium Friction"
    case Normal => "\U{1F7E2} Normal"
  }

  /** 2 for High Friction, 1 for Medium Friction, 0 for Normal. */
  function Severity(f: FrictionFlag): int
  {
    match f
    case HighFriction => 2
    case MediumFriction => 1
    case Normal => 0
  }

  /**
   * The CASE of friction_flag, in terms of the variance rate - baseline: below
   * -10 points is High, from -10 to below -5 is Medium, anything else is
   * Normal. With a NULL baseline both comparisons are NULL and the ELSE arm
   * gives Normal.
   */
  function Classify(ratePct: real, baselinePct: Option<real>): (f: FrictionFlag)
    ensures f == HighFriction <==> baselinePct.Some? && ratePct - baselinePct.value < -10.0
    ensures f == MediumFriction <==>
              baselinePct.Some? && -10.0 <= ratePct - baselinePct.value < -5.0
    ensures f == Normal <==> baselinePct.None? || ratePct - baselinePct.value >= -5.0
  {
    match baselinePct
    case None => Normal
    case Some(b) =>
      if ratePct < b - 10.0 then HighFriction
      else if ratePct < b - 5.0 then MediumFriction
      else Normal
  }

  /**
   * baseline_acceptance: AVG(CASE WHEN status = 'Success' THEN 1.0 ELSE 0.0 END)
   * over every transaction, times 100; NULL over an empty table.
   */
  function BaselinePct(txs: seq<Transaction>): (r: Option<real>)
    ensures r.None? <==> |txs| == 0
    ensures r.Some? ==> r.value == Percent(SumOf(txs, SuccessWeight), |txs|)
  {
    PercentOrNull(SumOf(txs, SuccessWeight), |txs|)
  }

  datatype FrictionRow = FrictionRow(
    gateway: string,
    country: string,
    attempts: int,
    successes: int,
    acceptanceRatePct: real,
    baselineRatePct: Option<real>,
    varianceFromBaseline: Option<real>,
    commonErrors: Option<set<string>>,
    frictionFlag: FrictionFlag)

  /** g.acceptance_rate - b.overall_acceptance_rate * 100, NULL with the baseline. */
  function Variance(ratePct: real, baselinePct: Option<real>): (v: Option<real>)
    ensures v.None? <==> baselinePct.None?
    ensures v.Some? ==> v.value + baselinePct.value == ratePct
  {
    match baselinePct
    case None => None
    case Some(b) => Some(ratePct - b)
  }

  /** The row of one (gateway, country) group of the last 90 days, against the baseline of `txs`. */
  function PairFriction(txs: seq<Transaction>, today: Date, k: PairKey): (r: FrictionRow)
    requires |Group(Recent(txs, today, 90), PairOf, k)| > 0
    ensures r.gateway == k.gateway && r.country == Coalesce(k.country, "Unknown")
    ensures r.attempts == |Group(Recent(txs, today, 90), PairOf, k)|
    ensures r.baselineRatePct == BaselinePct(txs)
    ensures r.successes == SumOf(Group(Recent(txs, today, 90), PairOf, k), SuccessWeight)
    ensures r.acceptanceRatePct == Percent(r.successes, r.attempts)
    ensures r.varianceFromBaseline == Variance(r.acceptanceRatePct, r.baselineRatePct)
    ensures r.frictionFlag == Classify(r.acceptanceRatePct, r.baselineRatePct)
  {
    var g := Group(Recent(txs, today, 90), PairOf, k);
    var successes := SumOf(g, SuccessWeight);
    var rate := Percent(successes, |g|);
    var baseline := BaselinePct(txs);
    FrictionRow(k.gateway, Coalesce(k.country, "Unknown"), |g|, successes, rate, baseline,
                Variance(rate, baseline), CommonErrors(g), Classify(rate, baseline))
  }

  function FrictionRows(txs: seq<Transaction>, today: Date, ks: seq<PairKey>): (r: seq<FrictionRow>)
    requires forall i :: 0 <= i < |ks| ==> |Group(Recent(txs, today, 90), PairOf, ks[i])| > 0
    ensures |r| == |ks|
    ensures forall i :: 0 <= i < |ks| ==> r[i] == PairFriction(txs, today, ks[i])
  {
    if ks == [] then [] else [PairFriction(txs, today, ks[0])] + FrictionRows(txs, today, ks[1..])
  }

  /** HAVING COUNT(*) >= 50. */
  predicate Significant(r: FrictionRow) { r.attempts >= MinAttempts }

  /**
   * ORDER BY variance_from_baseline ASC, attempts DESC, with DuckDB's
   * default of NULLS LAST.
   */
  predicate LowerVarianceFirst(a: FrictionRow, b: FrictionRow)
  {
    match (a.varianceFromBaseline, b.varianceFromBaseline)
    case (Some(x), Some(y)) => x < y || (x == y && a.attempts >= b.attempts)
    case (Some(_), None) => true
    case (None, Some(_)) => false
    case (None, None) => a.attempts >= b.attempts
  }

  /** gateway_country_stats CROSS JOIN baseline_acceptance, before ORDER BY. */
  function SignificantPairs(txs: seq<Transaction>, today: Date): seq<FrictionRow>
  {
    var window := Recent(txs, today, 90);
    Where(FrictionRows(txs, today, Keys(window, PairOf)), Significant)
  }

  /** detect_gateway_friction(). */
  function DetectGatewayFriction(txs: seq<Transaction>, today: Date): (r: seq<FrictionRow>)
    ensures multiset(r) == multiset(SignificantPairs(txs, today))
    ensures SortedBy(r, LowerVarianceFirst)
  {
    LowerVarianceFirstIsTotal();
    SortBy(SignificantPairs(txs, today), LowerVarianceFirst)
  }

  lemma LowerVarianceFirstIsTotal()
    ensures TotalPreorder(LowerVarianceFirst)
  {
  }

  /**
   * A reported row is the group of one (gateway, raw country) pair of the
   * last 90 days with at least 50 attempts.
   */
  lemma {:induction false} RowIsSignificantPair(txs: seq<Transaction>, today: Date, row: FrictionRow)
    returns (k: PairKey)
    requires row in DetectGatewayFriction(txs, today)
    ensures |Group(Recent(txs, today, 90), PairOf, k)| > 0
    ensures row == PairFriction(txs, today, k)
    ensures row.attempts >= MinAttempts
    ensures forall t :: t in Group(Recent(txs, today, 90), PairOf, k) ==>
              t in txs && WithinDays(t.txDate, today, 90) && t.gateway == row.gateway
    ensures |txs| > 0
  {
    var window := Recent(txs, today, 90);
    var ks := Keys(window, PairOf);
    var rows := FrictionRows(txs, today, ks);
    assert row in multiset(DetectGatewayFriction(txs, today));
    assert row in rows;
    var i := SeqIndexOf(rows, row);
    k := ks[i];
    var g := Group(window, PairOf, k);
    assert g[0] in g;
  }

  /**
   * A reported row always has a baseline: its group holds a transaction, so
   * the table is not empty; the variance is then the rate minus the baseline.
   */
  lemma BaselinePresent(txs: seq<Transaction>, today: Date, row: FrictionRow)
    requires row in DetectGatewayFriction(txs, today)
    ensures row.baselineRatePct == Some(Percent(SumOf(txs, SuccessWeight), |txs|))
    ensures row.varianceFromBaseline == Some(row.acceptanceRatePct - row.baselineRatePct.value)
  {
    var k := RowIsSignificantPair(txs, today, row);
    assert row.baselineRatePct.Some?;
    assert row.varianceFromBaseline == Variance(row.acceptanceRatePct, row.baselineRatePct);
    VarianceAgainst(row);
  }

  lemma VarianceAgainst(row: FrictionRow)
    requires row.baselineRatePct.Some?
    requires row.varianceFromBaseline == Variance(row.acceptanceRatePct, row.baselineRatePct)
    ensures row.varianceFromBaseline == Some(row.acceptanceRatePct - row.baselineRatePct.value)
  {
  }

  /** With a baseline, the flag is read off the variance alone. */
  lemma FlagByVariance(row: FrictionRow)
    requires row.baselineRatePct.Some?
    requires row.varianceFromBaseline == Variance(row.acceptanceRatePct, row.baselineRatePct)
    requires row.frictionFlag == Classify(row.acceptanceRatePct, row.baselineRatePct)
    ensures row.varianceFromBaseline.Some?
    ensures row.frictionFlag == HighFriction <==> row.varianceFromBaseline.value < -10.0
    ensures row.frictionFlag == MediumFriction <==> -10.0 <= row.varianceFromBaseline.value < -5.0
    ensures row.frictionFlag == Normal <==> row.varianceFromBaseline.value >= -5.0
  {
  }

  /**
   * The flag of a reported row: High Friction below -10 points of variance,
   * Medium Friction from -10 to below -5, Normal from -5 on.
   */
  lemma FlaggedRow(txs: seq<Transaction>, today: Date, row: FrictionRow)
    requires row in DetectGatewayFriction(txs, today)
    ensures row.varianceFromBaseline.Some?
    ensures row.frictionFlag == HighFriction <==> row.varianceFromBaseline.value < -10.0
    ensures row.frictionFlag == MediumFriction <==> -10.0 <= row.varianceFromBaseline.value < -5.0
    ensures row.frictionFlag == Normal <==> row.varianceFromBaseline.value >= -5.0
  {
    var k := RowIsSignificantPair(txs, today, row);
    assert row.baselineRatePct.Some?;
    assert row.varianceFromBaseline == Variance(row.acceptanceRatePct, row.baselineRatePct);
    assert row.frictionFlag == Classify(row.acceptanceRatePct, row.baselineRatePct);
    FlagByVariance(row);
  }

  /** Both rates of a row lie in [0, 100], so its variance lies in [-100, 100]. */
  lemma VarianceBounds(row: FrictionRow)
    requires row.baselineRatePct.Some?
    requires 0.0 <= row.acceptanceRatePct <= 100.0 && 0.0 <= row.baselineRatePct.value <= 100.0
    requires row.varianceFromBaseline == Variance(row.acceptanceRatePct, row.baselineRatePct)
    ensures -100.0 <= row.varianceFromBaseline.value <= 100.0
  {
  }

  /**
   * The counts and rates of a reported row: successes within the attempts,
   * the two rates in [0, 100], so the variance lies in [-100, 100].
   */
  lemma RowBounds(txs: seq<Transaction>, today: Date, row: FrictionRow)
    requires row in DetectGatewayFriction(txs, today)
    ensures 0 <= row.successes <= row.attempts
    ensures 0.0 <= row.acceptanceRatePct <= 100.0
    ensures row.baselineRatePct.Some? && 0.0 <= row.baselineRatePct.value <= 100.0
  {
    var k := RowIsSignificantPair(txs, today, row);
    var g := Group(Recent(txs, today, 90), PairOf, k);
    SumOfIndicator(g, SuccessWeight);
    PercentBounds(row.successes, row.attempts);
    BaselineBounds(txs);
  }

  /** The baseline, when there is one, lies in [0, 100]. */
  lemma BaselineBounds(txs: seq<Transaction>)
    ensures BaselinePct(txs).Some? ==> 0.0 <= BaselinePct(txs).value <= 100.0
  {
    if |txs| > 0 {
      SumOfIndicator(txs, SuccessWeight);
      PercentBounds(SumOf(txs, SuccessWeight), |txs|);
    }
  }

  /** The variance of a reported row lies in [-100, 100]. */
  lemma VarianceInRange(txs: seq<Transaction>, today: Date, row: FrictionRow)
    requires row in DetectGatewayFriction(txs, today)
    ensures row.varianceFromBaseline.Some?
    ensures -100.0 <= row.varianceFromBaseline.value <= 100.0
  {
    RowBounds(txs, today, row);
    var k := RowIsSignificantPair(txs, today, row);
    assert row.varianceFromBaseline == Variance(row.acceptanceRatePct, row.baselineRatePct);
    VarianceBounds(row);
  }

  lemma PairRowPresent(txs: seq<Transaction>, today: Date, k: PairKey)
    requires |Group(Recent(txs, today, 90), PairOf, k)| > 0
    ensures PairFriction(txs, today, k) in FrictionRows(txs, today, Keys(Recent(txs, today, 90), PairOf))
  {
    var g := Group(Recent(txs, today, 90), PairOf, k);
    assert g[0] in g;
    var ks := Keys(Recent(txs, today, 90), PairOf);
    var i := SeqIndexOf(ks, k);
    assert FrictionRows(txs, today, ks)[i] == PairFriction(txs, today, k);
  }

  /** Every pair with at least 50 attempts in the last 90 days is reported. */
  lemma SignificantPairReported(txs: seq<Transaction>, today: Date, k: PairKey)
    requires |Group(Recent(txs, today, 90), PairOf, k)| >= MinAttempts
    ensures PairFriction(txs, today, k) in DetectGatewayFriction(txs, today)
  {
    PairRowPresent(txs, today, k);
    assert PairFriction(txs, today, k) in SignificantPairs(txs, today);
    assert PairFriction(txs, today, k) in multiset(SignificantPairs(txs, today));
    assert PairFriction(txs, today, k) in multiset(DetectGatewayFriction(txs, today));
  }

  /** The rows are the significant pairs, by ascending variance, ties busiest first. */
  lemma Ordered(txs: seq<Transaction>, today: Date)
    ensures multiset(DetectGatewayFriction(txs, today)) == multiset(SignificantPairs(txs, today))
    ensures SortedBy(DetectGatewayFriction(txs, today), LowerVarianceFirst)
  {
    LowerVarianceFirstIsTotal();
  }

  /**
   * Ordering by variance orders the flags: every High Friction row comes
   * before every Medium Friction row, and those before every Normal row.
   */
  lemma SeverityOrder(txs: seq<Transaction>, today: Date)
    ensures forall i, j :: 0 <= i < j < |DetectGatewayFriction(txs, today)| ==>
              Severity(DetectGatewayFriction(txs, today)[i].frictionFlag)
              >= Severity(DetectGatewayFriction(txs, today)[j].frictionFlag)
  {
    var r := DetectGatewayFriction(txs, today);
    Ordered(txs, today);
    forall i, j | 0 <= i < j < |r| ensures Severity(r[i].frictionFlag) >= Severity(r[j].frictionFlag) {
      FlaggedRow(txs, today, r[i]);
      FlaggedRow(txs, today, r[j]);
      assert LowerVarianceFirst(r[i], r[j]);
    }
  }
}
