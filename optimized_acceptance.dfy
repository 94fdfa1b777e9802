/**
 * payment_acceptance_rate_by_gateway of payment_intelligence/etl_logic.py:
 * every transaction grouped by gateway and raw country, the groups with at
 * least `min_transactions` attempts, their Success / Soft Decline / Hard
 * Decline shares, the 50 best accepting groups first.
 */
module OptimizedAcceptance {
  import opened Relational
  import opened Records

  const RowLimit := 50

  /** The country is the raw, nullable column: no COALESCE in this query. */
  datatype AcceptanceRow = AcceptanceRow(
    gateway: string,
    country: Option<string>,
    totalAttempts: int,
    acceptanceRatePct: Option<real>,
    softDeclineRatePct: Option<real>,
    hardDeclineRatePct: Option<real>)

  /** The row of one (gateway, country) group. */
  function PairRow(txs: seq<Transaction>, k: PairKey): (r: AcceptanceRow)
    ensures r.gateway == k.gateway && r.country == k.country
    ensures r.totalAttempts == |Group(txs, PairOf, k)|
  {
    var g := Group(txs, PairOf, k);
    AcceptanceRow(k.gateway, k.country, |g|,
                  PercentOrNull(SumOf(g, SuccessWeight), |g|),
                  PercentOrNull(SumOf(g, SoftDeclineWeight), |g|),
                  PercentOrNull(SumOf(g, HardDeclineWeight), |g|))
  }

  function PairRows(txs: seq<Transaction>, ks: seq<PairKey>): (r: seq<AcceptanceRow>)
    ensures |r| == |ks|
    ensures forall i :: 0 <= i < |ks| ==> r[i] == PairRow(txs, ks[i])
  {
    if ks == [] then [] else [PairRow(txs, ks[0])] + PairRows(txs, ks[1..])
  }

  /** HAVING COUNT(*) >= min_transactions. */
  function HasAttempts(minTransactions: int): AcceptanceRow -> bool
  {
    (r: AcceptanceRow) => r.totalAttempts >= minTransactions
  }

  /** The groups that pass HAVING, before ORDER BY .. LIMIT. */
  function QualifyingPairs(txs: seq<Transaction>, minTransactions: int): seq<AcceptanceRow>
  {
    Where(PairRows(txs, Keys(txs, PairOf)), HasAttempts(minTransactions))
  }

  /** ORDER BY acceptance_rate_pct DESC, with DuckDB's NULLS LAST. */
  predicate BetterAccepting(a: AcceptanceRow, b: AcceptanceRow)
  {
    if a.acceptanceRatePct.None? then b.acceptanceRatePct.None?
    else b.acceptanceRatePct.None? || a.acceptanceRatePct.value >= b.acceptanceRatePct.value
  }

  lemma BetterAcceptingIsTotal()
    ensures TotalPreorder(BetterAccepting)
  {
  }

  /** payment_acceptance_rate_by_gateway(min_transactions). */
  function PaymentAcceptanceRateByGateway(txs: seq<Transaction>, minTransactions: int := 50): (r: seq<AcceptanceRow>)
    ensures |r| <= RowLimit
    ensures multiset(r) <= multiset(QualifyingPairs(txs, minTransactions))
    ensures SortedBy(r, BetterAccepting)
  {
    BetterAcceptingIsTotal();
    TopN(QualifyingPairs(txs, minTransactions), BetterAccepting, RowLimit)
  }

  /** A reported row is the row of a (gateway, country) group that passes HAVING. */
  lemma {:induction false} RowIsPair(txs: seq<Transaction>, minTransactions: int, row: AcceptanceRow)
    returns (k: PairKey)
    requires row in PaymentAcceptanceRateByGateway(txs, minTransactions)
    ensures |Group(txs, PairOf, k)| > 0
    ensures row == PairRow(txs, k)
    ensures row.totalAttempts >= minTransactions
  {
    var ks := Keys(txs, PairOf);
    TopNMember(QualifyingPairs(txs, minTransactions), BetterAccepting, RowLimit, row);
    var i := SeqIndexOf(PairRows(txs, ks), row);
    k := ks[i];
  }

  /** The shares of a group: never NULL, each in [0, 100], together at most 100. */
  lemma PairBounds(txs: seq<Transaction>, k: PairKey)
    requires |Group(txs, PairOf, k)| > 0
    ensures var row := PairRow(txs, k);
      && row.acceptanceRatePct.Some? && row.softDeclineRatePct.Some? && row.hardDeclineRatePct.Some?
      && 0.0 <= row.acceptanceRatePct.value <= 100.0
      && 0.0 <= row.softDeclineRatePct.value <= 100.0
      && 0.0 <= row.hardDeclineRatePct.value <= 100.0
      && row.acceptanceRatePct.value + row.softDeclineRatePct.value + row.hardDeclineRatePct.value <= 100.0
  {
    var g := Group(txs, PairOf, k);
    var s, f, h := SumOf(g, SuccessWeight), SumOf(g, SoftDeclineWeight), SumOf(g, HardDeclineWeight);
    StatusCounts(g);
    PercentBounds(s, |g|);
    PercentBounds(f, |g|);
    PercentBounds(h, |g|);
    PercentAdd(s, f, |g|);
    PercentAdd(s + f, h, |g|);
    PercentBounds(s + f + h, |g|);
  }

  /** The bounds of PairBounds hold of every reported row. */
  lemma RowBounds(txs: seq<Transaction>, minTransactions: int, row: AcceptanceRow)
    requires row in PaymentAcceptanceRateByGateway(txs, minTransactions)
    ensures row.acceptanceRatePct.Some? && row.softDeclineRatePct.Some? && row.hardDeclineRatePct.Some?
    ensures 0.0 <= row.acceptanceRatePct.value <= 100.0
    ensures 0.0 <= row.softDeclineRatePct.value <= 100.0
    ensures 0.0 <= row.hardDeclineRatePct.value <= 100.0
    ensures row.acceptanceRatePct.value + row.softDeclineRatePct.value + row.hardDeclineRatePct.value <= 100.0
  {
    var k := RowIsPair(txs, minTransactions, row);
    PairBounds(txs, k);
  }

  /** At most 50 rows, best acceptance first. */
  lemma Ordered(txs: seq<Transaction>, minTransactions: int)
    ensures |PaymentAcceptanceRateByGateway(txs, minTransactions)| <= RowLimit
    ensures forall i, j :: 0 <= i < j < |PaymentAcceptanceRateByGateway(txs, minTransactions)| ==>
              BetterAccepting(PaymentAcceptanceRateByGateway(txs, minTransactions)[i],
                              PaymentAcceptanceRateByGateway(txs, minTransactions)[j])
  {
    BetterAcceptingIsTotal();
  }

  /**
   * A group with at least min_transactions attempts is reported, unless the
   * 50 rows are all taken by groups accepting at least as well.
   */
  lemma PairReported(txs: seq<Transaction>, minTransactions: int, k: PairKey)
    requires |Group(txs, PairOf, k)| >= minTransactions
    requires |Group(txs, PairOf, k)| > 0
    ensures PairRow(txs, k) in PaymentAcceptanceRateByGateway(txs, minTransactions)
            || (|PaymentAcceptanceRateByGateway(txs, minTransactions)| == RowLimit
                && forall row :: row in PaymentAcceptanceRateByGateway(txs, minTransactions) ==>
                     BetterAccepting(row, PairRow(txs, k)))
  {
    var row0 := PairRow(txs, k);
    PairQualifies(txs, minTransactions, k);
    if row0 !in PaymentAcceptanceRateByGateway(txs, minTransactions) {
      BetterAcceptingIsTotal();
      TopNDropped(QualifyingPairs(txs, minTransactions), BetterAccepting, RowLimit, row0);
    }
  }

  lemma PairQualifies(txs: seq<Transaction>, minTransactions: int, k: PairKey)
    requires |Group(txs, PairOf, k)| >= minTransactions
    requires |Group(txs, PairOf, k)| > 0
    ensures PairRow(txs, k) in QualifyingPairs(txs, minTransactions)
  {
    var ks := Keys(txs, PairOf);
    var g := Group(txs, PairOf, k);
    assert g[0] in g;
    var i := SeqIndexOf(ks, k);
    assert PairRows(txs, ks)[i] == PairRow(txs, k);
  }
}
