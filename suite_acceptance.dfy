/**
 * payment_acceptance_rate_by_gateway of src/payment_intelligence/etl_logic.py:
 * the transactions of the last 90 days grouped by gateway and country, the
 * pairs with at least `min_transactions` attempts, their Success / Soft
 * Decline / Hard Decline shares, busiest pair first.
 */
module SuiteAcceptance {
  import opened Relational
  import opened Calendar
  import opened Records

  datatype AcceptanceRow = AcceptanceRow(
    gateway: string,
    country: string,
    totalAttempts: int,
    successfulTxs: int,
    softDeclines: int,
    hardDeclines: int,
    acceptanceRatePct: real,
    softDeclineRatePct: real,
    hardDeclineRatePct: real)

  /** The gateway_stats row of one (gateway, country) group, with the final SELECT's shares. */
  function GatewayStats(window: seq<Transaction>, k: PairKey): (r: AcceptanceRow)
    requires |Group(window, PairOf, k)| > 0
    ensures r.gateway == k.gateway && r.country == Coalesce(k.country, "Unknown")
    ensures r.totalAttempts == |Group(window, PairOf, k)|
  {
    var g := Group(window, PairOf, k);
    var total := |g|;
    var success := SumOf(g, SuccessWeight);
    var soft := SumOf(g, SoftDeclineWeight);
    var hard := SumOf(g, HardDeclineWeight);
    AcceptanceRow(k.gateway, Coalesce(k.country, "Unknown"), total, success, soft, hard,
                  Percent(success, total), Percent(soft, total), Percent(hard, total))
  }

  function StatsRows(window: seq<Transaction>, ks: seq<PairKey>): (r: seq<AcceptanceRow>)
    requires forall i :: 0 <= i < |ks| ==> |Group(window, PairOf, ks[i])| > 0
    ensures |r| == |ks|
    ensures forall i :: 0 <= i < |ks| ==> r[i] == GatewayStats(window, ks[i])
  {
    if ks == [] then [] else [GatewayStats(window, ks[0])] + StatsRows(window, ks[1..])
  }

  /** HAVING COUNT(*) >= min_transactions. */
  function HasAttempts(minTransactions: int): AcceptanceRow -> bool
  {
    (r: AcceptanceRow) => r.totalAttempts >= minTransactions
  }

  /** ORDER BY total_attempts DESC, acceptance_rate_pct ASC. */
  predicate BusierFirst(a: AcceptanceRow, b: AcceptanceRow)
  {
    a.totalAttempts > b.totalAttempts
    || (a.totalAttempts == b.totalAttempts && a.acceptanceRatePct <= b.acceptanceRatePct)
  }

  lemma BusierFirstIsTotal()
    ensures TotalPreorder(BusierFirst)
  {
  }

  /** gateway_stats: every (gateway, country) group of the window that passes HAVING. */
  function QualifyingPairs(txs: seq<Transaction>, today: Date, minTransactions: int): seq<AcceptanceRow>
  {
    var window := Recent(txs, today, 90);
    Where(StatsRows(window, Keys(window, PairOf)), HasAttempts(minTransactions))
  }

  /** payment_acceptance_rate_by_gateway(min_transactions). */
  function PaymentAcceptanceRateByGateway(txs: seq<Transaction>, today: Date, minTransactions: int := 100): (r: seq<AcceptanceRow>)
    ensures multiset(r) == multiset(QualifyingPairs(txs, today, minTransactions))
    ensures SortedBy(r, BusierFirst)
  {
    BusierFirstIsTotal();
    SortBy(QualifyingPairs(txs, today, minTransactions), BusierFirst)
  }

  /**
   * A reported row is the group of one (gateway, raw country) pair of the
   * last 90 days with at least min_transactions attempts; its country is
   * 'Unknown' exactly when the raw country is NULL or the string 'Unknown'.
   */
  lemma {:induction false} RowIsQualifyingPair(txs: seq<Transaction>, today: Date, minTransactions: int, row: AcceptanceRow)
    returns (k: PairKey)
    requires row in PaymentAcceptanceRateByGateway(txs, today, minTransactions)
    ensures |Group(Recent(txs, today, 90), PairOf, k)| > 0
    ensures row == GatewayStats(Recent(txs, today, 90), k)
    ensures row.totalAttempts >= minTransactions
    ensures forall t :: t in Group(Recent(txs, today, 90), PairOf, k) ==>
              t in txs && WithinDays(t.txDate, today, 90) && t.gateway == row.gateway
    ensures row.country == "Unknown" <==> k.country == None || k.country == Some("Unknown")
  {
    var window := Recent(txs, today, 90);
    var ks := Keys(window, PairOf);
    var rows := StatsRows(window, ks);
    assert row in multiset(PaymentAcceptanceRateByGateway(txs, today, minTransactions));
    assert row in rows;
    var i := SeqIndexOf(rows, row);
    k := ks[i];
  }

  /**
   * The counts and shares of a group: the three status counts add up to at
   * most total_attempts, and every share lies in [0, 100].
   */
  lemma StatsBounds(window: seq<Transaction>, k: PairKey)
    requires |Group(window, PairOf, k)| > 0
    ensures var row := GatewayStats(window, k);
      && 0 <= row.successfulTxs && 0 <= row.softDeclines && 0 <= row.hardDeclines
      && row.successfulTxs + row.softDeclines + row.hardDeclines <= row.totalAttempts
      && 0.0 <= row.acceptanceRatePct <= 100.0
      && 0.0 <= row.softDeclineRatePct <= 100.0
      && 0.0 <= row.hardDeclineRatePct <= 100.0
      && row.acceptanceRatePct + row.softDeclineRatePct + row.hardDeclineRatePct <= 100.0
  {
    var g := Group(window, PairOf, k);
    var s, f, h := SumOf(g, SuccessWeight), SumOf(g, SoftDeclineWeight), SumOf(g, HardDeclineWeight);
    StatusCounts(g);
    PercentBounds(s, |g|);
    PercentBounds(f, |g|);
    PercentBounds(h, |g|);
    PercentAdd(s, f, |g|);
    PercentAdd(s + f, h, |g|);
    PercentBounds(s + f + h, |g|);
  }

  /** The bounds of StatsBounds hold of every reported row. */
  lemma RowBounds(txs: seq<Transaction>, today: Date, minTransactions: int, row: AcceptanceRow)
    requires row in PaymentAcceptanceRateByGateway(txs, today, minTransactions)
    ensures 0 <= row.successfulTxs && 0 <= row.softDeclines && 0 <= row.hardDeclines
    ensures row.successfulTxs + row.softDeclines + row.hardDeclines <= row.totalAttempts
    ensures 0.0 <= row.acceptanceRatePct <= 100.0
    ensures 0.0 <= row.softDeclineRatePct <= 100.0
    ensures 0.0 <= row.hardDeclineRatePct <= 100.0
    ensures row.acceptanceRatePct + row.softDeclineRatePct + row.hardDeclineRatePct <= 100.0
  {
    var k := RowIsQualifyingPair(txs, today, minTransactions, row);
    StatsBounds(Recent(txs, today, 90), k);
  }

  /** The group of every pair present in the window has its row. */
  lemma PairRowPresent(window: seq<Transaction>, k: PairKey)
    requires |Group(window, PairOf, k)| > 0
    ensures GatewayStats(window, k) in StatsRows(window, Keys(window, PairOf))
  {
    var g := Group(window, PairOf, k);
    assert g[0] in g;
    var ks := Keys(window, PairOf);
    var i := SeqIndexOf(ks, k);
    assert StatsRows(window, ks)[i] == GatewayStats(window, k);
  }

  /**
   * Every (gateway, raw country) pair with at least min_transactions
   * attempts in the last 90 days (and at least one) is reported.
   */
  lemma QualifyingPairReported(txs: seq<Transaction>, today: Date, minTransactions: int, k: PairKey)
    requires |Group(Recent(txs, today, 90), PairOf, k)| >= minTransactions
    requires |Group(Recent(txs, today, 90), PairOf, k)| > 0
    ensures GatewayStats(Recent(txs, today, 90), k) in PaymentAcceptanceRateByGateway(txs, today, minTransactions)
  {
    var row := GatewayStats(Recent(txs, today, 90), k);
    PairRowPresent(Recent(txs, today, 90), k);
    assert row in QualifyingPairs(txs, today, minTransactions);
    assert row in multiset(QualifyingPairs(txs, today, minTransactions));
    assert row in multiset(PaymentAcceptanceRateByGateway(txs, today, minTransactions));
  }

  /** The rows are the qualifying pairs, busiest first, ties by ascending acceptance. */
  lemma Ordered(txs: seq<Transaction>, today: Date, minTransactions: int)
    ensures multiset(PaymentAcceptanceRateByGateway(txs, today, minTransactions))
            == multiset(QualifyingPairs(txs, today, minTransactions))
    ensures forall i, j :: 0 <= i < j < |PaymentAcceptanceRateByGateway(txs, today, minTransactions)| ==>
              BusierFirst(PaymentAcceptanceRateByGateway(txs, today, minTransactions)[i],
                          PaymentAcceptanceRateByGateway(txs, today, minTransactions)[j])
  {
    BusierFirstIsTotal();
  }
}
