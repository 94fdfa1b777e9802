/**
 * get_sankey_data of src/payment_intelligence/etl_logic.py: the edges of an
 * Attempt -> gateway -> outcome -> Settled diagram, as the UNION ALL of three
 * aggregates over the (optionally country-filtered) transactions, with the
 * NULL targets dropped and the largest flows first.
 */
module SuiteSankey {
  import opened Relational
  import opened Records

  /** One (source, target, value) row; the target is NULL for an unknown status. */
  datatype FlowRow = FlowRow(source: string, target: Option<string>, value: int)

  function FlowValue(r: FlowRow): int { r.value }

  /** `if country_filter:` — None and the empty string both mean no filter. */
  predicate Filtered(countryFilter: Option<string>)
  {
    countryFilter.Some? && countryFilter.value != ""
  }

  /** WHERE country = '<c>'; a NULL country never equals a literal. */
  function InCountry(c: string): Transaction -> bool
  {
    (t: Transaction) => t.country == Some(c)
  }

  /** The transactions the three aggregates read. */
  function Scope(txs: seq<Transaction>, countryFilter: Option<string>): seq<Transaction>
  {
    if Filtered(countryFilter) then Where(txs, InCountry(countryFilter.value)) else txs
  }

  // ---------------------------------------------------------------------------
  // 'Attempt' -> gateway: COUNT(*) .. GROUP BY gateway

  function AttemptEdge(scope: seq<Transaction>, gateway: string): FlowRow
  {
    FlowRow("Attempt", Some(gateway), |Group(scope, TxGateway, gateway)|)
  }

  function AttemptEdges(scope: seq<Transaction>, ks: seq<string>): (r: seq<FlowRow>)
    ensures |r| == |ks|
    ensures forall i :: 0 <= i < |ks| ==> r[i] == AttemptEdge(scope, ks[i])
  {
    if ks == [] then [] else [AttemptEdge(scope, ks[0])] + AttemptEdges(scope, ks[1..])
  }

  // ---------------------------------------------------------------------------
  // gateway -> outcome: COUNT(*) .. GROUP BY gateway, status

  datatype GatewayStatus = GatewayStatus(gateway: string, status: string)

  function GatewayStatusOf(t: Transaction): GatewayStatus { GatewayStatus(t.gateway, t.status) }

  /** The CASE over status; any other label falls through to NULL. */
  function StatusTarget(status: string): (r: Option<string>)
    ensures r.Some? <==> KnownTxStatus(status)
    ensures r == Some("Authorized") <==> status == "Success"
  {
    if status == "Success" then Some("Authorized")
    else if status == "Soft Decline" then Some("Soft Decline")
    else if status == "Hard Decline" then Some("Hard Decline")
    else None
  }

  function StatusEdge(scope: seq<Transaction>, k: GatewayStatus): FlowRow
  {
    FlowRow(k.gateway, StatusTarget(k.status), |Group(scope, GatewayStatusOf, k)|)
  }

  function StatusEdges(scope: seq<Transaction>, ks: seq<GatewayStatus>): (r: seq<FlowRow>)
    ensures |r| == |ks|
    ensures forall i :: 0 <= i < |ks| ==> r[i] == StatusEdge(scope, ks[i])
  {
    if ks == [] then [] else [StatusEdge(scope, ks[0])] + StatusEdges(scope, ks[1..])
  }

  // ---------------------------------------------------------------------------
  // 'Authorized' -> 'Settled': COUNT(*) WHERE status = 'Success', one row always

  function SettledEdge(scope: seq<Transaction>): FlowRow
  {
    FlowRow("Authorized", Some("Settled"), |Where(scope, IsSuccessTx)|)
  }

  /** flow_data: the UNION ALL of the three parts. */
  function FlowData(scope: seq<Transaction>): seq<FlowRow>
  {
    AttemptEdges(scope, Keys(scope, TxGateway))
    + StatusEdges(scope, Keys(scope, GatewayStatusOf))
    + [SettledEdge(scope)]
  }

  /** WHERE target IS NOT NULL. */
  predicate HasTarget(r: FlowRow) { r.target.Some? }

  /** ORDER BY value DESC. */
  predicate LargerFirst(a: FlowRow, b: FlowRow) { a.value >= b.value }

  lemma LargerFirstIsTotal()
    ensures TotalPreorder(LargerFirst)
  {
  }

  /** The rows with a target, largest flows first. */
  function Reported(scope: seq<Transaction>): seq<FlowRow>
  {
    SortBy(Where(FlowData(scope), HasTarget), LargerFirst)
  }

  /** get_sankey_data(country_filter). */
  function SankeyData(txs: seq<Transaction>, countryFilter: Option<string> := None): (r: seq<FlowRow>)
    ensures multiset(r) == multiset(Where(FlowData(Scope(txs, countryFilter)), HasTarget))
    ensures SortedBy(r, LargerFirst)
  {
    LargerFirstIsTotal();
    Reported(Scope(txs, countryFilter))
  }

  // ---------------------------------------------------------------------------
  // Properties

  /**
   * The filter keeps exactly the transactions of the named country; without
   * a filter (None or '') every transaction is read.
   */
  lemma ScopeRows(txs: seq<Transaction>, countryFilter: Option<string>)
    ensures !Filtered(countryFilter) ==> Scope(txs, countryFilter) == txs
    ensures Filtered(countryFilter) ==>
              forall t :: t in Scope(txs, countryFilter) <==> t in txs && t.country == countryFilter
  {
  }

  /**
   * The rows are the non-NULL-target rows of the three parts, each edge with
   * a target, largest value first.
   */
  lemma Ordered(txs: seq<Transaction>, countryFilter: Option<string>)
    ensures multiset(SankeyData(txs, countryFilter))
            == multiset(Where(FlowData(Scope(txs, countryFilter)), HasTarget))
    ensures forall r :: r in SankeyData(txs, countryFilter) ==> r.target.Some?
    ensures forall i, j :: 0 <= i < j < |SankeyData(txs, countryFilter)| ==>
              SankeyData(txs, countryFilter)[i].value >= SankeyData(txs, countryFilter)[j].value
  {
    var kept := Where(FlowData(Scope(txs, countryFilter)), HasTarget);
    LargerFirstIsTotal();
    forall r | r in SankeyData(txs, countryFilter) ensures r.target.Some? {
      assert r in multiset(SankeyData(txs, countryFilter));
      assert r in kept;
    }
    forall i, j | 0 <= i < j < |SankeyData(txs, countryFilter)|
      ensures SankeyData(txs, countryFilter)[i].value >= SankeyData(txs, countryFilter)[j].value
    {
      assert LargerFirst(SankeyData(txs, countryFilter)[i], SankeyData(txs, countryFilter)[j]);
    }
  }

  /** A row of the three parts that has a target is reported. */
  lemma FlowReported(txs: seq<Transaction>, countryFilter: Option<string>, r: FlowRow)
    requires r in FlowData(Scope(txs, countryFilter)) && r.target.Some?
    ensures r in SankeyData(txs, countryFilter)
  {
    var kept := Where(FlowData(Scope(txs, countryFilter)), HasTarget);
    assert r in kept;
    assert r in multiset(kept);
    assert r in multiset(SankeyData(txs, countryFilter));
  }

  /**
   * The Authorized -> Settled edge is always reported, with the number of
   * Success transactions in scope, even when that number is 0.
   */
  lemma SettledReported(txs: seq<Transaction>, countryFilter: Option<string>)
    ensures SettledEdge(Scope(txs, countryFilter)) in SankeyData(txs, countryFilter)
    ensures SettledEdge(Scope(txs, countryFilter)).value == SumOf(Scope(txs, countryFilter), SuccessWeight)
  {
    var scope := Scope(txs, countryFilter);
    FlowReported(txs, countryFilter, SettledEdge(scope));
    SuccessesCount(scope);
  }

  /** |WHERE status = 'Success'| is the Success count. */
  lemma {:induction false} SuccessesCount(xs: seq<Transaction>)
    ensures |Where(xs, IsSuccessTx)| == SumOf(xs, SuccessWeight)
  {
    if xs != [] {
      SuccessesCount(xs[1..]);
    }
  }

  /** Every gateway in scope has its Attempt edge, with a positive count. */
  lemma AttemptReported(txs: seq<Transaction>, countryFilter: Option<string>, t: Transaction)
    requires t in Scope(txs, countryFilter)
    ensures AttemptEdge(Scope(txs, countryFilter), t.gateway) in SankeyData(txs, countryFilter)
    ensures AttemptEdge(Scope(txs, countryFilter), t.gateway).value > 0
  {
    var scope := Scope(txs, countryFilter);
    var ks := Keys(scope, TxGateway);
    var i := SeqIndexOf(ks, TxGateway(t));
    assert AttemptEdges(scope, ks)[i] == AttemptEdge(scope, t.gateway);
    assert AttemptEdge(scope, t.gateway) in FlowData(scope);
    FlowReported(txs, countryFilter, AttemptEdge(scope, t.gateway));
  }

  // ---------------------------------------------------------------------------
  // Conservation of flow

  lemma {:induction false} AttemptEdgesSum(scope: seq<Transaction>, ks: seq<string>)
    ensures SumOf(AttemptEdges(scope, ks), FlowValue) == SumGroups(ks, scope, TxGateway, TxOne)
  {
    if ks != [] {
      AttemptEdgesSum(scope, ks[1..]);
      SumOfOnes(Group(scope, TxGateway, ks[0]), TxOne);
      assert AttemptEdges(scope, ks)[1..] == AttemptEdges(scope, ks[1..]);
    }
  }

  /** The Attempt edges carry every transaction in scope exactly once. */
  lemma AttemptConservation(scope: seq<Transaction>)
    ensures SumOf(AttemptEdges(scope, Keys(scope, TxGateway)), FlowValue) == |scope|
  {
    var ks := Keys(scope, TxGateway);
    AttemptEdgesSum(scope, ks);
    Partition(ks, scope, TxGateway, TxOne);
    SumOfOnes(scope, TxOne);
  }

  lemma {:induction false} StatusEdgesSum(scope: seq<Transaction>, ks: seq<GatewayStatus>,
                                          rw: FlowRow -> int, tw: Transaction -> int)
    requires forall i :: 0 <= i < |ks| ==>
               rw(StatusEdge(scope, ks[i])) == SumOf(Group(scope, GatewayStatusOf, ks[i]), tw)
    ensures SumOf(StatusEdges(scope, ks), rw) == SumGroups(ks, scope, GatewayStatusOf, tw)
  {
    if ks != [] {
      StatusEdgesSum(scope, ks[1..], rw, tw);
      assert StatusEdges(scope, ks)[1..] == StatusEdges(scope, ks[1..]);
    }
  }

  /** A status edge's value when its target has a name, and 0 otherwise. */
  function DecidedValue(r: FlowRow): int { if r.target.Some? then r.value else 0 }

  /** A status edge's value when it enters Authorized, and 0 otherwise. */
  function AuthorizedValue(r: FlowRow): int { if r.target == Some("Authorized") then r.value else 0 }

  /** Within one (gateway, status) group every row has the group's status. */
  lemma GroupStatusWeights(scope: seq<Transaction>, k: GatewayStatus)
    ensures DecidedValue(StatusEdge(scope, k)) == SumOf(Group(scope, GatewayStatusOf, k), DecisionWeight)
    ensures AuthorizedValue(StatusEdge(scope, k)) == SumOf(Group(scope, GatewayStatusOf, k), SuccessWeight)
  {
    var g := Group(scope, GatewayStatusOf, k);
    forall i | 0 <= i < |g| ensures g[i].status == k.status {
      assert g[i] in g;
    }
    if KnownTxStatus(k.status) {
      SumOfOnes(g, DecisionWeight);
    } else {
      SumOfZero(g, DecisionWeight);
    }
    if k.status == "Success" {
      SumOfOnes(g, SuccessWeight);
    } else {
      SumOfZero(g, SuccessWeight);
    }
  }

  /**
   * Out of the gateway layer: the named-target status edges carry every
   * transaction whose status is one of the three labels (all of them, when
   * every status is), and the edges into Authorized carry exactly the
   * Authorized -> Settled value.
   */
  lemma GatewayConservation(scope: seq<Transaction>)
    ensures SumOf(StatusEdges(scope, Keys(scope, GatewayStatusOf)), DecidedValue)
            == SumOf(scope, DecisionWeight)
    ensures SumOf(StatusEdges(scope, Keys(scope, GatewayStatusOf)), DecidedValue) <= |scope|
    ensures (forall i :: 0 <= i < |scope| ==> KnownTxStatus(scope[i].status)) ==>
              SumOf(StatusEdges(scope, Keys(scope, GatewayStatusOf)), DecidedValue) == |scope|
    ensures SumOf(StatusEdges(scope, Keys(scope, GatewayStatusOf)), AuthorizedValue)
            == SettledEdge(scope).value
  {
    var ks := Keys(scope, GatewayStatusOf);
    forall i | 0 <= i < |ks|
      ensures DecidedValue(StatusEdge(scope, ks[i])) == SumOf(Group(scope, GatewayStatusOf, ks[i]), DecisionWeight)
      ensures AuthorizedValue(StatusEdge(scope, ks[i])) == SumOf(Group(scope, GatewayStatusOf, ks[i]), SuccessWeight)
    {
      GroupStatusWeights(scope, ks[i]);
    }
    StatusEdgesSum(scope, ks, DecidedValue, DecisionWeight);
    StatusEdgesSum(scope, ks, AuthorizedValue, SuccessWeight);
    Partition(ks, scope, GatewayStatusOf, DecisionWeight);
    Partition(ks, scope, GatewayStatusOf, SuccessWeight);
    StatusCounts(scope);
    SumOfAdd(scope, SuccessWeight, SoftDeclineWeight, SuccessOrSoft);
    SumOfAdd(scope, SuccessOrSoft, HardDeclineWeight, DecisionWeight);
    SuccessesCount(scope);
  }

  // ---------------------------------------------------------------------------
  // Conservation of flow in the reported rows

  /** A reported row's value when it leaves the Attempt node, and 0 otherwise. */
  function FromAttempt(r: FlowRow): int { if r.source == "Attempt" && r.target.Some? then r.value else 0 }

  /** A reported row's value when it leaves the Authorized node, and 0 otherwise. */
  function FromAuthorized(r: FlowRow): int { if r.source == "Authorized" && r.target.Some? then r.value else 0 }

  /**
   * A weight that ignores target-less rows sums over the reported rows as
   * over the three parts: WHERE drops only rows it ignores, ORDER BY only
   * reorders.
   */
  lemma ReportedSum(scope: seq<Transaction>, w: FlowRow -> int)
    requires forall r: FlowRow :: r.target.None? ==> w(r) == 0
    ensures SumOf(Reported(scope), w)
            == SumOf(AttemptEdges(scope, Keys(scope, TxGateway)), w)
               + SumOf(StatusEdges(scope, Keys(scope, GatewayStatusOf)), w)
               + w(SettledEdge(scope))
  {
    KeptSum(FlowData(scope), w);
    PartsSum(AttemptEdges(scope, Keys(scope, TxGateway)), StatusEdges(scope, Keys(scope, GatewayStatusOf)),
             SettledEdge(scope), w);
  }

  lemma KeptSum(fd: seq<FlowRow>, w: FlowRow -> int)
    requires forall r: FlowRow :: r.target.None? ==> w(r) == 0
    ensures SumOf(SortBy(Where(fd, HasTarget), LargerFirst), w) == SumOf(fd, w)
  {
    SortBySum(Where(fd, HasTarget), LargerFirst, w);
    SumOfWhere(fd, HasTarget, w);
  }

  lemma PartsSum(a: seq<FlowRow>, s: seq<FlowRow>, e: FlowRow, w: FlowRow -> int)
    ensures SumOf(a + s + [e], w) == SumOf(a, w) + SumOf(s, w) + w(e)
  {
    SumOfAppend(a + s, [e], w);
    SumOfAppend(a, s, w);
    assert SumOf([e], w) == w(e);
  }

  /** Every Attempt edge enters the gateway of a transaction in scope. */
  lemma AttemptEdgeTarget(scope: seq<Transaction>, i: nat) returns (t: Transaction)
    requires i < |Keys(scope, TxGateway)|
    ensures t in scope && AttemptEdges(scope, Keys(scope, TxGateway))[i].target == Some(t.gateway)
  {
    var g := Group(scope, TxGateway, Keys(scope, TxGateway)[i]);
    t := g[0];
    assert t in g;
  }

  /** Every status edge leaves the gateway of a transaction in scope. */
  lemma StatusEdgeSource(scope: seq<Transaction>, i: nat) returns (t: Transaction)
    requires i < |Keys(scope, GatewayStatusOf)|
    ensures t in scope && StatusEdges(scope, Keys(scope, GatewayStatusOf))[i].source == t.gateway
  {
    var g := Group(scope, GatewayStatusOf, Keys(scope, GatewayStatusOf)[i]);
    t := g[0];
    assert t in g;
  }

  /**
   * The reported rows leaving Attempt carry every transaction in scope
   * exactly once. Nodes are named by their labels alone, so a gateway
   * literally called "Attempt" would merge its outcome edges into this node:
   * the requires rules such a gateway out.
   */
  lemma AttemptOutflow(txs: seq<Transaction>, countryFilter: Option<string>)
    requires forall t :: t in Scope(txs, countryFilter) ==> t.gateway != "Attempt"
    ensures SumOf(SankeyData(txs, countryFilter), FromAttempt) == |Scope(txs, countryFilter)|
  {
    AttemptOutflowOf(Scope(txs, countryFilter));
  }

  lemma AttemptOutflowOf(scope: seq<Transaction>)
    requires forall t :: t in scope ==> t.gateway != "Attempt"
    ensures SumOf(Reported(scope), FromAttempt) == |scope|
  {
    ReportedSum(scope, FromAttempt);
    AttemptPartFromAttempt(scope);
    StatusPartFromAttempt(scope);
  }

  lemma AttemptPartFromAttempt(scope: seq<Transaction>)
    ensures SumOf(AttemptEdges(scope, Keys(scope, TxGateway)), FromAttempt) == |scope|
  {
    var a := AttemptEdges(scope, Keys(scope, TxGateway));
    SumOfMono(a, FromAttempt, FlowValue);
    SumOfMono(a, FlowValue, FromAttempt);
    AttemptConservation(scope);
  }

  lemma StatusPartFromAttempt(scope: seq<Transaction>)
    requires forall t :: t in scope ==> t.gateway != "Attempt"
    ensures SumOf(StatusEdges(scope, Keys(scope, GatewayStatusOf)), FromAttempt) == 0
  {
    var s := StatusEdges(scope, Keys(scope, GatewayStatusOf));
    forall i | 0 <= i < |s| ensures FromAttempt(s[i]) == 0 {
      var t := StatusEdgeSource(scope, i);
    }
    SumOfZero(s, FromAttempt);
  }

  /**
   * Through the Authorized node of the reported rows, flow in equals flow
   * out: the gateway -> Authorized rows add up to the Authorized -> Settled
   * value, which is the only row leaving Authorized. A gateway literally
   * called "Authorized" would merge with this node, so the requires rules
   * one out.
   */
  lemma AuthorizedFlow(txs: seq<Transaction>, countryFilter: Option<string>)
    requires forall t :: t in Scope(txs, countryFilter) ==> t.gateway != "Authorized"
    ensures SumOf(SankeyData(txs, countryFilter), AuthorizedValue) == SettledEdge(Scope(txs, countryFilter)).value
    ensures SumOf(SankeyData(txs, countryFilter), FromAuthorized) == SettledEdge(Scope(txs, countryFilter)).value
  {
    AuthorizedInflowOf(Scope(txs, countryFilter));
    AuthorizedOutflowOf(Scope(txs, countryFilter));
  }

  lemma AuthorizedInflowOf(scope: seq<Transaction>)
    requires forall t :: t in scope ==> t.gateway != "Authorized"
    ensures SumOf(Reported(scope), AuthorizedValue) == SettledEdge(scope).value
  {
    var a := AttemptEdges(scope, Keys(scope, TxGateway));
    ReportedSum(scope, AuthorizedValue);
    forall i | 0 <= i < |a| ensures AuthorizedValue(a[i]) == 0 {
      var t := AttemptEdgeTarget(scope, i);
    }
    SumOfZero(a, AuthorizedValue);
    GatewayConservation(scope);
  }

  lemma AuthorizedOutflowOf(scope: seq<Transaction>)
    requires forall t :: t in scope ==> t.gateway != "Authorized"
    ensures SumOf(Reported(scope), FromAuthorized) == SettledEdge(scope).value
  {
    var a := AttemptEdges(scope, Keys(scope, TxGateway));
    var s := StatusEdges(scope, Keys(scope, GatewayStatusOf));
    ReportedSum(scope, FromAuthorized);
    SumOfZero(a, FromAuthorized);
    forall i | 0 <= i < |s| ensures FromAuthorized(s[i]) == 0 {
      var t := StatusEdgeSource(scope, i);
    }
    SumOfZero(s, FromAuthorized);
  }
}
