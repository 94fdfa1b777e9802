/**
 * get_sankey_data of payment_intelligence/etl_logic.py: the edges of an
 * Attempt -> gateway -> Authorized/Declined -> Settled diagram, as the
 * UNION ALL of three aggregates over the transactions, filtered by country
 * as SuiteSankey.Scope filters them. Every status has a target here, and
 * the query has no ORDER BY, so the order of its rows is unspecified: the
 * properties below speak of the rows, not of their order.
 */
module OptimizedSankey {
  import opened Relational
  import opened Records
  import SuiteSankey

  /** One (source, target, value) row; the target is never NULL in this query. */
  datatype Edge = Edge(source: string, target: string, value: int)

  function EdgeValue(e: Edge): int { e.value }

  // ---------------------------------------------------------------------------
  // 'Attempt' -> gateway: COUNT(*) .. GROUP BY gateway

  function AttemptEdge(scope: seq<Transaction>, gateway: string): Edge
  {
    Edge("Attempt", gateway, |Group(scope, TxGateway, gateway)|)
  }

  function AttemptEdges(scope: seq<Transaction>, ks: seq<string>): (r: seq<Edge>)
    ensures |r| == |ks|
    ensures forall i :: 0 <= i < |ks| ==> r[i] == AttemptEdge(scope, ks[i])
  {
    if ks == [] then [] else [AttemptEdge(scope, ks[0])] + AttemptEdges(scope, ks[1..])
  }

  // ---------------------------------------------------------------------------
  // gateway -> outcome: COUNT(*) .. GROUP BY gateway, target

  /** CASE status WHEN 'Success' THEN 'Authorized' ELSE 'Declined' END. */
  function Outcome(status: string): (r: string)
    ensures r == "Authorized" <==> status == "Success"
    ensures r == "Authorized" || r == "Declined"
  {
    if status == "Success" then "Authorized" else "Declined"
  }

  /** GROUP BY gateway, target: `target` names the CASE column. */
  datatype GatewayOutcome = GatewayOutcome(gateway: string, outcome: string)

  function GatewayOutcomeOf(t: Transaction): GatewayOutcome { GatewayOutcome(t.gateway, Outcome(t.status)) }

  function OutcomeEdge(scope: seq<Transaction>, k: GatewayOutcome): Edge
  {
    Edge(k.gateway, k.outcome, |Group(scope, GatewayOutcomeOf, k)|)
  }

  function OutcomeEdges(scope: seq<Transaction>, ks: seq<GatewayOutcome>): (r: seq<Edge>)
    ensures |r| == |ks|
    ensures forall i :: 0 <= i < |ks| ==> r[i] == OutcomeEdge(scope, ks[i])
  {
    if ks == [] then [] else [OutcomeEdge(scope, ks[0])] + OutcomeEdges(scope, ks[1..])
  }

  // ---------------------------------------------------------------------------
  // 'Authorized' -> 'Settled': COUNT(*) WHERE status = 'Success', one row always

  function SettledEdge(scope: seq<Transaction>): Edge
  {
    Edge("Authorized", "Settled", |Where(scope, IsSuccessTx)|)
  }

  /** The three parts of the UNION ALL. */
  function SankeyEdges(scope: seq<Transaction>): seq<Edge>
  {
    AttemptEdges(scope, Keys(scope, TxGateway))
    + OutcomeEdges(scope, Keys(scope, GatewayOutcomeOf))
    + [SettledEdge(scope)]
  }

  /** get_sankey_data(country_filter), rows in an unspecified order. */
  function SankeyData(txs: seq<Transaction>, countryFilter: Option<string> := None): (r: seq<Edge>)
    ensures |r| == |Keys(SuiteSankey.Scope(txs, countryFilter), TxGateway)|
                   + |Keys(SuiteSankey.Scope(txs, countryFilter), GatewayOutcomeOf)| + 1
    ensures SettledEdge(SuiteSankey.Scope(txs, countryFilter)) in r
  {
    SankeyEdges(SuiteSankey.Scope(txs, countryFilter))
  }

  // ---------------------------------------------------------------------------
  // Properties

  /**
   * The rows are one Attempt edge per gateway in scope, one edge per
   * (gateway, outcome) in scope and the Settled edge: nothing else, and
   * every target a label of the diagram.
   */
  lemma Rows(txs: seq<Transaction>, countryFilter: Option<string>, e: Edge)
    requires e in SankeyData(txs, countryFilter)
    ensures (e.source == "Attempt" && e.value > 0 && exists t :: t in SuiteSankey.Scope(txs, countryFilter) && t.gateway == e.target)
            || ((e.target == "Authorized" || e.target == "Declined") && e.value > 0
                && exists t :: t in SuiteSankey.Scope(txs, countryFilter) && t.gateway == e.source && Outcome(t.status) == e.target)
            || e == SettledEdge(SuiteSankey.Scope(txs, countryFilter))
  {
    var scope := SuiteSankey.Scope(txs, countryFilter);
    var aks := Keys(scope, TxGateway);
    var oks := Keys(scope, GatewayOutcomeOf);
    if e in AttemptEdges(scope, aks) {
      var i := SeqIndexOf(AttemptEdges(scope, aks), e);
      var g := Group(scope, TxGateway, aks[i]);
      assert g[0] in g;
    } else if e in OutcomeEdges(scope, oks) {
      var i := SeqIndexOf(OutcomeEdges(scope, oks), e);
      var g := Group(scope, GatewayOutcomeOf, oks[i]);
      assert g[0] in g;
    }
  }

  /** Every gateway in scope has its Attempt edge, with a positive count. */
  lemma AttemptReported(txs: seq<Transaction>, countryFilter: Option<string>, t: Transaction)
    requires t in SuiteSankey.Scope(txs, countryFilter)
    ensures AttemptEdge(SuiteSankey.Scope(txs, countryFilter), t.gateway) in SankeyData(txs, countryFilter)
    ensures AttemptEdge(SuiteSankey.Scope(txs, countryFilter), t.gateway).value > 0
  {
    var scope := SuiteSankey.Scope(txs, countryFilter);
    var ks := Keys(scope, TxGateway);
    var i := SeqIndexOf(ks, TxGateway(t));
    assert AttemptEdges(scope, ks)[i] == AttemptEdge(scope, t.gateway);
  }

  /** Every (gateway, outcome) in scope has its edge, with a positive count. */
  lemma OutcomeReported(txs: seq<Transaction>, countryFilter: Option<string>, t: Transaction)
    requires t in SuiteSankey.Scope(txs, countryFilter)
    ensures OutcomeEdge(SuiteSankey.Scope(txs, countryFilter), GatewayOutcomeOf(t)) in SankeyData(txs, countryFilter)
    ensures OutcomeEdge(SuiteSankey.Scope(txs, countryFilter), GatewayOutcomeOf(t)).value > 0
  {
    var scope := SuiteSankey.Scope(txs, countryFilter);
    var ks := Keys(scope, GatewayOutcomeOf);
    var i := SeqIndexOf(ks, GatewayOutcomeOf(t));
    assert OutcomeEdges(scope, ks)[i] == OutcomeEdge(scope, GatewayOutcomeOf(t));
    assert OutcomeEdges(scope, ks)[i] in SankeyEdges(scope);
  }

  /**
   * The Authorized -> Settled edge is always reported, with the number of
   * Success transactions in scope, even when that number is 0.
   */
  lemma SettledReported(txs: seq<Transaction>, countryFilter: Option<string>)
    ensures SettledEdge(SuiteSankey.Scope(txs, countryFilter)) in SankeyData(txs, countryFilter)
    ensures SettledEdge(SuiteSankey.Scope(txs, countryFilter)).value == SumOf(SuiteSankey.Scope(txs, countryFilter), SuccessWeight)
  {
    SuiteSankey.SuccessesCount(SuiteSankey.Scope(txs, countryFilter));
  }

  // ---------------------------------------------------------------------------
  // Conservation of flow

  /** Sums a weight over edges whose weights are the per-group sums of a transaction weight. */
  lemma {:induction false} AttemptEdgesSum(scope: seq<Transaction>, ks: seq<string>, ew: Edge -> int, tw: Transaction -> int)
    requires forall i :: 0 <= i < |ks| ==> ew(AttemptEdge(scope, ks[i])) == SumOf(Group(scope, TxGateway, ks[i]), tw)
    ensures SumOf(AttemptEdges(scope, ks), ew) == SumGroups(ks, scope, TxGateway, tw)
  {
    if ks != [] {
      AttemptEdgesSum(scope, ks[1..], ew, tw);
      assert AttemptEdges(scope, ks)[1..] == AttemptEdges(scope, ks[1..]);
    }
  }

  lemma {:induction false} OutcomeEdgesSum(scope: seq<Transaction>, ks: seq<GatewayOutcome>, ew: Edge -> int, tw: Transaction -> int)
    requires forall i :: 0 <= i < |ks| ==> ew(OutcomeEdge(scope, ks[i])) == SumOf(Group(scope, GatewayOutcomeOf, ks[i]), tw)
    ensures SumOf(OutcomeEdges(scope, ks), ew) == SumGroups(ks, scope, GatewayOutcomeOf, tw)
  {
    if ks != [] {
      OutcomeEdgesSum(scope, ks[1..], ew, tw);
      assert OutcomeEdges(scope, ks)[1..] == OutcomeEdges(scope, ks[1..]);
    }
  }

  /** The Attempt edges carry every transaction in scope exactly once. */
  lemma AttemptConservation(scope: seq<Transaction>)
    ensures SumOf(AttemptEdges(scope, Keys(scope, TxGateway)), EdgeValue) == |scope|
  {
    var ks := Keys(scope, TxGateway);
    forall i | 0 <= i < |ks|
      ensures EdgeValue(AttemptEdge(scope, ks[i])) == SumOf(Group(scope, TxGateway, ks[i]), TxOne)
    {
      SumOfOnes(Group(scope, TxGateway, ks[i]), TxOne);
    }
    AttemptEdgesSum(scope, ks, EdgeValue, TxOne);
    Partition(ks, scope, TxGateway, TxOne);
    SumOfOnes(scope, TxOne);
  }

  /** The value of an edge leaving gateway g, and 0 for any other edge. */
  function LeavingValue(g: string): Edge -> int
  {
    (e: Edge) => if e.source == g then e.value else 0
  }

  /** 1 for a transaction through gateway g. */
  function ThroughGateway(g: string): Transaction -> int
  {
    (t: Transaction) => if t.gateway == g then 1 else 0
  }

  /** The value of an edge entering Authorized, and 0 for any other edge. */
  function AuthorizedValue(e: Edge): int { if e.target == "Authorized" then e.value else 0 }

  /** Within one (gateway, outcome) group every transaction has that gateway and that outcome. */
  lemma OutcomeGroupWeights(scope: seq<Transaction>, k: GatewayOutcome, g: string)
    ensures LeavingValue(g)(OutcomeEdge(scope, k)) == SumOf(Group(scope, GatewayOutcomeOf, k), ThroughGateway(g))
    ensures AuthorizedValue(OutcomeEdge(scope, k)) == SumOf(Group(scope, GatewayOutcomeOf, k), SuccessWeight)
  {
    var grp := Group(scope, GatewayOutcomeOf, k);
    forall i | 0 <= i < |grp| ensures grp[i].gateway == k.gateway && Outcome(grp[i].status) == k.outcome {
      assert grp[i] in grp;
    }
    if k.gateway == g {
      SumOfOnes(grp, ThroughGateway(g));
    } else {
      SumOfZero(grp, ThroughGateway(g));
    }
    if k.outcome == "Authorized" {
      SumOfOnes(grp, SuccessWeight);
    } else {
      SumOfZero(grp, SuccessWeight);
    }
  }

  /**
   * Through every gateway node, flow in equals flow out: the outcome edges
   * leaving gateway g add up to g's Attempt edge. Summed over all gateways,
   * they carry every transaction in scope; and the edges into Authorized
   * carry exactly the Authorized -> Settled value.
   */
  lemma GatewayConservation(scope: seq<Transaction>, g: string)
    ensures SumOf(OutcomeEdges(scope, Keys(scope, GatewayOutcomeOf)), LeavingValue(g))
            == AttemptEdge(scope, g).value
    ensures SumOf(OutcomeEdges(scope, Keys(scope, GatewayOutcomeOf)), AuthorizedValue)
            == SettledEdge(scope).value
  {
    var ks := Keys(scope, GatewayOutcomeOf);
    forall i | 0 <= i < |ks|
      ensures LeavingValue(g)(OutcomeEdge(scope, ks[i])) == SumOf(Group(scope, GatewayOutcomeOf, ks[i]), ThroughGateway(g))
      ensures AuthorizedValue(OutcomeEdge(scope, ks[i])) == SumOf(Group(scope, GatewayOutcomeOf, ks[i]), SuccessWeight)
    {
      OutcomeGroupWeights(scope, ks[i], g);
    }
    OutcomeEdgesSum(scope, ks, LeavingValue(g), ThroughGateway(g));
    OutcomeEdgesSum(scope, ks, AuthorizedValue, SuccessWeight);
    Partition(ks, scope, GatewayOutcomeOf, ThroughGateway(g));
    Partition(ks, scope, GatewayOutcomeOf, SuccessWeight);
    SumOfKeyIndicator(scope, TxGateway, g, ThroughGateway(g));
    SuiteSankey.SuccessesCount(scope);
  }

  /** The outcome edges, summed over all gateways, carry every transaction in scope exactly once. */
  lemma OutcomeConservation(scope: seq<Transaction>)
    ensures SumOf(OutcomeEdges(scope, Keys(scope, GatewayOutcomeOf)), EdgeValue) == |scope|
  {
    var ks := Keys(scope, GatewayOutcomeOf);
    forall i | 0 <= i < |ks|
      ensures EdgeValue(OutcomeEdge(scope, ks[i])) == SumOf(Group(scope, GatewayOutcomeOf, ks[i]), TxOne)
    {
      SumOfOnes(Group(scope, GatewayOutcomeOf, ks[i]), TxOne);
    }
    OutcomeEdgesSum(scope, ks, EdgeValue, TxOne);
    Partition(ks, scope, GatewayOutcomeOf, TxOne);
    SumOfOnes(scope, TxOne);
  }

  // ---------------------------------------------------------------------------
  // Conservation of flow in the returned rows. Nodes are named by their
  // labels alone, so a gateway literally called "Attempt", "Authorized",
  // "Declined" or "Settled" would merge with that node of the diagram; each
  // law below rules out the names it depends on.

  /** The value of an edge entering node n, and 0 for any other edge. */
  function EnteringValue(n: string): Edge -> int
  {
    (e: Edge) => if e.target == n then e.value else 0
  }

  lemma ReturnedSum(scope: seq<Transaction>, w: Edge -> int)
    ensures SumOf(SankeyEdges(scope), w)
            == SumOf(AttemptEdges(scope, Keys(scope, TxGateway)), w)
               + SumOf(OutcomeEdges(scope, Keys(scope, GatewayOutcomeOf)), w)
               + w(SettledEdge(scope))
  {
    var a := AttemptEdges(scope, Keys(scope, TxGateway));
    var o := OutcomeEdges(scope, Keys(scope, GatewayOutcomeOf));
    SumOfAppend(a + o, [SettledEdge(scope)], w);
    SumOfAppend(a, o, w);
    assert SumOf([SettledEdge(scope)], w) == w(SettledEdge(scope));
  }

  /** Every Attempt edge enters the gateway of a transaction in scope. */
  lemma AttemptEdgeTarget(scope: seq<Transaction>, i: nat) returns (t: Transaction)
    requires i < |Keys(scope, TxGateway)|
    ensures t in scope && AttemptEdges(scope, Keys(scope, TxGateway))[i].target == t.gateway
  {
    var g := Group(scope, TxGateway, Keys(scope, TxGateway)[i]);
    t := g[0];
    assert t in g;
  }

  /** Every outcome edge leaves the gateway, and enters the outcome, of a transaction in scope. */
  lemma OutcomeEdgeSource(scope: seq<Transaction>, i: nat) returns (t: Transaction)
    requires i < |Keys(scope, GatewayOutcomeOf)|
    ensures t in scope
    ensures OutcomeEdges(scope, Keys(scope, GatewayOutcomeOf))[i].source == t.gateway
    ensures OutcomeEdges(scope, Keys(scope, GatewayOutcomeOf))[i].target == Outcome(t.status)
  {
    var g := Group(scope, GatewayOutcomeOf, Keys(scope, GatewayOutcomeOf)[i]);
    t := g[0];
    assert t in g;
  }

  /** The returned rows leaving Attempt carry every transaction in scope exactly once. */
  lemma AttemptOutflow(txs: seq<Transaction>, countryFilter: Option<string>)
    requires forall t :: t in SuiteSankey.Scope(txs, countryFilter) ==> t.gateway != "Attempt"
    ensures SumOf(SankeyData(txs, countryFilter), LeavingValue("Attempt")) == |SuiteSankey.Scope(txs, countryFilter)|
  {
    AttemptOutflowOf(SuiteSankey.Scope(txs, countryFilter));
  }

  lemma AttemptOutflowOf(scope: seq<Transaction>)
    requires forall t :: t in scope ==> t.gateway != "Attempt"
    ensures SumOf(SankeyEdges(scope), LeavingValue("Attempt")) == |scope|
  {
    ReturnedSum(scope, LeavingValue("Attempt"));
    AttemptPartLeaving(scope);
    OutcomePartNotLeaving(scope, "Attempt");
  }

  lemma AttemptPartLeaving(scope: seq<Transaction>)
    ensures SumOf(AttemptEdges(scope, Keys(scope, TxGateway)), LeavingValue("Attempt")) == |scope|
  {
    var a := AttemptEdges(scope, Keys(scope, TxGateway));
    SumOfMono(a, LeavingValue("Attempt"), EdgeValue);
    SumOfMono(a, EdgeValue, LeavingValue("Attempt"));
    AttemptConservation(scope);
  }

  /** No outcome edge leaves a node that no gateway in scope is named after. */
  lemma OutcomePartNotLeaving(scope: seq<Transaction>, n: string)
    requires forall t :: t in scope ==> t.gateway != n
    ensures SumOf(OutcomeEdges(scope, Keys(scope, GatewayOutcomeOf)), LeavingValue(n)) == 0
  {
    var o := OutcomeEdges(scope, Keys(scope, GatewayOutcomeOf));
    forall i | 0 <= i < |o| ensures LeavingValue(n)(o[i]) == 0 {
      var t := OutcomeEdgeSource(scope, i);
    }
    SumOfZero(o, LeavingValue(n));
  }

  /** No Attempt edge enters a node that no gateway in scope is named after. */
  lemma AttemptPartNotEntering(scope: seq<Transaction>, n: string)
    requires forall t :: t in scope ==> t.gateway != n
    ensures SumOf(AttemptEdges(scope, Keys(scope, TxGateway)), EnteringValue(n)) == 0
  {
    var a := AttemptEdges(scope, Keys(scope, TxGateway));
    forall i | 0 <= i < |a| ensures EnteringValue(n)(a[i]) == 0 {
      var t := AttemptEdgeTarget(scope, i);
    }
    SumOfZero(a, EnteringValue(n));
  }

  /**
   * Through every gateway node of the returned rows, flow in equals flow
   * out, and both are the number of transactions through that gateway.
   */
  lemma GatewayFlow(txs: seq<Transaction>, countryFilter: Option<string>, g: string)
    requires g != "Attempt" && g != "Authorized" && g != "Declined" && g != "Settled"
    ensures SumOf(SankeyData(txs, countryFilter), EnteringValue(g))
            == |Group(SuiteSankey.Scope(txs, countryFilter), TxGateway, g)|
    ensures SumOf(SankeyData(txs, countryFilter), LeavingValue(g))
            == |Group(SuiteSankey.Scope(txs, countryFilter), TxGateway, g)|
  {
    GatewayInflowOf(SuiteSankey.Scope(txs, countryFilter), g);
    GatewayOutflowOf(SuiteSankey.Scope(txs, countryFilter), g);
  }

  /** Within one gateway group, the edge entering g carries the group's transactions through g. */
  lemma AttemptGroupWeight(scope: seq<Transaction>, k: string, g: string)
    ensures EnteringValue(g)(AttemptEdge(scope, k)) == SumOf(Group(scope, TxGateway, k), ThroughGateway(g))
  {
    var grp := Group(scope, TxGateway, k);
    forall i | 0 <= i < |grp| ensures grp[i].gateway == k {
      assert grp[i] in grp;
    }
    if k == g {
      SumOfOnes(grp, ThroughGateway(g));
    } else {
      SumOfZero(grp, ThroughGateway(g));
    }
  }

  lemma GatewayInflowOf(scope: seq<Transaction>, g: string)
    requires g != "Authorized" && g != "Declined" && g != "Settled"
    ensures SumOf(SankeyEdges(scope), EnteringValue(g)) == |Group(scope, TxGateway, g)|
  {
    var ks := Keys(scope, TxGateway);
    ReturnedSum(scope, EnteringValue(g));
    forall i | 0 <= i < |ks|
      ensures EnteringValue(g)(AttemptEdge(scope, ks[i])) == SumOf(Group(scope, TxGateway, ks[i]), ThroughGateway(g))
    {
      AttemptGroupWeight(scope, ks[i], g);
    }
    AttemptEdgesSum(scope, ks, EnteringValue(g), ThroughGateway(g));
    Partition(ks, scope, TxGateway, ThroughGateway(g));
    SumOfKeyIndicator(scope, TxGateway, g, ThroughGateway(g));
    OutcomePartNotEntering(scope, g);
  }

  /** Outcome edges enter Authorized or Declined only. */
  lemma OutcomePartNotEntering(scope: seq<Transaction>, n: string)
    requires n != "Authorized" && n != "Declined"
    ensures SumOf(OutcomeEdges(scope, Keys(scope, GatewayOutcomeOf)), EnteringValue(n)) == 0
  {
    var o := OutcomeEdges(scope, Keys(scope, GatewayOutcomeOf));
    forall i | 0 <= i < |o| ensures EnteringValue(n)(o[i]) == 0 {
      var t := OutcomeEdgeSource(scope, i);
    }
    SumOfZero(o, EnteringValue(n));
  }

  lemma GatewayOutflowOf(scope: seq<Transaction>, g: string)
    requires g != "Attempt" && g != "Authorized"
    ensures SumOf(SankeyEdges(scope), LeavingValue(g)) == |Group(scope, TxGateway, g)|
  {
    var a := AttemptEdges(scope, Keys(scope, TxGateway));
    ReturnedSum(scope, LeavingValue(g));
    SumOfZero(a, LeavingValue(g));
    GatewayConservation(scope, g);
  }

  /**
   * Through the Authorized node of the returned rows, flow in equals flow
   * out: the gateway -> Authorized rows add up to the Authorized -> Settled
   * value, which is the only row leaving Authorized.
   */
  lemma AuthorizedFlow(txs: seq<Transaction>, countryFilter: Option<string>)
    requires forall t :: t in SuiteSankey.Scope(txs, countryFilter) ==> t.gateway != "Authorized"
    ensures SumOf(SankeyData(txs, countryFilter), EnteringValue("Authorized"))
            == SettledEdge(SuiteSankey.Scope(txs, countryFilter)).value
    ensures SumOf(SankeyData(txs, countryFilter), LeavingValue("Authorized"))
            == SettledEdge(SuiteSankey.Scope(txs, countryFilter)).value
  {
    AuthorizedInflowOf(SuiteSankey.Scope(txs, countryFilter));
    AuthorizedOutflowOf(SuiteSankey.Scope(txs, countryFilter));
  }

  lemma AuthorizedInflowOf(scope: seq<Transaction>)
    requires forall t :: t in scope ==> t.gateway != "Authorized"
    ensures SumOf(SankeyEdges(scope), EnteringValue("Authorized")) == SettledEdge(scope).value
  {
    var o := OutcomeEdges(scope, Keys(scope, GatewayOutcomeOf));
    ReturnedSum(scope, EnteringValue("Authorized"));
    AttemptPartNotEntering(scope, "Authorized");
    SumOfMono(o, EnteringValue("Authorized"), AuthorizedValue);
    SumOfMono(o, AuthorizedValue, EnteringValue("Authorized"));
    GatewayConservation(scope, "Authorized");
  }

  lemma AuthorizedOutflowOf(scope: seq<Transaction>)
    requires forall t :: t in scope ==> t.gateway != "Authorized"
    ensures SumOf(SankeyEdges(scope), LeavingValue("Authorized")) == SettledEdge(scope).value
  {
    var a := AttemptEdges(scope, Keys(scope, TxGateway));
    ReturnedSum(scope, LeavingValue("Authorized"));
    SumOfZero(a, LeavingValue("Authorized"));
    OutcomePartNotLeaving(scope, "Authorized");
  }
}
