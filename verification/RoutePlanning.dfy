/** Choosing a venue, or halting with the boundaries that stopped the order. */
module RoutePlanning {
  import opened Prelude
  import opened Platform
  import opened Sorting
  import opened BestExecution
  import Ordinal

  datatype RouteProposal = RouteProposal(
    proposalId: string, correlationId: string, orderId: string, quantity: int, venueCode: string,
    cost: CostBreakdown, proposedBy: string, considered: seq<VenueEvaluation>)

  datatype RoutingOutcome =
    | Proposed(proposal: RouteProposal, considered: seq<VenueEvaluation>)
    | Halted(breaches: seq<PolicyBreach>, considered: seq<VenueEvaluation>)

  /** Cheapest total first, ties by venue code. */
  predicate EvaluationLe(a: VenueEvaluation, b: VenueEvaluation) {
    a.cost.TotalCostBps() < b.cost.TotalCostBps()
    || (a.cost.TotalCostBps() == b.cost.TotalCostBps() && Ordinal.Le(a.quote.venueCode, b.quote.venueCode))
  }

  lemma EvaluationOrder()
    ensures TotalPreorder(EvaluationLe)
    ensures forall a, b :: EvaluationLe(a, b) && EvaluationLe(b, a) ==> a.quote.venueCode == b.quote.venueCode
  {
    Ordinal.TotalOrder();
  }

  /** The evaluation of each quote under one order and policy. */
  function Evaluate(order: OrderIntent, policy: BestExecutionPolicy): VenueQuote -> VenueEvaluation {
    (q: VenueQuote) => Evaluation(order, q, policy)
  }

  function Evaluations(order: OrderIntent, quotes: seq<VenueQuote>, policy: BestExecutionPolicy): seq<VenueEvaluation> {
    Map(Evaluate(order, policy), quotes)
  }

  function Considered(order: OrderIntent, quotes: seq<VenueQuote>, policy: BestExecutionPolicy): seq<VenueEvaluation> {
    Sort(EvaluationLe, Evaluations(order, quotes, policy))
  }

  const ELIGIBLE: VenueEvaluation -> bool := (e: VenueEvaluation) => e.IsEligible()

  function AllBreaches(evaluations: seq<VenueEvaluation>): seq<PolicyBreach> {
    if evaluations == [] then [] else evaluations[0].breaches + AllBreaches(evaluations[1..])
  }

  datatype PlanError = BlankProposer

  function Plan(
    host: Host, order: OrderIntent, quotes: seq<VenueQuote>, policy: BestExecutionPolicy, proposedBy: string,
    proposalId: Option<string>)
    : Result<RoutingOutcome, PlanError>
  {
    if IsBlank(host, proposedBy) then Err(BlankProposer) else
      var all := Considered(order, quotes, policy);
      var eligible := Filter(ELIGIBLE, all);
      if OrderBreaches(order, policy) != [] then Ok(Halted(OrderBreaches(order, policy), all))
      else if eligible == [] then Ok(Halted(AllBreaches(all), all))
      else
        var winner := eligible[0];
        Ok(Proposed(RouteProposal(if proposalId.Some? then proposalId.value else "prop-" + order.orderId,
                                  order.correlationId, order.orderId, order.quantity, winner.quote.venueCode,
                                      winner.cost,
                                  proposedBy, all), all))
  }

  method PlanRoute(
    host: Host, order: OrderIntent, quotes: seq<VenueQuote>, policy: BestExecutionPolicy, proposedBy: string,
    proposalId: Option<string>)
    returns (r: Result<RoutingOutcome, PlanError>)
    ensures r == Plan(host, order, quotes, policy, proposedBy, proposalId)
  {
    if IsBlank(host, proposedBy) { return Err(BlankProposer); }
    var evaluations := [];
    for k := 0 to |quotes|
      invariant evaluations == Evaluations(order, quotes[..k], policy)
    {
      var evaluation := EvaluateVenue(order, quotes[k], policy);
      MapConcat(Evaluate(order, policy), quotes[..k], [quotes[k]]);
      MapOne(Evaluate(order, policy), quotes[k]);
      assert quotes[..k + 1] == quotes[..k] + [quotes[k]];
      evaluations := evaluations + [evaluation];
    }
    assert quotes[..|quotes|] == quotes;
    evaluations := Sort(EvaluationLe, evaluations);
    var orderBreaches := EvaluateOrder(order, policy);
    if |orderBreaches| > 0 { return Ok(Halted(orderBreaches, evaluations)); }
    var eligible := Filter(ELIGIBLE, evaluations);
    if |eligible| == 0 { return Ok(Halted(AllBreaches(evaluations), evaluations)); }
    var winner := eligible[0];
    r := Ok(Proposed(RouteProposal(if proposalId.Some? then proposalId.value else "prop-" + order.orderId,
                                   order.correlationId, order.orderId, order.quantity, winner.quote.venueCode,
                                       winner.cost,
                                   proposedBy, evaluations), evaluations));
  }

  // ---- What is proposed ----

  lemma {:induction false} FilterHeadFirst(p: VenueEvaluation -> bool, s: seq<VenueEvaluation>, x: VenueEvaluation)
    requires Sorted(EvaluationLe, s) && x in s && p(x)
    ensures Filter(p, s) != [] && (Filter(p, s)[0] == x || EvaluationLe(Filter(p, s)[0], x))
  {
    if p(s[0]) {
      var i :| 0 <= i < |s| && s[i] == x;
      assert i > 0 ==> EvaluationLe(s[0], s[i]);
    } else {
      FilterHeadFirst(p, s[1..], x);
    }
  }

  lemma EvaluationsMembers(order: OrderIntent, quotes: seq<VenueQuote>, policy: BestExecutionPolicy)
    ensures forall q :: q in quotes ==> Evaluation(order, q, policy) in Considered(order, quotes, policy)
    ensures forall e :: e in Considered(order, quotes, policy) ==>
            e.quote in quotes && e == Evaluation(order, e.quote, policy)
    ensures |Considered(order, quotes, policy)| == |quotes|
  {
    var f := Evaluate(order, policy);
    SortPermutes(EvaluationLe, Map(f, quotes));
    MapMembers(f, quotes);
    MapAt(f, quotes);
    assert forall q :: q in quotes ==> f(q) in Map(f, quotes);
  }

  /** The venue a proposal names is one of the quotes, breaks no boundary, and no eligible quote comes before it. */
  ghost predicate BestOf(order: OrderIntent, quotes: seq<VenueQuote>, policy: BestExecutionPolicy, winner: VenueQuote) {
    && winner in quotes
    && Evaluation(order, winner, policy).IsEligible()
    && forall q :: q in quotes && Evaluation(order, q, policy).IsEligible() ==>
         EvaluationLe(Evaluation(order, winner, policy), Evaluation(order, q, policy))
  }

  /** The plan proposes exactly when the order may be routed at all and some quote is eligible. */
  lemma PlanProposesIff(
    host: Host, order: OrderIntent, quotes: seq<VenueQuote>, policy: BestExecutionPolicy, proposer: string,
    id: Option<string>)
    requires !IsBlank(host, proposer)
    ensures Plan(host, order, quotes, policy, proposer, id).value.Proposed?
       <==> order.NotionalUsd() <= policy.maxNotionalUsd && exists q ::
           q in quotes && Evaluation(order, q, policy).IsEligible()
  {
    var all := Considered(order, quotes, policy);
    var eligible := Filter(ELIGIBLE, all);
    EvaluationsMembers(order, quotes, policy);
    FilterMembers(ELIGIBLE, all);
    if eligible != [] {
      assert eligible[0] in eligible;
    }
    if q :| q in quotes && Evaluation(order, q, policy).IsEligible() {
      assert Evaluation(order, q, policy) in eligible;
    }
  }

  /** The first eligible evaluation in ranking order belongs to the best quote. */
  lemma FirstEligibleIsBest(order: OrderIntent, quotes: seq<VenueQuote>, policy: BestExecutionPolicy)
    requires Filter(ELIGIBLE, Considered(order, quotes, policy)) != []
    ensures var e := Filter(ELIGIBLE, Considered(order, quotes, policy))[0];
            BestOf(order, quotes, policy, e.quote) && e == Evaluation(order, e.quote, policy)
                && e in Considered(order, quotes, policy)
  {
    var all := Considered(order, quotes, policy);
    EvaluationOrder();
    EvaluationsMembers(order, quotes, policy);
    SortSorted(EvaluationLe, Evaluations(order, quotes, policy));
    FilterMembers(ELIGIBLE, all);
    var e := Filter(ELIGIBLE, all)[0];
    assert e in Filter(ELIGIBLE, all);
    forall q | q in quotes
        && Evaluation(order, q, policy).IsEligible() ensures EvaluationLe(e, Evaluation(order, q, policy)) {
      FilterHeadFirst(ELIGIBLE, all, Evaluation(order, q, policy));
    }
  }

  /** A proposal names the cheapest eligible venue, at that venue's cost, and its price respects the limit. */
  lemma PlanPicksBest(
    host: Host, order: OrderIntent, quotes: seq<VenueQuote>, policy: BestExecutionPolicy, proposer: string,
    id: Option<string>)
    returns (winner: VenueQuote)
    requires !IsBlank(host, proposer) && Plan(host, order, quotes, policy, proposer, id).value.Proposed?
    ensures BestOf(order, quotes, policy, winner)
    ensures var p := Plan(host, order, quotes, policy, proposer, id).value.proposal;
            && p.venueCode == winner.venueCode && p.cost == Cost(order, winner, policy)
            && p.quantity == order.quantity && p.orderId == order.orderId && p.correlationId == order.correlationId
            && p.proposedBy == proposer && !ThroughLimit(order, p.cost.projectedPrice)
            && Evaluation(order, winner, policy) in p.considered
  {
    FirstEligibleIsBest(order, quotes, policy);
    winner := Filter(ELIGIBLE, Considered(order, quotes, policy))[0].quote;
    WithinLimit(order, winner, policy);
  }

  /** No eligible quote costs less in spread, impact and fee together, and among equals none has an earlier code. */
  lemma BestIsCheapest(
    order: OrderIntent, quotes: seq<VenueQuote>, policy: BestExecutionPolicy, winner: VenueQuote, q: VenueQuote)
    requires BestOf(order, quotes, policy, winner) && q in quotes && Evaluation(order, q, policy).breaches == []
    ensures var c, d := Cost(order, winner, policy), Cost(order, q, policy);
            var total, other := c.spreadCostBps + c.impactBps + c.feeBps, d.spreadCostBps + d.impactBps + d.feeBps;
            total < other || (total == other && Ordinal.Le(winner.venueCode, q.venueCode))
  {
    assert Evaluation(order, q, policy).IsEligible();
  }

  lemma {:induction false} AllBreachesAre(s: seq<VenueEvaluation>, b: PolicyBreach)
    ensures b in AllBreaches(s) <==> exists e :: e in s && b in e.breaches
  {
    if s != [] {
      AllBreachesAre(s[1..], b);
      assert s == [s[0]] + s[1..] && s[0] in s;
    }
  }

  /**
   What a halt names: the notional ceiling alone when the order exceeds it, and otherwise every boundary broken at any
   venue and no other.
   */
  lemma HaltNames(
    host: Host, order: OrderIntent, quotes: seq<VenueQuote>, policy: BestExecutionPolicy, proposer: string,
    id: Option<string>, b: PolicyBreach)
    requires !IsBlank(host, proposer) && Plan(host, order, quotes, policy, proposer, id).value.Halted?
    ensures var named := Plan(host, order, quotes, policy, proposer, id).value.breaches;
            var tooLarge := order.quantity as real * order.limitPrice > policy.maxNotionalUsd;
            && (tooLarge ==> named == [PolicyBreach(NotionalCeilingExceeded, None)])
            && (!tooLarge ==> (b in named <==> exists q :: q in quotes && b in Evaluation(order, q, policy).breaches))
  {
    var all := Considered(order, quotes, policy);
    EvaluationsMembers(order, quotes, policy);
    AllBreachesAre(all, b);
    if q :| q in quotes && b in Evaluation(order, q, policy).breaches { assert Evaluation(order, q, policy) in all; }
  }

  lemma WithinLimit(order: OrderIntent, quote: VenueQuote, policy: BestExecutionPolicy)
    requires Evaluation(order, quote, policy).IsEligible()
    ensures !ThroughLimit(order, Cost(order, quote, policy).projectedPrice)
  {
    EligibleIff(order, quote, policy);
    assert !Breaks(order, quote, policy, LimitPriceBreached);
  }

  lemma {:induction false} AllBreachesEmptyIff(s: seq<VenueEvaluation>)
    ensures AllBreaches(s) == [] <==> forall e :: e in s ==> e.IsEligible()
  {
    if s != [] {
      AllBreachesEmptyIff(s[1..]);
      assert s == [s[0]] + s[1..] && s[0] in s;
      assert |AllBreaches(s)| == |s[0].breaches| + |AllBreaches(s[1..])|;
    }
  }

  /** Given no quotes, an order within its ceiling is halted without a reason. */
  lemma NoQuotesHaltNamesNothing(
    host: Host, order: OrderIntent, policy: BestExecutionPolicy, proposer: string, id: Option<string>)
    requires !IsBlank(host, proposer) && order.NotionalUsd() <= policy.maxNotionalUsd
    ensures Plan(host, order, [], policy, proposer, id) == Ok(Halted([], []))
  {
  }

  /** A halt names at least one breach, except when it was given no quotes and nothing order-level stopped it. */
  lemma HaltNamesBreachIff(
    host: Host, order: OrderIntent, quotes: seq<VenueQuote>, policy: BestExecutionPolicy, proposer: string,
    id: Option<string>)
    requires !IsBlank(host, proposer) && Plan(host, order, quotes, policy, proposer, id).value.Halted?
    ensures Plan(host, order, quotes, policy, proposer, id).value.breaches != []
       <==> quotes != [] || order.NotionalUsd() > policy.maxNotionalUsd
  {
    var all := Considered(order, quotes, policy);
    EvaluationsMembers(order, quotes, policy);
    FilterMembers(ELIGIBLE, all);
    AllBreachesEmptyIff(all);
    if OrderBreaches(order, policy) == [] && quotes != [] {
      assert all[0] in all && all[0] !in Filter(ELIGIBLE, all);
    }
  }

  // ---- The order of the quotes does not matter ----

  ghost predicate DistinctCodes(quotes: seq<VenueQuote>) {
    forall q, r :: q in quotes && r in quotes && q.venueCode == r.venueCode ==> q == r
  }

  lemma ConsideredIgnoresOrder(
    order: OrderIntent, quotes: seq<VenueQuote>, other: seq<VenueQuote>, policy: BestExecutionPolicy)
    requires multiset(quotes) == multiset(other) && DistinctCodes(quotes)
    ensures Considered(order, quotes, policy) == Considered(order, other, policy)
  {
    var a, b := Evaluations(order, quotes, policy), Evaluations(order, other, policy);
    MapPermutation(Evaluate(order, policy), quotes, other);
    EvaluationOrder();
    EvaluationsMembers(order, quotes, policy);
    SortPermutes(EvaluationLe, a);
    assert forall x, y :: x in a && y in a && EvaluationLe(x, y) && EvaluationLe(y, x) ==> x == y;
    SortForgetsOrder(EvaluationLe, a, b);
  }

  /** With distinct venue codes the whole outcome, considered list included, ignores quote order. */
  lemma PlanIgnoresQuoteOrder(
    host: Host, order: OrderIntent, quotes: seq<VenueQuote>, other: seq<VenueQuote>, policy: BestExecutionPolicy,
    proposer: string, id: Option<string>)
    requires multiset(quotes) == multiset(other) && DistinctCodes(quotes)
    ensures Plan(host, order, quotes, policy, proposer, id) == Plan(host, order, other, policy, proposer, id)
  {
    ConsideredIgnoresOrder(order, quotes, other, policy);
  }
}
