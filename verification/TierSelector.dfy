/** Choosing one model among the affordable, and the total order the three-stage choice hides. */
module TierSelector {
  import opened Prelude
  import opened Sorting
  import opened PolicyGate
  import Ordinal

  // ---- Sort keys ----

  predicate CostLe(a: TierPricing, b: TierPricing) {
    a.costPerRequestUsd < b.costPerRequestUsd
    || (a.costPerRequestUsd == b.costPerRequestUsd && Ordinal.Le(a.deployment, b.deployment))
  }

  /** Tier ascending, then cost, then deployment. */
  predicate CatalogLe(a: TierPricing, b: TierPricing) {
    a.tier.Rank() < b.tier.Rank() || (a.tier == b.tier && CostLe(a, b))
  }

  /** Tier descending, then cost, then deployment. */
  predicate CapableLe(a: TierPricing, b: TierPricing) {
    a.tier.Rank() > b.tier.Rank() || (a.tier == b.tier && CostLe(a, b))
  }

  /**
   How far a tier is from the preferred one: the indicated tier, then those below from the top, then those above from
   the bottom.
   */
  function Distance(indicated: ModelTier, tier: ModelTier): nat {
    if tier.Rank() <= indicated.Rank() then indicated.Rank() - tier.Rank() else 3 + tier.Rank()
  }

  predicate PreferredLe(indicated: ModelTier, a: TierPricing, b: TierPricing) {
    Distance(indicated, a.tier) < Distance(indicated, b.tier)
    || (Distance(indicated, a.tier) == Distance(indicated, b.tier) && CostLe(a, b))
  }

  function Preferred(indicated: ModelTier): (TierPricing, TierPricing) -> bool {
    (a: TierPricing, b: TierPricing) => PreferredLe(indicated, a, b)
  }

  /** Candidates that tie agree on tier, cost and deployment. */
  predicate SameRanking(a: TierPricing, b: TierPricing) {
    a.tier == b.tier && a.costPerRequestUsd == b.costPerRequestUsd && a.deployment == b.deployment
  }

  lemma CostOrder()
    ensures TotalPreorder(CostLe)
    ensures forall a, b :: CostLe(a, b) && CostLe(b, a) ==>
                a.costPerRequestUsd == b.costPerRequestUsd && a.deployment == b.deployment
  {
    Ordinal.TotalOrder();
  }

  lemma TierOrders()
    ensures TotalPreorder(CatalogLe) && TotalPreorder(CapableLe)
    ensures forall a, b :: CatalogLe(a, b) && CatalogLe(b, a) ==> SameRanking(a, b)
    ensures forall a, b :: CapableLe(a, b) && CapableLe(b, a) ==> SameRanking(a, b)
  {
    CostOrder();
  }

  /** The preference is one total order on tier, cost and deployment. */
  lemma PreferenceIsTotalOrder(indicated: ModelTier)
    ensures TotalPreorder(Preferred(indicated))
    ensures forall a, b :: PreferredLe(indicated, a, b) && PreferredLe(indicated, b, a) ==> SameRanking(a, b)
  {
    CostOrder();
  }

  // ---- The choice as it is written ----

  function AtTier(tier: ModelTier): TierPricing -> bool { (c: TierPricing) => c.tier == tier }
  function BelowTier(tier: ModelTier): TierPricing -> bool { (c: TierPricing) => c.tier.Rank() < tier.Rank() }

  function Choose(affordable: seq<TierPricing>, indicated: ModelTier): (chosen: TierPricing)
    requires affordable != []
  {
    var atIndicated := Sort(CostLe, Filter(AtTier(indicated), affordable));
    var below := Sort(CapableLe, Filter(BelowTier(indicated), affordable));
    SortPermutes(CatalogLe, affordable);
    if atIndicated != [] then atIndicated[0]
    else if below != [] then below[0]
    else Sort(CatalogLe, affordable)[0]
  }

  /** `c` is a least element of `s` in the preference order. */
  ghost predicate IsBest(indicated: ModelTier, c: TierPricing, s: seq<TierPricing>) {
    c in s && forall x :: x in s ==> PreferredLe(indicated, c, x)
  }

  /** The three stages together pick a minimum of the one order. */
  lemma ChooseIsMinimum(affordable: seq<TierPricing>, indicated: ModelTier)
    requires affordable != []
    ensures IsBest(indicated, Choose(affordable, indicated), affordable)
  {
    var at, below := Filter(AtTier(indicated), affordable), Filter(BelowTier(indicated), affordable);
    FilterMembers(AtTier(indicated), affordable);
    FilterMembers(BelowTier(indicated), affordable);
    if at != [] {
      CheapestAtTier(affordable, indicated);
    } else if below != [] {
      BestBelow(affordable, indicated);
    } else {
      CheapestAbove(affordable, indicated);
    }
  }

  lemma CheapestAtTier(affordable: seq<TierPricing>, indicated: ModelTier)
    requires Filter(AtTier(indicated), affordable) != []
    ensures Sort(CostLe, Filter(AtTier(indicated), affordable)) != []
    ensures IsBest(indicated, Sort(CostLe, Filter(AtTier(indicated), affordable))[0], affordable)
  {
    FilterMembers(AtTier(indicated), affordable);
    CostOrder();
    SortHead(CostLe, Filter(AtTier(indicated), affordable));
  }

  lemma BestBelow(affordable: seq<TierPricing>, indicated: ModelTier)
    requires Filter(AtTier(indicated), affordable) == [] && Filter(BelowTier(indicated), affordable) != []
    ensures Sort(CostLe, Filter(AtTier(indicated), affordable)) == []
    ensures Sort(CapableLe, Filter(BelowTier(indicated), affordable)) != []
    ensures IsBest(indicated, Sort(CapableLe, Filter(BelowTier(indicated), affordable))[0], affordable)
  {
    FilterMembers(AtTier(indicated), affordable);
    FilterMembers(BelowTier(indicated), affordable);
    assert forall x :: x in affordable ==> x.tier != indicated;
    TierOrders();
    SortHead(CapableLe, Filter(BelowTier(indicated), affordable));
  }

  lemma CheapestAbove(affordable: seq<TierPricing>, indicated: ModelTier)
    requires affordable != [] && Filter(AtTier(indicated), affordable) == []
            && Filter(BelowTier(indicated), affordable) == []
    ensures Sort(CatalogLe, affordable) != [] && IsBest(indicated, Sort(CatalogLe, affordable)[0], affordable)
  {
    FilterMembers(AtTier(indicated), affordable);
    FilterMembers(BelowTier(indicated), affordable);
    assert forall x :: x in affordable ==> x.tier != indicated && x.tier.Rank() > indicated.Rank();
    TierOrders();
    SortHead(CatalogLe, affordable);
  }

  /** Cheaper, or as cheap with a deployment no later in order. */
  predicate NoDearer(a: TierPricing, b: TierPricing) {
    a.costPerRequestUsd < b.costPerRequestUsd
    || (a.costPerRequestUsd == b.costPerRequestUsd && Ordinal.Le(a.deployment, b.deployment))
  }

  /** Economy comes before Standard, and Standard before Premium. */
  predicate Lower(a: ModelTier, b: ModelTier) { a != b && (a.Economy? || b.Premium?) }

  /**
   The rule of choice: the cheapest at the indicated tier; with none there, the cheapest of the highest tier below it;
   with none there either, the cheapest of the lowest tier above.
   */
  ghost predicate FirstChoice(c: TierPricing, usable: set<TierPricing>, indicated: ModelTier) {
    && c in usable
    && (forall x :: x in usable && x.tier == c.tier ==> NoDearer(c, x))
    && ((exists x :: x in usable && x.tier == indicated) ==> c.tier == indicated)
    && ((forall x :: x in usable ==> x.tier != indicated) && (exists x :: x in usable && Lower(x.tier, indicated)) ==>
          && Lower(c.tier, indicated)
          && forall x :: x in usable && Lower(x.tier, indicated) ==> !Lower(c.tier, x.tier))
    && ((forall x :: x in usable ==> Lower(indicated, x.tier)) ==>
          forall x :: x in usable ==> !Lower(x.tier, c.tier))
  }

  lemma ChoiceIsFirst(affordable: seq<TierPricing>, indicated: ModelTier)
    requires affordable != []
    ensures FirstChoice(Choose(affordable, indicated), (set x | x in affordable), indicated)
  {
    ChooseIsMinimum(affordable, indicated);
    assert forall a: ModelTier, b: ModelTier :: Lower(a, b) <==> a.Rank() < b.Rank();
  }

  /** Deployments name candidates. */
  ghost predicate DistinctDeployments(s: seq<TierPricing>) {
    forall i, j :: 0 <= i < j < |s| ==> s[i].deployment != s[j].deployment
  }

  lemma DeploymentIdentifies(s: seq<TierPricing>, a: TierPricing, b: TierPricing)
    requires DistinctDeployments(s) && a in s && b in s && a.deployment == b.deployment
    ensures a == b
  {
  }

  /** A best candidate that survives a withdrawal is the choice among the survivors. */
  lemma ChoiceSurvivesWithdrawal(affordable: seq<TierPricing>, fewer: seq<TierPricing>, indicated: ModelTier)
    requires DistinctDeployments(affordable) && affordable != [] && fewer != []
    requires forall x :: x in fewer ==> x in affordable
    requires Choose(affordable, indicated) in fewer
    ensures Choose(fewer, indicated) == Choose(affordable, indicated)
  {
    ChooseIsMinimum(affordable, indicated);
    ChooseIsMinimum(fewer, indicated);
    PreferenceIsTotalOrder(indicated);
    DeploymentIdentifies(affordable, Choose(fewer, indicated), Choose(affordable, indicated));
  }

  /** More candidates never make the choice worse. */
  lemma ChoiceImproves(affordable: seq<TierPricing>, more: seq<TierPricing>, indicated: ModelTier)
    requires affordable != [] && more != [] && forall x :: x in affordable ==> x in more
    ensures PreferredLe(indicated, Choose(more, indicated), Choose(affordable, indicated))
  {
    ChooseIsMinimum(affordable, indicated);
    ChooseIsMinimum(more, indicated);
  }

  // ---- Selection under a ceiling ----

  const AVAILABLE: TierPricing -> bool := (c: TierPricing) => c.available

  function Within(ceiling: real): TierPricing -> bool { (c: TierPricing) => c.costPerRequestUsd <= ceiling }

  function Affordable(ceiling: real, pricing: seq<TierPricing>): seq<TierPricing> {
    Filter(Within(ceiling), Filter(AVAILABLE, pricing))
  }

  lemma AffordableMembers(ceiling: real, pricing: seq<TierPricing>)
    ensures forall x ::
              x in Affordable(ceiling, pricing) <==> x in pricing && x.available && x.costPerRequestUsd <= ceiling
    ensures Affordable(ceiling, pricing) == [] <==> forall x :: x in pricing && x.available ==>
                x.costPerRequestUsd > ceiling
  {
    FilterMembers(AVAILABLE, pricing);
    FilterMembers(Within(ceiling), Filter(AVAILABLE, pricing));
    assert Affordable(ceiling, pricing) != [] ==> Affordable(ceiling, pricing)[0] in Affordable(ceiling, pricing);
  }

  lemma {:induction false} FilterKeepsDistinct(p: TierPricing -> bool, s: seq<TierPricing>)
    requires DistinctDeployments(s)
    ensures DistinctDeployments(Filter(p, s))
  {
    if s != [] {
      FilterKeepsDistinct(p, s[1..]);
      FilterMembers(p, s[1..]);
      assert forall j :: 0 <= j < |Filter(p, s[1..])| ==> Filter(p, s[1..])[j] in Filter(p, s[1..]);
    }
  }

  lemma AffordableDistinct(ceiling: real, pricing: seq<TierPricing>)
    requires DistinctDeployments(pricing)
    ensures DistinctDeployments(Affordable(ceiling, pricing))
  {
    FilterKeepsDistinct(AVAILABLE, pricing);
    FilterKeepsDistinct(Within(ceiling), Filter(AVAILABLE, pricing));
  }

  /** The model selected under a ceiling, if any. */
  function Selection(score: real, ceiling: real, pricing: seq<TierPricing>): Option<TierPricing> {
    var affordable := Affordable(ceiling, pricing);
    if affordable == [] then None else Some(Choose(affordable, IndicatedTier(score)))
  }

  lemma SelectionIsAffordable(score: real, ceiling: real, pricing: seq<TierPricing>)
    requires Selection(score, ceiling, pricing).Some?
    ensures var c := Selection(score, ceiling, pricing).value;
            c in pricing && c.available && c.costPerRequestUsd <= ceiling
  {
    AffordableMembers(ceiling, pricing);
    ChooseIsMinimum(Affordable(ceiling, pricing), IndicatedTier(score));
  }

  /**
   Raising the ceiling never loses a selection, never worsens it, and keeps it once it is at the
   indicated tier.
   */
  lemma RaisingCeilingHelps(score: real, ceiling: real, higher: real, pricing: seq<TierPricing>)
    requires ceiling <= higher && DistinctDeployments(pricing) && Selection(score, ceiling, pricing).Some?
    ensures Selection(score, higher, pricing).Some?
    ensures PreferredLe(IndicatedTier(score), Selection(score, higher, pricing).value,
            Selection(score, ceiling, pricing).value)
    ensures Selection(score, ceiling, pricing).value.tier == IndicatedTier(score) ==>
              Selection(score, higher, pricing) == Selection(score, ceiling, pricing)
  {
    var indicated := IndicatedTier(score);
    var few, many := Affordable(ceiling, pricing), Affordable(higher, pricing);
    AffordableMembers(ceiling, pricing);
    AffordableMembers(higher, pricing);
    assert few[0] in few && few[0] in many;
    ChoiceImproves(few, many, indicated);
    ChooseIsMinimum(few, indicated);
    ChooseIsMinimum(many, indicated);
    var c, d := Choose(few, indicated), Choose(many, indicated);
    if c.tier == indicated {
      assert d.tier == indicated && d.costPerRequestUsd <= c.costPerRequestUsd;
      assert d in few;
      PreferenceIsTotalOrder(indicated);
      DeploymentIdentifies(pricing, c, d);
    }
  }

  /** A ceiling no candidate exceeds can be folded into another without changing the selection. */
  lemma RedundantCeiling(score: real, ceiling: real, cap: real, pricing: seq<TierPricing>)
    requires forall x :: x in pricing ==> x.costPerRequestUsd <= cap
    ensures Selection(score, if ceiling <= cap then ceiling else cap, pricing) == Selection(score, ceiling, pricing)
  {
    var both := if ceiling <= cap then ceiling else cap;
    var available := Filter(AVAILABLE, pricing);
    FilterMembers(AVAILABLE, pricing);
    FilterAgrees(Within(both), Within(ceiling), available);
  }

  lemma {:induction false} FilterAgrees(p: TierPricing -> bool, q: TierPricing -> bool, s: seq<TierPricing>)
    requires forall x :: x in s ==> p(x) == q(x)
    ensures Filter(p, s) == Filter(q, s)
  {
    if s != [] { FilterAgrees(p, q, s[1..]); }
  }

  // ---- The decision ----

  datatype RejectReason =
    | Unavailable | OverCeiling | SameTierDearer | AboveIndicated | BelowIndicated
    | ByPolicy(kind: ExclusionKind) | ByPolicyUnspecified

  datatype TierCandidate = TierCandidate(
    tier: ModelTier, deployment: string, projectedCostUsd: real, vendor: ModelVendor, selected: bool,
    rejected: Option<RejectReason>)

  datatype RoutingOutcome = Routed | Downgraded | Denied | RefusedByPolicy

  datatype RoutingDecision = RoutingDecision(
    complexityScore: real,
    costCeilingUsd: real,
    outcome: RoutingOutcome,
    selectedTier: Option<ModelTier>,
    selectedDeployment: Option<string>,
    selectedVendor: Option<ModelVendor>,
    candidateTiers: seq<TierCandidate>,
    policySetId: Option<string>,
    policySetVersion: Option<int>,
    dataClassification: Option<DataClassification>,
    policyExclusions: seq<PolicyExclusion>)

  /** How one candidate is reported. */
  function Candidate(
    chosen: Option<TierPricing>, ceiling: real, indicated: Option<ModelTier>): TierPricing -> TierCandidate {
    (p: TierPricing) =>
      var selected := chosen.Some? && p.deployment == chosen.value.deployment;
      var reason :=
        if selected then None
        else if !p.available then Some(Unavailable)
        else if p.costPerRequestUsd > ceiling then Some(OverCeiling)
        else if chosen.Some? && p.tier == chosen.value.tier then Some(SameTierDearer)
        else if indicated.Some? && p.tier.Rank() > indicated.value.Rank() then Some(AboveIndicated)
        else Some(BelowIndicated);
      TierCandidate(p.tier, p.deployment, p.costPerRequestUsd, p.vendor, selected, reason)
  }

  function Candidates(
    pricing: seq<TierPricing>, chosen: Option<TierPricing>, ceiling: real,
    indicated: Option<ModelTier>): seq<TierCandidate> {
    Map(Candidate(chosen, ceiling, indicated), Sort(CatalogLe, pricing))
  }

  method BuildCandidates(
    pricing: seq<TierPricing>, chosen: Option<TierPricing>, ceiling: real, indicated: Option<ModelTier>)
    returns (candidates: seq<TierCandidate>)
    ensures candidates == Candidates(pricing, chosen, ceiling, indicated)
  {
    var ordered := Sort(CatalogLe, pricing);
    ghost var f := Candidate(chosen, ceiling, indicated);
    candidates := [];
    for i := 0 to |ordered|
      invariant candidates == Map(f, ordered[..i])
    {
      var p := ordered[i];
      var selected := chosen.Some? && p.deployment == chosen.value.deployment;
      var reason: Option<RejectReason> := None;
      if !selected {
        if !p.available {
          reason := Some(Unavailable);
        } else if p.costPerRequestUsd > ceiling {
          reason := Some(OverCeiling);
        } else if chosen.Some? && p.tier == chosen.value.tier {
          reason := Some(SameTierDearer);
        } else if indicated.Some? && p.tier.Rank() > indicated.value.Rank() {
          reason := Some(AboveIndicated);
        } else {
          reason := Some(BelowIndicated);
        }
      }
      assert ordered[..i + 1] == ordered[..i] + [p];
      MapConcat(f, ordered[..i], [p]);
      assert [p][1..] == [] && Map(f, [p]) == [f(p)];
      candidates := candidates + [TierCandidate(p.tier, p.deployment, p.costPerRequestUsd, p.vendor, selected, reason)];
    }
    assert ordered[..|ordered|] == ordered;
  }

  /** TierSelector.Select; the source throws on an empty price list. */
  function Select(score: real, ceiling: real, pricing: seq<TierPricing>): RoutingDecision
    requires pricing != []
  {
    match Selection(score, ceiling, pricing)
    case None =>
      RoutingDecision(score, ceiling, Denied, None, None, None, Candidates(pricing, None, ceiling, None), None, None,
          None, [])
    case Some(chosen) =>
      RoutingDecision(score, ceiling,
                      if chosen.tier.Rank() < IndicatedTier(score).Rank() then Downgraded else Routed,
                      Some(chosen.tier), Some(chosen.deployment), Some(chosen.vendor),
                      Candidates(pricing, Some(chosen), ceiling, Some(IndicatedTier(score))), None, None, None, [])
  }

  const SELECTED: TierCandidate -> bool := (c: TierCandidate) => c.selected

  /** Marking by deployment marks one candidate when it is in a list of distinct deployments, and none otherwise. */
  lemma {:induction false} MarkedOnce(f: TierPricing -> TierCandidate, s: seq<TierPricing>, deployment: string)
    requires DistinctDeployments(s) && forall x :: f(x).selected <==> x.deployment == deployment
    ensures |Filter(SELECTED, Map(f, s))| == if exists x :: x in s && x.deployment == deployment then 1 else 0
  {
    if s != [] {
      MarkedOnce(f, s[1..], deployment);
      assert s == [s[0]] + s[1..];
      assert Map(f, s)[1..] == Map(f, s[1..]);
      assert forall x :: x in s[1..] ==> exists j :: 1 <= j < |s| && s[j] == x;
      if s[0].deployment == deployment {
        assert forall x :: x in s[1..] ==> x.deployment != deployment;
      }
    }
  }

  lemma {:induction false} NoneMarked(f: TierPricing -> TierCandidate, s: seq<TierPricing>)
    requires forall x :: !f(x).selected
    ensures Filter(SELECTED, Map(f, s)) == []
  {
    if s != [] {
      NoneMarked(f, s[1..]);
      assert Map(f, s)[1..] == Map(f, s[1..]);
    }
  }

  lemma SortKeepsDistinct(s: seq<TierPricing>)
    requires DistinctDeployments(s)
    ensures DistinctDeployments(Sort(CatalogLe, s))
  {
    var t := Sort(CatalogLe, s);
    SortPermutes(CatalogLe, s);
    forall i, j | 0 <= i < j < |t| ensures t[i].deployment != t[j].deployment {
      if t[i].deployment == t[j].deployment {
        assert t[i] in s && t[j] in s;
        DeploymentIdentifies(s, t[i], t[j]);
        TwiceMeansTwo(t, i, j);
        OnceMeansOne(s, t[i]);
        assert false;
      }
    }
  }

  lemma TwiceMeansTwo(t: seq<TierPricing>, i: nat, j: nat)
    requires i < j < |t| && t[i] == t[j]
    ensures multiset(t)[t[i]] >= 2
  {
    assert t == t[..j] + [t[j]] + t[j + 1..];
    assert t[i] in t[..j];
  }

  lemma {:induction false} OnceMeansOne(s: seq<TierPricing>, x: TierPricing)
    requires DistinctDeployments(s)
    ensures multiset(s)[x] <= 1
  {
    if s != [] {
      OnceMeansOne(s[1..], x);
      assert s == [s[0]] + s[1..];
      if s[0] == x { assert x !in s[1..]; }
    }
  }

  /** A price list in reporting order: the lower tier first, then the cheaper, then the earlier deployment. */
  ghost predicate Listed(prices: seq<TierPricing>) {
    forall i, j :: 0 <= i < j < |prices| ==>
      Lower(prices[i].tier, prices[j].tier) || (prices[i].tier == prices[j].tier && NoDearer(prices[i], prices[j]))
  }

  /** A candidate shows the price it stands for, whoever reports it. */
  ghost predicate Shows(c: TierCandidate, p: TierPricing) {
    c.tier == p.tier && c.deployment == p.deployment && c.projectedCostUsd == p.costPerRequestUsd
        && c.vendor == p.vendor
  }

  lemma SortedIsListed(pricing: seq<TierPricing>)
    ensures Listed(Sort(CatalogLe, pricing)) && multiset(Sort(CatalogLe, pricing)) == multiset(pricing)
  {
    TierOrders();
    SortSorted(CatalogLe, pricing);
    SortPermutes(CatalogLe, pricing);
    var sorted := Sort(CatalogLe, pricing);
    forall i, j | 0 <= i < j < |sorted|
      ensures Lower(sorted[i].tier, sorted[j].tier)
              || (sorted[i].tier == sorted[j].tier && NoDearer(sorted[i], sorted[j]))
    {
      assert CatalogLe(sorted[i], sorted[j]);
    }
  }

  /** The candidates are the prices, each once, in reporting order, and the one whose deployment is chosen is marked. */
  lemma CandidatesShowPrices(
    pricing: seq<TierPricing>, chosen: Option<TierPricing>, ceiling: real, indicated: Option<ModelTier>)
    returns (listed: seq<TierPricing>)
    ensures Listed(listed) && multiset(listed) == multiset(pricing)
    ensures var cs := Candidates(pricing, chosen, ceiling, indicated);
            && |cs| == |listed|
            && forall i :: 0 <= i < |cs| ==>
                 && Shows(cs[i], listed[i])
                 && (cs[i].selected <==> chosen.Some? && listed[i].deployment == chosen.value.deployment)
  {
    listed := Sort(CatalogLe, pricing);
    SortedIsListed(pricing);
    MapAt(Candidate(chosen, ceiling, indicated), listed);
  }

  /** A candidate is unmarked exactly when it carries a reason. */
  lemma MarkedOrExplained(
    pricing: seq<TierPricing>, chosen: Option<TierPricing>, ceiling: real, indicated: Option<ModelTier>)
    ensures |Candidates(pricing, chosen, ceiling, indicated)| == |pricing|
    ensures forall c :: c in Candidates(pricing, chosen, ceiling, indicated) ==> (c.selected <==> c.rejected.None?)
  {
    var f, sorted := Candidate(chosen, ceiling, indicated), Sort(CatalogLe, pricing);
    SortPermutes(CatalogLe, pricing);
    MapAt(f, sorted);
    MapMembers(f, sorted);
    assert forall p :: f(p).selected <==> f(p).rejected.None?;
  }

  lemma CandidatesMark(
    pricing: seq<TierPricing>, chosen: Option<TierPricing>, ceiling: real, indicated: Option<ModelTier>)
    requires DistinctDeployments(pricing) && (chosen.Some? ==> chosen.value in pricing)
    ensures var cs := Candidates(pricing, chosen, ceiling, indicated);
            && |cs| == |pricing|
            && |Filter(SELECTED, cs)| == (if chosen.Some? then 1 else 0)
            && forall c :: c in cs ==> (c.selected <==> c.rejected.None?)
  {
    var f, sorted := Candidate(chosen, ceiling, indicated), Sort(CatalogLe, pricing);
    MarkedOrExplained(pricing, chosen, ceiling, indicated);
    SortPermutes(CatalogLe, pricing);
    SortKeepsDistinct(pricing);
    if chosen.Some? {
      assert chosen.value in sorted;
      MarkedOnce(f, sorted, chosen.value.deployment);
    } else {
      NoneMarked(f, sorted);
    }
  }

  /**
   The reasons given are true. Above and below are relative to the indicated tier; a rival at the tier of the selected
   model never costs less, and costs the same only when its deployment comes later. With nothing selected, every
   candidate is down or too dear.
   */
  lemma ReasonsAreTrue(score: real, ceiling: real, pricing: seq<TierPricing>, p: TierPricing)
    requires DistinctDeployments(pricing) && p in pricing
    ensures var chosen, indicated := Selection(score, ceiling, pricing), IndicatedTier(score);
            var reason := Candidate(chosen, ceiling, if chosen.Some? then Some(indicated) else None)(p).rejected;
            && (reason.None? <==> chosen == Some(p))
            && (reason == Some(Unavailable) <==> !p.available)
            && (reason == Some(OverCeiling) <==> p.available && p.costPerRequestUsd > ceiling)
            && (reason == Some(SameTierDearer) ==> Rival(p, chosen))
            && (reason == Some(SameTierDearer) <==>
                  && chosen.Some? && chosen.value != p && p.available && p.costPerRequestUsd <= ceiling
                  && p.tier == chosen.value.tier)
            && (reason == Some(AboveIndicated) ==> chosen.Some? && p.tier.Rank() > indicated.Rank())
            && (reason == Some(BelowIndicated) ==> chosen.Some? && p.tier.Rank() < indicated.Rank())
            && (chosen.None? ==> reason in {Some(Unavailable), Some(OverCeiling)})
  {
    var chosen := Selection(score, ceiling, pricing);
    AffordableMembers(ceiling, pricing);
    if chosen.Some? {
      SelectionIsAffordable(score, ceiling, pricing);
      ChooseIsMinimum(Affordable(ceiling, pricing), IndicatedTier(score));
      if p.deployment == chosen.value.deployment { DeploymentIdentifies(pricing, p, chosen.value); }
      if p.available && p.costPerRequestUsd <= ceiling { ChosenComesFirst(score, ceiling, pricing, p); }
    }
  }

  /** At the tier of the selected model, dearer than it, or as dear with a later deployment. */
  predicate Rival(p: TierPricing, chosen: Option<TierPricing>) {
    && chosen.Some? && p.tier == chosen.value.tier
    && (p.costPerRequestUsd > chosen.value.costPerRequestUsd
        || (p.costPerRequestUsd == chosen.value.costPerRequestUsd
            && Ordinal.Le(chosen.value.deployment, p.deployment) && p.deployment != chosen.value.deployment))
  }

  lemma ChosenComesFirst(score: real, ceiling: real, pricing: seq<TierPricing>, p: TierPricing)
    requires p in Affordable(ceiling, pricing)
    ensures Selection(score, ceiling, pricing).Some?
    ensures PreferredLe(IndicatedTier(score), Selection(score, ceiling, pricing).value, p)
  {
    ChooseIsMinimum(Affordable(ceiling, pricing), IndicatedTier(score));
  }

  /**
   Exactly one candidate is marked selected when a model is chosen, none when none is; every other carries a reason.
   */
  lemma CandidatesMarkSelection(score: real, ceiling: real, pricing: seq<TierPricing>)
    requires DistinctDeployments(pricing) && pricing != []
    ensures var d := Select(score, ceiling, pricing);
            && |d.candidateTiers| == |pricing|
            && |Filter(SELECTED, d.candidateTiers)| == (if Selection(score, ceiling, pricing).Some? then 1 else 0)
            && forall c :: c in d.candidateTiers ==> (c.selected <==> c.rejected.None?)
  {
    var chosen := Selection(score, ceiling, pricing);
    if chosen.Some? {
      SelectionIsAffordable(score, ceiling, pricing);
      CandidatesMark(pricing, chosen, ceiling, Some(IndicatedTier(score)));
    } else {
      CandidatesMark(pricing, None, ceiling, None);
    }
  }
}
