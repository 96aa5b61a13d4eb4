/** Governance first, economics second, and the HTTP status the outcome is given. */
module RoutingPlanner {
  import opened Prelude
  import opened Sorting
  import opened PolicyGate
  import opened TierSelector

  datatype RoutingRequest = RoutingRequest(
    hints: ComplexityHints, costCeilingUsd: real, dataClassification: DataClassification,
    executionRegion: Option<string>)

  datatype PlanError = EmptyCatalog

  function TermsOf(request: RoutingRequest, policy: PolicySet): Terms {
    Terms(policy, request.dataClassification, request.executionRegion)
  }

  function EffectiveCeiling(request: RoutingRequest, policy: PolicySet): real {
    if request.costCeilingUsd <= policy.maxCostPerRequestUsd then request.costCeilingUsd
        else policy.maxCostPerRequestUsd
  }

  // ---- Refusal ----

  /** The first exclusion recorded for a deployment. */
  function FirstExclusion(excluded: seq<PolicyExclusion>, deployment: string): Option<ExclusionKind> {
    if excluded == [] then None
    else if excluded[0].deployment == deployment then Some(excluded[0].kind)
    else FirstExclusion(excluded[1..], deployment)
  }

  function RefusedCandidate(excluded: seq<PolicyExclusion>): TierPricing -> TierCandidate {
    (p: TierPricing) =>
      TierCandidate(p.tier, p.deployment, p.costPerRequestUsd, p.vendor, false,
                    Some(match FirstExclusion(excluded, p.deployment)
                         case Some(kind) => ByPolicy(kind)
                         case None => ByPolicyUnspecified))
  }

  function Refused(
    score: real, request: RoutingRequest, policy: PolicySet, excluded: seq<PolicyExclusion>,
    catalog: seq<TierPricing>): RoutingDecision {
    RoutingDecision(score, request.costCeilingUsd, RefusedByPolicy, None, None, None,
                    Map(RefusedCandidate(excluded), Sort(CatalogLe, catalog)),
                    Some(policy.id), Some(policy.version), Some(request.dataClassification), excluded)
  }

  // ---- The plan ----

  function Plan(
    request: RoutingRequest, catalog: seq<TierPricing>, policy: PolicySet): Result<RoutingDecision, PlanError> {
    if catalog == [] then Err(EmptyCatalog) else
      var score := Score(request.hints);
      var eligible := Eligible(TermsOf(request, policy), catalog);
      var excluded := Excluded(TermsOf(request, policy), catalog);
      if eligible == [] then Ok(Refused(score, request, policy, excluded, catalog))
      else
        Ok(Select(score, EffectiveCeiling(request, policy), eligible).(
             policySetId := Some(policy.id), policySetVersion := Some(policy.version),
             dataClassification := Some(request.dataClassification), policyExclusions := excluded))
  }

  /** The model a plan runs, if any. */
  function Selected(request: RoutingRequest, catalog: seq<TierPricing>, policy: PolicySet): Option<TierPricing> {
    Selection(Score(request.hints), EffectiveCeiling(request, policy), Eligible(TermsOf(request, policy), catalog))
  }

  // ---- What governs the selection ----

  lemma EligibleMembers(t: Terms, catalog: seq<TierPricing>)
    ensures forall x :: x in Eligible(t, catalog) <==> x in catalog && t.Permits(x)
    ensures Eligible(t, catalog) == [] <==> forall x :: x in catalog ==> !t.Permits(x)
  {
    FilterMembers(Permitted(t), catalog);
    assert Eligible(t, catalog) != [] ==> Eligible(t, catalog)[0] in Eligible(t, catalog);
  }

  /**
   A plan names exactly the selected model, which policy permits, is up, and is within both ceilings; otherwise it
   names none.
   */
  lemma PlanRunsSelected(request: RoutingRequest, catalog: seq<TierPricing>, policy: PolicySet)
    requires catalog != []
    ensures var d := Plan(request, catalog, policy).value;
            var s := Selected(request, catalog, policy);
            && d.selectedDeployment == (if s.Some? then Some(s.value.deployment) else None)
            && d.selectedTier == (if s.Some? then Some(s.value.tier) else None)
            && d.selectedVendor == (if s.Some? then Some(s.value.vendor) else None)
            && (s.Some? <==> d.outcome.Routed? || d.outcome.Downgraded?)
            && (s.Some? ==> s.value in catalog && TermsOf(request, policy).Permits(s.value) && s.value.available
                            && s.value.costPerRequestUsd <= request.costCeilingUsd
                            && s.value.costPerRequestUsd <= policy.maxCostPerRequestUsd
                            && (d.outcome.Downgraded?
                                <==> s.value.tier.Rank() < IndicatedTier(Score(request.hints)).Rank()))
  {
    EligibleMembers(TermsOf(request, policy), catalog);
    if Selected(request, catalog, policy).Some? {
      SelectionIsAffordable(Score(request.hints), EffectiveCeiling(request, policy),
          Eligible(TermsOf(request, policy), catalog));
    }
  }

  /** A model the request may run: cleared by policy, up, and within the request's ceiling. */
  predicate Usable(request: RoutingRequest, policy: PolicySet, c: TierPricing) {
    && Cleared(policy, request.dataClassification, request.executionRegion, c)
    && c.available && c.costPerRequestUsd <= request.costCeilingUsd
  }

  function UsableModels(request: RoutingRequest, catalog: seq<TierPricing>, policy: PolicySet): set<TierPricing> {
    set c | c in catalog && Usable(request, policy, c)
  }

  /**
   The decision in the request's and the policy's own terms: refused when policy clears no model, denied when it clears
   some but none may run, and otherwise the first choice among those that may, at that model's tier and vendor.
   */
  lemma PlanDecides(request: RoutingRequest, catalog: seq<TierPricing>, policy: PolicySet)
    requires catalog != []
    ensures var d := Plan(request, catalog, policy).value;
            var usable := UsableModels(request, catalog, policy);
            var indicated := IndicatedTier(Score(request.hints));
            && (d.outcome.RefusedByPolicy? <==>
                  forall c :: c in catalog ==> !Cleared(policy, request.dataClassification, request.executionRegion, c))
            && (d.outcome.RefusedByPolicy? || d.outcome.Denied? <==> usable == {})
            && (d.selectedDeployment.None? <==> usable == {})
            && (usable != {} ==>
                  exists c :: && FirstChoice(c, usable, indicated)
                              && d.selectedDeployment == Some(c.deployment) && d.selectedTier == Some(c.tier)
                              && d.selectedVendor == Some(c.vendor)
                              && (d.outcome.Downgraded? <==> Lower(c.tier, indicated)))
            && d.policySetId == Some(policy.id) && d.policySetVersion == Some(policy.version)
            && d.dataClassification == Some(request.dataClassification)
            && d.complexityScore == Score(request.hints)
            && (d.costCeilingUsd == request.costCeilingUsd
                || (d.costCeilingUsd == policy.maxCostPerRequestUsd < request.costCeilingUsd
                    && !d.outcome.RefusedByPolicy?))
  {
    var t := TermsOf(request, policy);
    var eligible := Eligible(t, catalog);
    var ceiling := EffectiveCeiling(request, policy);
    GateDecides(catalog, policy, request.dataClassification, request.executionRegion);
    EligibleMembers(t, catalog);
    AffordableMembers(ceiling, eligible);
    var affordable := Affordable(ceiling, eligible);
    var usable := UsableModels(request, catalog, policy);
    AffordableAreUsable(request, catalog, policy);
    PlanRunsSelected(request, catalog, policy);
    if affordable != [] {
      ChoiceIsFirst(affordable, IndicatedTier(Score(request.hints)));
      var c := Choose(affordable, IndicatedTier(Score(request.hints)));
      assert FirstChoice(c, usable, IndicatedTier(Score(request.hints)));
      assert Selected(request, catalog, policy) == Some(c);
      assert Lower(c.tier, IndicatedTier(Score(request.hints)))
          <==> c.tier.Rank() < IndicatedTier(Score(request.hints)).Rank();
    }
  }

  lemma AffordableAreUsable(request: RoutingRequest, catalog: seq<TierPricing>, policy: PolicySet)
    ensures var affordable :=
            Affordable(EffectiveCeiling(request, policy), Eligible(TermsOf(request, policy), catalog));
            && (set c | c in affordable) == UsableModels(request, catalog, policy)
            && (affordable == [] <==> UsableModels(request, catalog, policy) == {})
  {
    var affordable := Affordable(EffectiveCeiling(request, policy), Eligible(TermsOf(request, policy), catalog));
    GateDecides(catalog, policy, request.dataClassification, request.executionRegion);
    AffordableMembers(EffectiveCeiling(request, policy), Eligible(TermsOf(request, policy), catalog));
    assert forall c :: c in affordable <==> c in catalog && Usable(request, policy, c);
    if affordable != [] { assert affordable[0] in UsableModels(request, catalog, policy); }
  }

  lemma EligibleDistinct(t: Terms, catalog: seq<TierPricing>)
    requires DistinctDeployments(catalog)
    ensures DistinctDeployments(Eligible(t, catalog))
  {
    FilterKeepsDistinct(Permitted(t), catalog);
  }

  /**
   Withdrawing models from the catalog and tightening the policy, together, leave the selection as
   it was whenever the selected model stays in the catalog and stays permitted.
   */
  lemma SelectionSurvivesTightening(
    request: RoutingRequest, catalog: seq<TierPricing>, policy: PolicySet, fewer: seq<TierPricing>, tighter: PolicySet)
    requires DistinctDeployments(catalog) && Selected(request, catalog, policy).Some?
    requires (forall x :: x in fewer ==> x in catalog) && Tightens(tighter, policy)
    requires var s := Selected(request, catalog, policy).value; s in fewer && TermsOf(request, tighter).Permits(s)
    ensures Selected(request, fewer, tighter) == Selected(request, catalog, policy)
  {
    var s := Selected(request, catalog, policy).value;
    var indicated := IndicatedTier(Score(request.hints));
    var t, u := TermsOf(request, policy), TermsOf(request, tighter);
    var before := Affordable(EffectiveCeiling(request, policy), Eligible(t, catalog));
    var after := Affordable(EffectiveCeiling(request, tighter), Eligible(u, fewer));
    EligibleMembers(t, catalog);
    EligibleMembers(u, fewer);
    AffordableMembers(EffectiveCeiling(request, policy), Eligible(t, catalog));
    AffordableMembers(EffectiveCeiling(request, tighter), Eligible(u, fewer));
    EligibleDistinct(t, catalog);
    AffordableDistinct(EffectiveCeiling(request, policy), Eligible(t, catalog));
    ChooseIsMinimum(before, indicated);
    forall x | x in after ensures x in before {
      TighterPermitsLess(tighter, policy, request.dataClassification, request.executionRegion, x);
    }
    assert s in after;
    ChoiceSurvivesWithdrawal(before, after, indicated);
  }

  /** The selection does not depend on the order of the catalog. */
  lemma SelectionIgnoresCatalogOrder(
    request: RoutingRequest, catalog: seq<TierPricing>, other: seq<TierPricing>, policy: PolicySet)
    requires DistinctDeployments(catalog) && multiset(catalog) == multiset(other)
    ensures Selected(request, catalog, policy) == Selected(request, other, policy)
  {
    PermutationElements(catalog, other);
    TightensReflexive(policy);
    if Selected(request, catalog, policy).Some? {
      SelectedIsPermitted(request, catalog, policy);
      SelectionSurvivesTightening(request, catalog, policy, other, policy);
    } else {
      SelectedNoneIff(request, catalog, policy);
      SelectedNoneIff(request, other, policy);
    }
  }

  lemma TightensReflexive(policy: PolicySet)
    ensures Tightens(policy, policy)
  {
  }

  lemma SelectedIsPermitted(request: RoutingRequest, catalog: seq<TierPricing>, policy: PolicySet)
    requires Selected(request, catalog, policy).Some?
    ensures var s := Selected(request, catalog, policy).value; s in catalog && TermsOf(request, policy).Permits(s)
  {
    EligibleMembers(TermsOf(request, policy), catalog);
    SelectionIsAffordable(Score(request.hints), EffectiveCeiling(request, policy),
        Eligible(TermsOf(request, policy), catalog));
  }

  /** Nothing is selected exactly when every permitted, available model exceeds the request ceiling. */
  lemma SelectedNoneIff(request: RoutingRequest, catalog: seq<TierPricing>, policy: PolicySet)
    ensures Selected(request, catalog, policy).None? <==>
            forall x :: x in catalog && TermsOf(request, policy).Permits(x) && x.available ==>
                x.costPerRequestUsd > request.costCeilingUsd
  {
    EligibleMembers(TermsOf(request, policy), catalog);
    AffordableMembers(EffectiveCeiling(request, policy), Eligible(TermsOf(request, policy), catalog));
  }

  /** The outcome: whether a model runs, whether it was downgraded, or why none does. */
  function Outcome(request: RoutingRequest, catalog: seq<TierPricing>, policy: PolicySet): RoutingOutcome
    requires catalog != []
  {
    Plan(request, catalog, policy).value.outcome
  }

  /**
   Raising the request ceiling never turns a selection into a denial, never yields a worse-ranked
   model, and keeps the selection once it is at the indicated tier.
   */
  lemma RaisingRequestCeilingHelps(request: RoutingRequest, higher: real, catalog: seq<TierPricing>, policy: PolicySet)
    requires request.costCeilingUsd <= higher && DistinctDeployments(catalog)
            && Selected(request, catalog, policy).Some?
    ensures var raised := Selected(request.(costCeilingUsd := higher), catalog, policy);
            var s := Selected(request, catalog, policy);
            && raised.Some?
            && PreferredLe(IndicatedTier(Score(request.hints)), raised.value, s.value)
            && (s.value.tier == IndicatedTier(Score(request.hints)) ==> raised == s)
  {
    var raised := request.(costCeilingUsd := higher);
    assert TermsOf(raised, policy) == TermsOf(request, policy);
    EligibleDistinct(TermsOf(request, policy), catalog);
    RaisingCeilingHelps(Score(request.hints), EffectiveCeiling(request, policy), EffectiveCeiling(raised, policy),
        Eligible(TermsOf(request, policy), catalog));
  }

  /**
   Taking the minimum with the policy ceiling changes neither the selection nor, once something is eligible, the
   outcome.
   */
  lemma PolicyCeilingIsRedundant(request: RoutingRequest, catalog: seq<TierPricing>, policy: PolicySet)
    ensures var eligible := Eligible(TermsOf(request, policy), catalog);
            && Selected(request, catalog, policy) == Selection(Score(request.hints), request.costCeilingUsd, eligible)
            && (eligible != [] ==>
                  Outcome(request, catalog, policy)
                      == Select(Score(request.hints), request.costCeilingUsd, eligible).outcome)
  {
    EligibleMembers(TermsOf(request, policy), catalog);
    RedundantCeiling(Score(request.hints), request.costCeilingUsd, policy.maxCostPerRequestUsd,
        Eligible(TermsOf(request, policy), catalog));
  }

  // ---- Candidates of a refusal ----

  lemma {:induction false} FirstExclusionIs(excluded: seq<PolicyExclusion>, deployment: string)
    ensures FirstExclusion(excluded, deployment).Some? ==> exists x ::
            x in excluded && x.deployment == deployment && x.kind == FirstExclusion(excluded, deployment).value
    ensures FirstExclusion(excluded, deployment).None? ==> forall x :: x in excluded ==> x.deployment != deployment
  {
    if excluded != [] {
      FirstExclusionIs(excluded[1..], deployment);
      assert excluded == [excluded[0]] + excluded[1..];
    }
  }

  /** When policy clears no model, every candidate is reported under the first rule it breaks, and none is marked. */
  lemma RefusalExplainsAll(request: RoutingRequest, catalog: seq<TierPricing>, policy: PolicySet)
    returns (listed: seq<TierPricing>)
    requires DistinctDeployments(catalog) && catalog != []
    requires Plan(request, catalog, policy).value.outcome.RefusedByPolicy?
    ensures Listed(listed) && multiset(listed) == multiset(catalog)
    ensures var cs := Plan(request, catalog, policy).value.candidateTiers;
            && |cs| == |listed|
            && forall i :: 0 <= i < |cs| ==>
                 Shows(cs[i], listed[i]) && !cs[i].selected && Explained(request, policy, listed[i], cs[i])
  {
    var excluded := Excluded(TermsOf(request, policy), catalog);
    listed := Sort(CatalogLe, catalog);
    SortedIsListed(catalog);
    MapAt(RefusedCandidate(excluded), listed);
    PlanDecides(request, catalog, policy);
    SortPermutes(CatalogLe, catalog);
    forall i | 0 <= i < |listed|
      ensures Explained(request, policy, listed[i], RefusedCandidate(excluded)(listed[i]))
    {
      assert listed[i] in catalog;
      ExclusionIsFirstBroken(request, catalog, policy, listed[i]);
    }
  }

  ghost predicate Explained(request: RoutingRequest, policy: PolicySet, p: TierPricing, c: TierCandidate) {
    exists kind: ExclusionKind ::
      && FirstBroken(policy, request.dataClassification, request.executionRegion, p, kind)
      && c.rejected == Some(ByPolicy(kind))
  }

  lemma ExclusionIsFirstBroken(
    request: RoutingRequest, catalog: seq<TierPricing>, policy: PolicySet, p: TierPricing)
    requires DistinctDeployments(catalog) && p in catalog
    requires !Cleared(policy, request.dataClassification, request.executionRegion, p)
    ensures Explained(request, policy, p, RefusedCandidate(Excluded(TermsOf(request, policy), catalog))(p))
  {
    var t := TermsOf(request, policy);
    var excluded := Excluded(t, catalog);
    GateAccountsForAll(t, catalog);
    ObjectionIsFirstBroken(t, p);
    FirstExclusionIs(excluded, p.deployment);
    assert PolicyExclusion(p.deployment, p.vendor, t.Objection(p).value) in excluded;
    var x :| x in excluded && x.deployment == p.deployment
        && x.kind == FirstExclusion(excluded, p.deployment).value;
    var d :| d in catalog && t.Objection(d).Some? && x == PolicyExclusion(d.deployment, d.vendor, t.Objection(d).value);
    DeploymentIdentifies(catalog, p, d);
  }

  // ---- The status ----

  function ExcludedNames(exclusions: seq<PolicyExclusion>): set<string> { set x | x in exclusions :: x.deployment }

  function NotNamed(names: set<string>): TierPricing -> bool { (c: TierPricing) => c.deployment !in names }

  predicate NoPermittedModelAvailable(d: RoutingDecision, catalog: seq<TierPricing>) {
    var permitted := Filter(NotNamed(ExcludedNames(d.policyExclusions)), catalog);
    permitted != [] && forall c :: c in permitted ==> !c.available
  }

  function StatusFor(d: RoutingDecision, catalog: seq<TierPricing>): nat {
    match d.outcome
    case Routed => 200
    case Downgraded => 200
    case RefusedByPolicy => 200
    case Denied => if NoPermittedModelAvailable(d, catalog) then 503 else 402
  }

  /** With distinct deployments, excluding by name is excluding by policy. */
  lemma NamesAreObjections(t: Terms, catalog: seq<TierPricing>, c: TierPricing)
    requires DistinctDeployments(catalog) && c in catalog
    ensures c.deployment in ExcludedNames(Excluded(t, catalog)) <==> !t.Permits(c)
  {
    var names := ExcludedNames(Excluded(t, catalog));
    GateAccountsForAll(t, catalog);
    if !t.Permits(c) {
      assert PolicyExclusion(c.deployment, c.vendor, t.Objection(c).value) in Excluded(t, catalog);
    }
    if c.deployment in names {
      var x :| x in Excluded(t, catalog) && x.deployment == c.deployment;
      var d :| d in catalog && t.Objection(d).Some?
          && x == PolicyExclusion(d.deployment, d.vendor, t.Objection(d).value);
      DeploymentIdentifies(catalog, c, d);
    }
  }

  /** Some permitted model exists. */
  ghost predicate SomePermitted(request: RoutingRequest, catalog: seq<TierPricing>, policy: PolicySet) {
    exists c :: c in catalog && TermsOf(request, policy).Permits(c)
  }

  /** Some permitted model is up. */
  ghost predicate SomePermittedUp(request: RoutingRequest, catalog: seq<TierPricing>, policy: PolicySet) {
    exists c :: c in catalog && TermsOf(request, policy).Permits(c) && c.available
  }

  /** Every permitted model that is up costs more than the request allows. */
  ghost predicate AllUpTooDear(request: RoutingRequest, catalog: seq<TierPricing>, policy: PolicySet) {
    forall c :: c in catalog && TermsOf(request, policy).Permits(c) && c.available ==>
        c.costPerRequestUsd > request.costCeilingUsd
  }

  lemma MapperSeesPermitted(request: RoutingRequest, catalog: seq<TierPricing>, policy: PolicySet, d: RoutingDecision)
    requires DistinctDeployments(catalog) && d.policyExclusions == Excluded(TermsOf(request, policy), catalog)
    ensures NoPermittedModelAvailable(d, catalog)
       <==> SomePermitted(request, catalog, policy) && !SomePermittedUp(request, catalog, policy)
  {
    var t := TermsOf(request, policy);
    var p := NotNamed(ExcludedNames(d.policyExclusions));
    var permitted := Filter(p, catalog);
    FilterMembers(p, catalog);
    forall c | c in catalog ensures c in permitted <==> t.Permits(c) {
      NamesAreObjections(t, catalog, c);
    }
    assert permitted != [] <==> SomePermitted(request, catalog, policy) by {
      if permitted != [] { assert permitted[0] in permitted; }
    }
  }

  /**
   503: policy permits something and none of it is up. 402: something permitted is up and all of it
   is too dear. 200: everything else.
   */
  lemma StatusSaysWhy(request: RoutingRequest, catalog: seq<TierPricing>, policy: PolicySet)
    requires DistinctDeployments(catalog) && catalog != []
    ensures var status := StatusFor(Plan(request, catalog, policy).value, catalog);
            && status in {200, 402, 503}
            && (status == 503 <==>
                  SomePermitted(request, catalog, policy) && !SomePermittedUp(request, catalog, policy))
            && (status == 402 <==> SomePermittedUp(request, catalog, policy) && AllUpTooDear(request, catalog, policy))
  {
    var d := Plan(request, catalog, policy).value;
    EligibleMembers(TermsOf(request, policy), catalog);
    SelectedNoneIff(request, catalog, policy);
    MapperSeesPermitted(request, catalog, policy, d);
    assert SomePermittedUp(request, catalog, policy) ==> SomePermitted(request, catalog, policy);
  }

  /** End to end, one candidate is marked selected when a model is chosen and none otherwise. */
  lemma OneCandidateMarked(request: RoutingRequest, catalog: seq<TierPricing>, policy: PolicySet)
    requires DistinctDeployments(catalog) && catalog != []
    ensures |Filter(SELECTED, Plan(request, catalog, policy).value.candidateTiers)| ==
            if Plan(request, catalog, policy).value.selectedDeployment.Some? then 1 else 0
  {
    var t := TermsOf(request, policy);
    PlanRunsSelected(request, catalog, policy);
    EligibleMembers(t, catalog);
    if Eligible(t, catalog) == [] {
      NoneMarked(RefusedCandidate(Excluded(t, catalog)), Sort(CatalogLe, catalog));
    } else {
      EligibleDistinct(t, catalog);
      CandidatesMarkSelection(Score(request.hints), EffectiveCeiling(request, policy), Eligible(t, catalog));
    }
  }
}
