/** The model catalog, policy sets, the complexity score, and the governance filter that runs first. */
module PolicyGate {
  import opened Prelude
  import opened Rounding

  datatype ModelTier = Economy | Standard | Premium {
    function Rank(): nat {
      match this
      case Economy => 0
      case Standard => 1
      case Premium => 2
    }
  }

  datatype ModelVendor = AzureOpenAI | Anthropic | XAI | OpenWeight

  datatype ServingMode = Serverless | ManagedCompute

  datatype DataClassification = Public | Internal | Confidential | Restricted {
    function Level(): nat {
      match this
      case Public => 0
      case Internal => 1
      case Confidential => 2
      case Restricted => 3
    }
  }

  datatype TierPricing = TierPricing(
    tier: ModelTier, deployment: string, costPerRequestUsd: real, available: bool, vendor: ModelVendor,
    serving: ServingMode)

  datatype PolicySet = PolicySet(
    id: string,
    businessUnit: string,
    displayName: string,
    approvedVendors: set<ModelVendor>,
    maxClassification: map<ModelVendor, DataClassification>,
    allowedRegions: set<string>,
    maxCostPerRequestUsd: real,
    permitsRestrictedData: bool,
    version: int,
    updatedBy: Option<string>,
    updatedAt: Option<int>)

  // ---- Complexity ----

  datatype ComplexityHints = ComplexityHints(
    inputTokenEstimate: int, requiresMultiStep: bool, requiresRetrieval: bool, requiresToolCalls: bool)

  function TokenSignal(tokens: int): real {
    if tokens <= 0 then 0.0 else if tokens >= 32_000 then 1.0 else tokens as real / 32_000.0
  }

  function Weight(flag: bool, w: real): real { if flag then w else 0.0 }

  function RawScore(h: ComplexityHints): real {
    TokenSignal(h.inputTokenEstimate) * 0.40 + Weight(h.requiresMultiStep, 0.25)
    + Weight(h.requiresRetrieval, 0.20) + Weight(h.requiresToolCalls, 0.15)
  }

  function Clamp01(x: real): real { if x < 0.0 then 0.0 else if x > 1.0 then 1.0 else x }

  function Score(h: ComplexityHints): real { Round(Clamp01(RawScore(h)), 4) }

  function IndicatedTier(score: real): ModelTier {
    if score < 0.35 then Economy else if score < 0.70 then Standard else Premium
  }

  /** Every signal of `h` is present at least as strongly in `k`. */
  predicate NoSimpler(h: ComplexityHints, k: ComplexityHints) {
    && h.inputTokenEstimate <= k.inputTokenEstimate
    && (h.requiresMultiStep ==> k.requiresMultiStep)
    && (h.requiresRetrieval ==> k.requiresRetrieval)
    && (h.requiresToolCalls ==> k.requiresToolCalls)
  }

  /** The clamp never acts, and stronger signals never lower the score or the indicated tier. */
  lemma ScoreFollowsSignals(h: ComplexityHints, k: ComplexityHints)
    requires NoSimpler(h, k)
    ensures 0.0 <= RawScore(h) <= RawScore(k) <= 1.0
    ensures Score(h) <= Score(k)
    ensures IndicatedTier(Score(h)).Rank() <= IndicatedTier(Score(k)).Rank()
  {
    assert TokenSignal(h.inputTokenEstimate) <= TokenSignal(k.inputTokenEstimate);
    RoundMonotone(Clamp01(RawScore(h)), Clamp01(RawScore(k)), 4);
  }

  // ---- The gate ----

  datatype ExclusionKind = VendorNotApproved | ClassificationExceeded | RegionNotPermitted | PolicyCostCeiling

  datatype PolicyExclusion = PolicyExclusion(deployment: string, vendor: ModelVendor, kind: ExclusionKind)

  /** What governs one evaluation. */
  datatype Terms = Terms(policy: PolicySet, classification: DataClassification, region: Option<string>) {
    predicate RegionBlocked() {
      policy.allowedRegions != {} && region.Some? && region.value !in policy.allowedRegions
    }

    /** Why a candidate is ruled out, if it is. */
    function Objection(c: TierPricing): Option<ExclusionKind> {
      if RegionBlocked() then Some(RegionNotPermitted)
      else if c.vendor !in policy.approvedVendors then Some(VendorNotApproved)
      else if c.vendor !in policy.maxClassification
          || classification.Level() > policy.maxClassification[c.vendor].Level() then
        Some(ClassificationExceeded)
      else if c.costPerRequestUsd > policy.maxCostPerRequestUsd then Some(PolicyCostCeiling)
      else None
    }

    predicate Permits(c: TierPricing) { Objection(c).None? }
  }

  function Permitted(t: Terms): TierPricing -> bool { (c: TierPricing) => t.Permits(c) }

  function Eligible(t: Terms, catalog: seq<TierPricing>): seq<TierPricing> { Filter(Permitted(t), catalog) }

  function ExclusionOf(t: Terms): TierPricing -> seq<PolicyExclusion> {
    (c: TierPricing) =>
      match t.Objection(c)
      case None => []
      case Some(kind) => [PolicyExclusion(c.deployment, c.vendor, kind)]
  }

  function Excluded(t: Terms, catalog: seq<TierPricing>): seq<PolicyExclusion> { FlatMap(ExclusionOf(t), catalog) }

  lemma ExcludedAppend(t: Terms, a: seq<TierPricing>, c: TierPricing)
    ensures Excluded(t, a + [c]) ==
            Excluded(t, a) + if t.Objection(c).Some?
                then [PolicyExclusion(c.deployment, c.vendor, t.Objection(c).value)] else []
  {
    FlatMapAppend(ExclusionOf(t), a, c);
  }

  lemma EligibleAppend(t: Terms, a: seq<TierPricing>, c: TierPricing)
    ensures Eligible(t, a + [c]) == Eligible(t, a) + if t.Permits(c) then [c] else []
  {
    FilterConcat(Permitted(t), a, [c]);
    assert [c][1..] == [];
  }

  /** PolicyGate.Evaluate: the catalog split, in order, into what policy permits and what it rules out. */
  method Evaluate(
    catalog: seq<TierPricing>, policy: PolicySet, classification: DataClassification, region: Option<string>)
    returns (eligible: seq<TierPricing>, excluded: seq<PolicyExclusion>)
    ensures eligible == Eligible(Terms(policy, classification, region), catalog)
    ensures excluded == Excluded(Terms(policy, classification, region), catalog)
    ensures forall c :: c in eligible <==> c in catalog && Cleared(policy, classification, region, c)
    ensures forall x :: x in excluded <==>
              exists c :: && c in catalog && FirstBroken(policy, classification, region, c, x.kind)
                          && x.deployment == c.deployment && x.vendor == c.vendor
  {
    GateDecides(catalog, policy, classification, region);
    ghost var t := Terms(policy, classification, region);
    eligible, excluded := [], [];
    if policy.allowedRegions != {} && region.Some? && region.value !in policy.allowedRegions {
      for i := 0 to |catalog|
        invariant eligible == Eligible(t, catalog[..i]) == [] && excluded == Excluded(t, catalog[..i])
      {
        var c := catalog[i];
        assert catalog[..i + 1] == catalog[..i] + [c];
        ExcludedAppend(t, catalog[..i], c);
        EligibleAppend(t, catalog[..i], c);
        excluded := excluded + [PolicyExclusion(c.deployment, c.vendor, RegionNotPermitted)];
      }
    } else {
      for i := 0 to |catalog|
        invariant eligible == Eligible(t, catalog[..i]) && excluded == Excluded(t, catalog[..i])
      {
        var c := catalog[i];
        assert catalog[..i + 1] == catalog[..i] + [c];
        ExcludedAppend(t, catalog[..i], c);
        EligibleAppend(t, catalog[..i], c);
        if c.vendor !in policy.approvedVendors {
          excluded := excluded + [PolicyExclusion(c.deployment, c.vendor, VendorNotApproved)];
        } else if c.vendor !in policy.maxClassification
            || classification.Level() > policy.maxClassification[c.vendor].Level() {
          excluded := excluded + [PolicyExclusion(c.deployment, c.vendor, ClassificationExceeded)];
        } else if c.costPerRequestUsd > policy.maxCostPerRequestUsd {
          excluded := excluded + [PolicyExclusion(c.deployment, c.vendor, PolicyCostCeiling)];
        } else {
          eligible := eligible + [c];
        }
      }
    }
    assert catalog[..|catalog|] == catalog;
  }

  /** Every candidate is on exactly one side of the gate. */
  lemma {:induction false} GateAccountsForAll(t: Terms, catalog: seq<TierPricing>)
    ensures |Eligible(t, catalog)| + |Excluded(t, catalog)| == |catalog|
    ensures forall x :: x in Excluded(t, catalog) <==>
              exists c :: c in catalog && t.Objection(c).Some?
                  && x == PolicyExclusion(c.deployment, c.vendor, t.Objection(c).value)
  {
    if catalog != [] {
      GateAccountsForAll(t, catalog[1..]);
      assert catalog == [catalog[0]] + catalog[1..];
    }
  }

  /** `p` is at least as strict as `q` in every governed respect. */
  predicate Tightens(p: PolicySet, q: PolicySet) {
    && p.approvedVendors <= q.approvedVendors
    && (forall v :: v in p.maxClassification ==>
          v in q.maxClassification && p.maxClassification[v].Level() <= q.maxClassification[v].Level())
    && (q.allowedRegions == {} || (p.allowedRegions != {} && p.allowedRegions <= q.allowedRegions))
    && p.maxCostPerRequestUsd <= q.maxCostPerRequestUsd
  }

  /** What a stricter policy permits, the laxer one permits. */
  lemma TighterPermitsLess(
    p: PolicySet, q: PolicySet, classification: DataClassification, region: Option<string>, c: TierPricing)
    requires Tightens(p, q) && Terms(p, classification, region).Permits(c)
    ensures Terms(q, classification, region).Permits(c)
  {
  }

  // ---- What policy asks, rule by rule ----

  /** No region limit, no region given, or a region on the list. */
  predicate RegionAllowed(policy: PolicySet, region: Option<string>) {
    policy.allowedRegions == {} || region.None? || region.value in policy.allowedRegions
  }

  /** Public data is the least sensitive, then Internal, Confidential and Restricted. */
  predicate AtMost(d: DataClassification, ceiling: DataClassification) {
    match ceiling
    case Restricted => true
    case Confidential => d != Restricted
    case Internal => d == Public || d == Internal
    case Public => d == Public
  }

  /** The vendor may process data of this classification. */
  predicate VendorCleared(policy: PolicySet, classification: DataClassification, vendor: ModelVendor) {
    vendor in policy.maxClassification && AtMost(classification, policy.maxClassification[vendor])
  }

  /** Everything policy asks of a candidate for this request. */
  predicate Cleared(
    policy: PolicySet, classification: DataClassification, region: Option<string>, c: TierPricing)
  {
    && RegionAllowed(policy, region)
    && c.vendor in policy.approvedVendors
    && VendorCleared(policy, classification, c.vendor)
    && c.costPerRequestUsd <= policy.maxCostPerRequestUsd
  }

  /** The first rule a candidate breaks: region, then vendor, then classification, then cost. */
  predicate FirstBroken(
    policy: PolicySet, classification: DataClassification, region: Option<string>, c: TierPricing, kind: ExclusionKind)
  {
    match kind
    case RegionNotPermitted => !RegionAllowed(policy, region)
    case VendorNotApproved => RegionAllowed(policy, region) && c.vendor !in policy.approvedVendors
    case ClassificationExceeded =>
      && RegionAllowed(policy, region) && c.vendor in policy.approvedVendors
      && !VendorCleared(policy, classification, c.vendor)
    case PolicyCostCeiling =>
      && RegionAllowed(policy, region) && c.vendor in policy.approvedVendors
      && VendorCleared(policy, classification, c.vendor) && c.costPerRequestUsd > policy.maxCostPerRequestUsd
  }

  /**
   The gate objects to a candidate with exactly the first rule it breaks, and permits it exactly when it breaks none.
   */
  lemma ObjectionIsFirstBroken(t: Terms, c: TierPricing)
    ensures t.Permits(c) <==> Cleared(t.policy, t.classification, t.region, c)
    ensures forall kind: ExclusionKind ::
              t.Objection(c) == Some(kind) <==> FirstBroken(t.policy, t.classification, t.region, c, kind)
  {
    assert forall d: DataClassification, e: DataClassification :: d.Level() <= e.Level() <==> AtMost(d, e);
  }

  /** What the two sides of the gate hold, in the policy's own terms. */
  lemma GateDecides(
    catalog: seq<TierPricing>, policy: PolicySet, classification: DataClassification, region: Option<string>)
    ensures var t := Terms(policy, classification, region);
            && (forall c :: c in Eligible(t, catalog) <==> c in catalog && Cleared(policy, classification, region, c))
            && (forall x :: x in Excluded(t, catalog) <==>
                  exists c :: && c in catalog && FirstBroken(policy, classification, region, c, x.kind)
                              && x.deployment == c.deployment && x.vendor == c.vendor)
  {
    var t := Terms(policy, classification, region);
    FilterMembers(Permitted(t), catalog);
    GateAccountsForAll(t, catalog);
    forall c: TierPricing
      ensures t.Permits(c) <==> Cleared(policy, classification, region, c)
      ensures forall kind: ExclusionKind ::
                t.Objection(c) == Some(kind) <==> FirstBroken(policy, classification, region, c, kind)
    {
      ObjectionIsFirstBroken(t, c);
    }
  }

  // ---- What the score measures ----

  /** The share of 32000 tokens a request is estimated at, kept between none and all. */
  predicate IsTokenShare(tokens: int, share: real) {
    share * 32000.0 == (if tokens < 0 then 0 else if tokens > 32000 then 32000 else tokens) as real
  }

  /**
   The score is two fifths of the token share, a quarter for several steps, a fifth for retrieval and three twentieths
   for tools, to four places; below 0.35 the economy tier is indicated, from 0.70 on the premium tier.
   */
  lemma ScoreMeasures(h: ComplexityHints, share: real)
    requires IsTokenShare(h.inputTokenEstimate, share)
    ensures var exact := 0.4 * share + (if h.requiresMultiStep then 0.25 else 0.0)
                         + (if h.requiresRetrieval then 0.2 else 0.0) + (if h.requiresToolCalls then 0.15 else 0.0);
            exact - 0.00005 <= Score(h) <= exact + 0.00005
    ensures IndicatedTier(Score(h)).Economy? <==> Score(h) < 0.35
    ensures IndicatedTier(Score(h)).Premium? <==> Score(h) >= 0.7
  {
    ScoreFollowsSignals(h, h);
    assert share == TokenSignal(h.inputTokenEstimate);
    RoundNearPlaces(RawScore(h));
  }
}
