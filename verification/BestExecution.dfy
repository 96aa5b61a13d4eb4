/** Venue cost and eligibility under the best-execution policy, with every rounding step kept. */
module BestExecution {
  import opened Prelude
  import opened Rounding

  datatype OrderSide = Buy | Sell

  datatype OrderIntent = OrderIntent(
    orderId: string, correlationId: string, symbol: string, side: OrderSide,
    quantity: int, limitPrice: real, arrivalMidPrice: real)
  {
    function NotionalUsd(): real { quantity as real * limitPrice }
  }

  datatype VenueType = Lit | Dark

  datatype VenueQuote = VenueQuote(
    venueCode: string, venueType: VenueType, midPrice: real, spread: real, displayedLiquidity: int, feeBps: real)

  datatype PolicyBoundary =
    | VenueNotApproved | DarkPoolMinimumSize | ParticipationRateExceeded
    | SpreadToleranceExceeded | LimitPriceBreached | NotionalCeilingExceeded

  datatype PolicyBreach = PolicyBreach(boundary: PolicyBoundary, venueCode: Option<string>)

  datatype BestExecutionPolicy = BestExecutionPolicy(
    approvedVenues: set<string>, maxParticipationRate: real, maxSpreadBps: real,
    darkPoolMinimumQuantity: int, maxNotionalUsd: real, impactCoefficientBps: real)

  const DEFAULT_POLICY :=
      BestExecutionPolicy({"XLIT", "XMER", "XNOR", "XPAC", "DARK-1"}, 0.20, 25.0, 10_000, 25_000_000.0, 50.0)

  datatype CostBreakdown = CostBreakdown(
    participationRate: real, spreadCostBps: real, impactBps: real, feeBps: real, projectedPrice: real,
    projectedCostUsd: real)
  {
    function TotalCostBps(): real { spreadCostBps + impactBps + feeBps }
  }

  datatype VenueEvaluation = VenueEvaluation(quote: VenueQuote, cost: CostBreakdown, breaches: seq<PolicyBreach>) {
    predicate IsEligible() { breaches == [] }
  }

  /** decimal.MaxValue / 1_000_000: participation at a venue showing nothing. */
  const NO_LIQUIDITY := 79228162514264337593543.950335

  function Min(x: real, y: real): real { if x <= y then x else y }

  // ---- The pieces of the cost ----

  function Participation(quantity: int, liquidity: int): real {
    if liquidity <= 0 then NO_LIQUIDITY else Round(quantity as real / liquidity as real, 6)
  }

  /** Half the spread, in basis points of the mid. */
  function HalfSpreadBps(quote: VenueQuote): real {
    if quote.midPrice == 0.0 then 0.0 else Round(quote.spread / 2.0 / quote.midPrice * 10000.0, 2)
  }

  function SpreadCost(quote: VenueQuote): real { if quote.venueType.Dark? then 0.0 else HalfSpreadBps(quote) }

  function Impact(policy: BestExecutionPolicy, participation: real): real {
    RoundedProduct(policy.impactCoefficientBps, Min(participation, 1.0), 2)
  }

  /** The share of the mid an order pays or receives after costs. */
  function PriceFactor(side: OrderSide, totalBps: real): real {
    if side.Buy? then 1.0 + totalBps / 10000.0 else 1.0 - totalBps / 10000.0
  }

  function ProjectedPrice(side: OrderSide, mid: real, totalBps: real): real {
    RoundedProduct(mid, PriceFactor(side, totalBps), 4)
  }

  function ProjectedCostUsd(order: OrderIntent, totalBps: real): real {
    Round(totalBps / 10000.0 * order.arrivalMidPrice * order.quantity as real, 2)
  }

  function Cost(order: OrderIntent, quote: VenueQuote, policy: BestExecutionPolicy): CostBreakdown {
    var p := Participation(order.quantity, quote.displayedLiquidity);
    var total := SpreadCost(quote) + Impact(policy, p) + quote.feeBps;
    CostBreakdown(p, SpreadCost(quote), Impact(policy, p), quote.feeBps,
                  ProjectedPrice(order.side, quote.midPrice, total), ProjectedCostUsd(order, total))
  }

  function SpreadBps(quote: VenueQuote): real {
    if quote.midPrice == 0.0 then 0.0 else Round(quote.spread / quote.midPrice * 10000.0, 2)
  }

  predicate ThroughLimit(order: OrderIntent, price: real) {
    if order.side.Buy? then price > order.limitPrice else price < order.limitPrice
  }

  /** The boundary is breached at this venue. */
  predicate Breaks(order: OrderIntent, quote: VenueQuote, policy: BestExecutionPolicy, boundary: PolicyBoundary) {
    match boundary
    case VenueNotApproved => quote.venueCode !in policy.approvedVenues
    case DarkPoolMinimumSize => quote.venueType.Dark? && order.quantity < policy.darkPoolMinimumQuantity
    case ParticipationRateExceeded => Cost(order, quote, policy).participationRate > policy.maxParticipationRate
    case SpreadToleranceExceeded => SpreadBps(quote) > policy.maxSpreadBps
    case LimitPriceBreached => ThroughLimit(order, Cost(order, quote, policy).projectedPrice)
    case NotionalCeilingExceeded => false
  }

  function When(c: bool, b: PolicyBoundary): seq<PolicyBoundary> { if c then [b] else [] }

  /** The boundaries broken at a venue, in the order they are assessed. */
  function Broken(order: OrderIntent, quote: VenueQuote, policy: BestExecutionPolicy): seq<PolicyBoundary> {
    When(Breaks(order, quote, policy, VenueNotApproved), VenueNotApproved)
    + When(Breaks(order, quote, policy, DarkPoolMinimumSize), DarkPoolMinimumSize)
    + When(Breaks(order, quote, policy, ParticipationRateExceeded), ParticipationRateExceeded)
    + When(Breaks(order, quote, policy, SpreadToleranceExceeded), SpreadToleranceExceeded)
    + When(Breaks(order, quote, policy, LimitPriceBreached), LimitPriceBreached)
  }

  function At(code: string, boundaries: seq<PolicyBoundary>): (r: seq<PolicyBreach>)
    ensures |r| == |boundaries|
  {
    seq(|boundaries|, i requires 0 <= i < |boundaries| => PolicyBreach(boundaries[i], Some(code)))
  }

  function Evaluation(order: OrderIntent, quote: VenueQuote, policy: BestExecutionPolicy): VenueEvaluation {
    VenueEvaluation(quote, Cost(order, quote, policy), At(quote.venueCode, Broken(order, quote, policy)))
  }

  function OrderBreaches(order: OrderIntent, policy: BestExecutionPolicy): seq<PolicyBreach> {
    if order.NotionalUsd() > policy.maxNotionalUsd then [PolicyBreach(NotionalCeilingExceeded, None)] else []
  }

  // ---- What the figures measure ----

  predicate Near(x: real, y: real, tolerance: real) { y - tolerance <= x <= y + tolerance }

  /** The share of the displayed liquidity, or the sentinel at a venue that shows none. */
  ghost predicate IsParticipation(p: real, quantity: int, liquidity: int) {
    if liquidity <= 0 then p == 79228162514264337593543.950335
    else Near(p, quantity as real / liquidity as real, 0.0000005)
  }

  /** Half the spread over the mid at a lit venue, nothing at a dark one. */
  ghost predicate IsSpreadCost(bps: real, quote: VenueQuote) {
    if quote.venueType.Dark? || quote.midPrice == 0.0 then bps == 0.0
    else Near(bps, 5000.0 * quote.spread / quote.midPrice, 0.005)
  }

  /** The coefficient times the participation, up to all of the liquidity. */
  ghost predicate IsImpact(bps: real, coefficient: real, p: real) {
    Near(bps, coefficient * (if p <= 1.0 then p else 1.0), 0.005)
  }

  /** The mid moved against the order by the total. */
  ghost predicate IsPrice(price: real, side: OrderSide, mid: real, total: real) {
    Near(price, mid * (1.0 + (if side.Buy? then total else -total) / 10000.0), 0.00005)
  }

  /** The total charged on the order's arrival value. */
  ghost predicate IsCostUsd(usd: real, total: real, arrivalMid: real, quantity: int) {
    Near(usd, total / 10000.0 * arrivalMid * quantity as real, 0.005)
  }

  /** The breakdown in the order's and the quote's own terms, each figure within half a unit in its last place. */
  ghost predicate Measures(cost: CostBreakdown, order: OrderIntent, quote: VenueQuote, policy: BestExecutionPolicy) {
    && cost.feeBps == quote.feeBps
    && IsParticipation(cost.participationRate, order.quantity, quote.displayedLiquidity)
    && IsSpreadCost(cost.spreadCostBps, quote)
    && IsImpact(cost.impactBps, policy.impactCoefficientBps, cost.participationRate)
    && IsPrice(cost.projectedPrice, order.side, quote.midPrice, cost.spreadCostBps + cost.impactBps + cost.feeBps)
    && IsCostUsd(cost.projectedCostUsd, cost.spreadCostBps + cost.impactBps + cost.feeBps, order.arrivalMidPrice,
                 order.quantity)
  }

  lemma SpreadInBps(spread: real, mid: real)
    requires mid != 0.0
    ensures spread / 2.0 / mid * 10000.0 == 5000.0 * spread / mid
    ensures spread / mid * 10000.0 == 10000.0 * spread / mid
  {
    var q := spread / mid;
    assert q * mid == spread;
    assert spread / 2.0 / mid == q / 2.0;
    assert (5000.0 * q) * mid == 5000.0 * spread;
    assert (10000.0 * q) * mid == 10000.0 * spread;
  }

  lemma SpreadMeasures(quote: VenueQuote)
    requires quote.midPrice != 0.0
    ensures Near(HalfSpreadBps(quote), 5000.0 * quote.spread / quote.midPrice, 0.005)
    ensures Near(SpreadBps(quote), 10000.0 * quote.spread / quote.midPrice, 0.005)
  {
    SpreadInBps(quote.spread, quote.midPrice);
    RoundNearPlaces(5000.0 * quote.spread / quote.midPrice);
    RoundNearPlaces(10000.0 * quote.spread / quote.midPrice);
  }

  lemma ParticipationMeasures(quantity: int, liquidity: int)
    ensures IsParticipation(Participation(quantity, liquidity), quantity, liquidity)
  {
    if liquidity > 0 { RoundNearPlaces(quantity as real / liquidity as real); }
  }

  lemma SpreadCostMeasures(quote: VenueQuote)
    ensures IsSpreadCost(SpreadCost(quote), quote)
  {
    if quote.midPrice != 0.0 { SpreadMeasures(quote); }
  }

  lemma RoundedNear(x: real, exact: real)
    requires x == exact
    ensures Near(Round(x, 2), exact, 0.005) && Near(Round(x, 4), exact, 0.00005)
  {
    RoundNearPlaces(x);
  }

  /** A rounded product, seen only through what it is near to. */
  lemma ProductNear(k: real, x: real) returns (cents: real, fine: real)
    ensures cents == RoundedProduct(k, x, 2) && Near(cents, k * x, 0.005)
    ensures fine == RoundedProduct(k, x, 4) && Near(fine, k * x, 0.00005)
  {
    cents, fine := RoundedProduct(k, x, 2), RoundedProduct(k, x, 4);
    var product := k * x;
    RoundedNear(product, product);
  }

  lemma ImpactFrom(bps: real, coefficient: real, p: real, capped: real)
    requires capped == (if p <= 1.0 then p else 1.0) && Near(bps, coefficient * capped, 0.005)
    ensures IsImpact(bps, coefficient, p)
  {
  }

  lemma ImpactMeasures(policy: BestExecutionPolicy, p: real)
    ensures IsImpact(Impact(policy, p), policy.impactCoefficientBps, p)
  {
    var bps, _ := ProductNear(policy.impactCoefficientBps, Min(p, 1.0));
    ImpactFrom(bps, policy.impactCoefficientBps, p, Min(p, 1.0));
  }

  lemma PriceFrom(price: real, side: OrderSide, mid: real, total: real, factor: real)
    requires factor == 1.0 + (if side.Buy? then total else -total) / 10000.0 && Near(price, mid * factor, 0.00005)
    ensures IsPrice(price, side, mid, total)
  {
  }

  lemma PriceMeasures(side: OrderSide, mid: real, total: real)
    ensures IsPrice(ProjectedPrice(side, mid, total), side, mid, total)
  {
    var _, price := ProductNear(mid, PriceFactor(side, total));
    FactorIs(side, total);
    PriceFrom(price, side, mid, total, PriceFactor(side, total));
  }

  lemma FactorIs(side: OrderSide, total: real)
    ensures PriceFactor(side, total) == 1.0 + (if side.Buy? then total else -total) / 10000.0
  {
  }

  lemma CostUsdMeasures(order: OrderIntent, total: real)
    ensures IsCostUsd(ProjectedCostUsd(order, total), total, order.arrivalMidPrice, order.quantity)
  {
    var exact := total / 10000.0 * order.arrivalMidPrice * order.quantity as real;
    RoundedNear(exact, exact);
  }

  lemma CostMeasures(order: OrderIntent, quote: VenueQuote, policy: BestExecutionPolicy)
    ensures Measures(Cost(order, quote, policy), order, quote, policy)
  {
    var p := Participation(order.quantity, quote.displayedLiquidity);
    var total := SpreadCost(quote) + Impact(policy, p) + quote.feeBps;
    ParticipationMeasures(order.quantity, quote.displayedLiquidity);
    SpreadCostMeasures(quote);
    ImpactMeasures(policy, p);
    PriceMeasures(order.side, quote.midPrice, total);
    CostUsdMeasures(order, total);
  }

  /**
   The breaches listed at a venue, boundary by boundary. The spread is compared after rounding, so it decides to within
   half a hundredth of a basis point.
   */
  ghost predicate ListsBreaches(
    e: VenueEvaluation, order: OrderIntent, quote: VenueQuote, policy: BestExecutionPolicy)
  {
    var code := Some(quote.venueCode);
    && (forall b :: b in e.breaches ==> b.venueCode == code && b.boundary != NotionalCeilingExceeded)
    && (PolicyBreach(VenueNotApproved, code) in e.breaches <==> quote.venueCode !in policy.approvedVenues)
    && (PolicyBreach(DarkPoolMinimumSize, code) in e.breaches <==>
          quote.venueType.Dark? && order.quantity < policy.darkPoolMinimumQuantity)
    && (PolicyBreach(ParticipationRateExceeded, code) in e.breaches <==>
          e.cost.participationRate > policy.maxParticipationRate)
    && (PolicyBreach(LimitPriceBreached, code) in e.breaches <==>
          (order.side.Buy? && e.cost.projectedPrice > order.limitPrice)
          || (order.side.Sell? && e.cost.projectedPrice < order.limitPrice))
    && (quote.midPrice == 0.0 ==>
          (PolicyBreach(SpreadToleranceExceeded, code) in e.breaches <==> 0.0 > policy.maxSpreadBps))
    && (quote.midPrice != 0.0 && PolicyBreach(SpreadToleranceExceeded, code) in e.breaches ==>
          10000.0 * quote.spread / quote.midPrice > policy.maxSpreadBps - 0.005)
    && (quote.midPrice != 0.0 && PolicyBreach(SpreadToleranceExceeded, code) !in e.breaches ==>
          10000.0 * quote.spread / quote.midPrice <= policy.maxSpreadBps + 0.005)
  }

  lemma BrokenAre(order: OrderIntent, quote: VenueQuote, policy: BestExecutionPolicy, b: PolicyBoundary)
    ensures b in Broken(order, quote, policy) <==> Breaks(order, quote, policy, b)
  {
  }

  lemma AtHolds(code: string, boundaries: seq<PolicyBoundary>, b: PolicyBoundary)
    ensures PolicyBreach(b, Some(code)) in At(code, boundaries) <==> b in boundaries
    ensures forall x :: x in At(code, boundaries) ==> x.venueCode == Some(code) && x.boundary in boundaries
  {
    if b in boundaries {
      var i :| 0 <= i < |boundaries| && boundaries[i] == b;
      assert At(code, boundaries)[i] == PolicyBreach(b, Some(code));
    }
  }

  lemma BreachListedIff(order: OrderIntent, quote: VenueQuote, policy: BestExecutionPolicy, b: PolicyBoundary)
    ensures PolicyBreach(b, Some(quote.venueCode)) in Evaluation(order, quote, policy).breaches
       <==> Breaks(order, quote, policy, b)
  {
    BrokenAre(order, quote, policy, b);
    AtHolds(quote.venueCode, Broken(order, quote, policy), b);
  }

  lemma BreachesAreListed(order: OrderIntent, quote: VenueQuote, policy: BestExecutionPolicy)
    ensures ListsBreaches(Evaluation(order, quote, policy), order, quote, policy)
  {
    AtHolds(quote.venueCode, Broken(order, quote, policy), VenueNotApproved);
    BrokenAre(order, quote, policy, NotionalCeilingExceeded);
    BreachListedIff(order, quote, policy, VenueNotApproved);
    BreachListedIff(order, quote, policy, DarkPoolMinimumSize);
    BreachListedIff(order, quote, policy, ParticipationRateExceeded);
    BreachListedIff(order, quote, policy, SpreadToleranceExceeded);
    BreachListedIff(order, quote, policy, LimitPriceBreached);
    if quote.midPrice != 0.0 { SpreadMeasures(quote); }
  }

  // ---- The evaluator as it is written ----

  method ComputeCost(order: OrderIntent, quote: VenueQuote, policy: BestExecutionPolicy) returns (cost: CostBreakdown)
    ensures cost == Cost(order, quote, policy)
    ensures Measures(cost, order, quote, policy)
  {
    CostMeasures(order, quote, policy);
    var participation := Participation(order.quantity, quote.displayedLiquidity);
    var spreadCostBps := HalfSpreadBps(quote);
    if quote.venueType.Dark? { spreadCostBps := 0.0; }
    var impactBps := Impact(policy, participation);
    var totalBps := spreadCostBps + impactBps + quote.feeBps;
    cost := CostBreakdown(participation, spreadCostBps, impactBps, quote.feeBps,
                          ProjectedPrice(order.side, quote.midPrice, totalBps), ProjectedCostUsd(order, totalBps));
  }

  method EvaluateVenue(order: OrderIntent, quote: VenueQuote, policy: BestExecutionPolicy) returns (e: VenueEvaluation)
    ensures e == Evaluation(order, quote, policy)
    ensures e.quote == quote && Measures(e.cost, order, quote, policy) && ListsBreaches(e, order, quote, policy)
  {
    var cost := ComputeCost(order, quote, policy);
    var boundaries: seq<PolicyBoundary> := [];
    if quote.venueCode !in policy.approvedVenues { boundaries := boundaries + [VenueNotApproved]; }
    ghost var with1 := boundaries;
    assert with1 == When(Breaks(order, quote, policy, VenueNotApproved), VenueNotApproved);
    if quote.venueType.Dark?
        && order.quantity < policy.darkPoolMinimumQuantity { boundaries := boundaries + [DarkPoolMinimumSize]; }
    ghost var with2 := boundaries;
    assert with2 == with1 + When(Breaks(order, quote, policy, DarkPoolMinimumSize), DarkPoolMinimumSize);
    if cost.participationRate > policy.maxParticipationRate { boundaries := boundaries + [ParticipationRateExceeded]; }
    ghost var with3 := boundaries;
    assert with3 == with2 + When(Breaks(order, quote, policy, ParticipationRateExceeded), ParticipationRateExceeded);
    var spreadBps := SpreadBps(quote);
    if spreadBps > policy.maxSpreadBps { boundaries := boundaries + [SpreadToleranceExceeded]; }
    ghost var with4 := boundaries;
    assert with4 == with3 + When(Breaks(order, quote, policy, SpreadToleranceExceeded), SpreadToleranceExceeded);
    var throughLimit := if order.side.Buy? then cost.projectedPrice > order.limitPrice
        else cost.projectedPrice < order.limitPrice;
    if throughLimit { boundaries := boundaries + [LimitPriceBreached]; }
    assert boundaries == with4 + When(Breaks(order, quote, policy, LimitPriceBreached), LimitPriceBreached);
    e := VenueEvaluation(quote, cost, At(quote.venueCode, boundaries));
    BreachesAreListed(order, quote, policy);
  }

  method EvaluateOrder(order: OrderIntent, policy: BestExecutionPolicy) returns (breaches: seq<PolicyBreach>)
    ensures breaches == OrderBreaches(order, policy)
    ensures breaches != [] <==> order.NotionalUsd() > policy.maxNotionalUsd
    ensures forall b :: b in breaches ==> b.boundary == NotionalCeilingExceeded && b.venueCode.None?
  {
    breaches := [];
    if order.NotionalUsd() > policy.maxNotionalUsd { breaches :=
        breaches + [PolicyBreach(NotionalCeilingExceeded, None)]; }
  }

  // ---- Cost follows size and liquidity through every rounding step ----

  lemma ParticipationGrowsWithQuantity(q: int, r: int, liquidity: int)
    requires q <= r
    ensures Participation(q, liquidity) <= Participation(r, liquidity)
  {
    if liquidity > 0 {
      DivideMonotone(q as real, r as real, liquidity as real);
      RoundMonotone(q as real / liquidity as real, r as real / liquidity as real, 6);
    }
  }

  lemma QuotientShrinks(q: real, l: real, m: real)
    requires q >= 0.0 && 0.0 < l <= m
    ensures q / m <= q / l
  {
    assert (q / l) * l == q && (q / m) * m == q;
    var x, y := q / l, q / m;
    assert y >= 0.0 by { DivideMonotone(0.0, q, m); }
    assert y * l <= y * m by { ScaleMonotone(l, m, y); }
    assert y * l <= x * l;
    DivideMonotone(y * l, x * l, l);
  }

  /** The capped participation that enters the impact falls as liquidity grows, the empty venue included. */
  lemma ParticipationFallsWithLiquidity(q: int, l: int, m: int)
    requires q >= 0 && l <= m
    ensures Min(Participation(q, m), 1.0) <= Min(Participation(q, l), 1.0)
  {
    if l > 0 {
      QuotientShrinks(q as real, l as real, m as real);
      RoundMonotone(q as real / m as real, q as real / l as real, 6);
    }
  }

  lemma ImpactMonotone(policy: BestExecutionPolicy, p: real, r: real)
    requires policy.impactCoefficientBps >= 0.0 && Min(p, 1.0) <= Min(r, 1.0)
    ensures Impact(policy, p) <= Impact(policy, r)
  {
    RoundedProductMonotone(policy.impactCoefficientBps, Min(p, 1.0), Min(r, 1.0), 2);
  }

  /** Total cost never falls as the order grows. */
  lemma CostGrowsWithQuantity(order: OrderIntent, larger: int, quote: VenueQuote, policy: BestExecutionPolicy)
    requires order.quantity <= larger && policy.impactCoefficientBps >= 0.0
    ensures Cost(order, quote, policy).TotalCostBps() <= Cost(order.(quantity := larger), quote, policy).TotalCostBps()
  {
    ParticipationGrowsWithQuantity(order.quantity, larger, quote.displayedLiquidity);
    ImpactMonotone(policy, Participation(order.quantity, quote.displayedLiquidity),
        Participation(larger, quote.displayedLiquidity));
  }

  /** Total cost never rises as displayed liquidity grows, from an empty venue upwards. */
  lemma CostFallsWithLiquidity(order: OrderIntent, quote: VenueQuote, deeper: int, policy: BestExecutionPolicy)
    requires order.quantity >= 0 && quote.displayedLiquidity <= deeper && policy.impactCoefficientBps >= 0.0
    ensures Cost(order, quote.(displayedLiquidity := deeper), policy).TotalCostBps() <= Cost(order, quote,
            policy).TotalCostBps()
  {
    ParticipationFallsWithLiquidity(order.quantity, quote.displayedLiquidity, deeper);
    ImpactMonotone(policy, Participation(order.quantity, deeper),
        Participation(order.quantity, quote.displayedLiquidity));
  }

  /** A dearer total moves the projected price against the order. */
  lemma PriceFollowsCost(side: OrderSide, mid: real, t: real, u: real)
    requires mid >= 0.0 && t <= u
    ensures side.Buy? ==> ProjectedPrice(side, mid, t) <= ProjectedPrice(side, mid, u)
    ensures side.Sell? ==> ProjectedPrice(side, mid, t) >= ProjectedPrice(side, mid, u)
  {
    if side.Buy? {
      RoundedProductMonotone(mid, PriceFactor(side, t), PriceFactor(side, u), 4);
    } else {
      RoundedProductMonotone(mid, PriceFactor(side, u), PriceFactor(side, t), 4);
    }
  }

  /** A venue is eligible exactly when it breaks no boundary. */
  lemma EligibleIff(order: OrderIntent, quote: VenueQuote, policy: BestExecutionPolicy)
    ensures Evaluation(order, quote, policy).IsEligible() <==> forall b: PolicyBoundary ::
            !Breaks(order, quote, policy, b)
  {
    assert Evaluation(order, quote, policy).IsEligible() <==> |Broken(order, quote, policy)| == 0;
  }

  /**
   A venue eligible for an order is eligible for every smaller one, except that a dark venue also
   keeps its block-size floor.
   */
  lemma EligibleForSmaller(order: OrderIntent, smaller: int, quote: VenueQuote, policy: BestExecutionPolicy)
    requires smaller <= order.quantity && quote.midPrice >= 0.0 && policy.impactCoefficientBps >= 0.0
    requires Evaluation(order, quote, policy).IsEligible()
    ensures Evaluation(order.(quantity := smaller), quote, policy).IsEligible()
       <==> quote.venueType.Lit? || smaller >= policy.darkPoolMinimumQuantity
  {
    var less := order.(quantity := smaller);
    EligibleIff(order, quote, policy);
    EligibleIff(less, quote, policy);
    CostGrowsWithQuantity(less, order.quantity, quote, policy);
    assert less.(quantity := order.quantity) == order;
    ParticipationGrowsWithQuantity(smaller, order.quantity, quote.displayedLiquidity);
    PriceFollowsCost(order.side, quote.midPrice, Cost(less, quote, policy).TotalCostBps(),
        Cost(order, quote, policy).TotalCostBps());
    assert !Breaks(order, quote, policy, ParticipationRateExceeded)
        && !Breaks(order, quote, policy, LimitPriceBreached);
    assert !Breaks(order, quote, policy, VenueNotApproved) && !Breaks(order, quote, policy, SpreadToleranceExceeded);
    assert Breaks(less, quote, policy, DarkPoolMinimumSize)
        <==> quote.venueType.Dark? && smaller < policy.darkPoolMinimumQuantity;
  }
}
