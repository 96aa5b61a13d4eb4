/**
 Propose and execute requests against the proposal store: the handlers as written, and the same
 handlers with every store access a step of its own under arbitrary interleaving.
 */
module OrderProtocol {
  import opened Prelude
  import opened Platform
  import opened BestExecution
  import opened RoutePlanning
  import opened Runs
  import Oms = SimulatedOms

  // ---- Requests ----

  datatype ProposeRequest = ProposeRequest(
    orderId: string, symbol: string, side: OrderSide, quantity: int, arrivalMidPrice: real,
    limitPrice: Option<real>, quotes: Option<seq<VenueQuote>>)

  datatype ApprovalDto = ApprovalDto(approvalId: string, approvedBy: string, approvedAt: int, expiresAt: int)

  datatype ExecuteRequest = ExecuteRequest(proposalId: string, correlationId: string, approval: Option<ApprovalDto>)

  datatype RequestError =
    OrderIdRequired | SymbolRequired | QuantityNotPositive | ArrivalPriceNotPositive | QuotesRequired

  predicate Wrong(host: Host, r: ProposeRequest, e: RequestError) {
    match e
    case OrderIdRequired => IsBlank(host, r.orderId)
    case SymbolRequired => IsBlank(host, r.symbol)
    case QuantityNotPositive => r.quantity <= 0
    case ArrivalPriceNotPositive => r.arrivalMidPrice <= 0.0
    case QuotesRequired => r.quotes.None? || r.quotes.value == []
  }

  method Validate(host: Host, r: ProposeRequest) returns (errors: seq<RequestError>)
    ensures forall e: RequestError :: e in errors <==> Wrong(host, r, e)
    ensures Distinct(errors)
  {
    errors := [];
    if IsBlank(host, r.orderId) { errors := errors + [OrderIdRequired]; }
    if IsBlank(host, r.symbol) { errors := errors + [SymbolRequired]; }
    if r.quantity <= 0 { errors := errors + [QuantityNotPositive]; }
    if r.arrivalMidPrice <= 0.0 { errors := errors + [ArrivalPriceNotPositive]; }
    if r.quotes.None? || r.quotes.value == [] { errors := errors + [QuotesRequired]; }
  }

  predicate IsValid(host: Host, r: ProposeRequest) {
    !Wrong(host, r, OrderIdRequired) && !Wrong(host, r, SymbolRequired) && !Wrong(host, r, QuantityNotPositive)
    && !Wrong(host, r, ArrivalPriceNotPositive) && !Wrong(host, r, QuotesRequired)
  }

  function Intent(r: ProposeRequest, correlationId: string): OrderIntent {
    OrderIntent(r.orderId, correlationId, r.symbol, r.side, r.quantity,
                if r.limitPrice.Some? then r.limitPrice.value else 0.0, r.arrivalMidPrice)
  }

  /** The proposal a request leads to, or the status that answers it. */
  function Routed(
    host: Host, request: Option<ProposeRequest>, adopted: bool, correlationId: string,
    caller: Option<string>): Result<RouteProposal, nat> {
    if request.None? then Err(400)
    else if !adopted then Err(400)
    else if !IsValid(host, request.value) then Err(400)
    else
      var proposedBy := if caller.Some? then caller.value else "anonymous-development-caller";
      match Plan(host, Intent(request.value, correlationId), request.value.quotes.value, DEFAULT_POLICY, proposedBy,
          None)
      case Err(_) => Err(500)
      case Ok(Halted(_, _)) => Err(422)
      case Ok(Proposed(p, _)) => Ok(p)
  }

  /** The authority a request presents: the token's identity, or off-platform the one in the body. */
  function Presented(host: Host, r: ExecuteRequest, caller: Option<string>): Option<Oms.ExecutionAuthorization> {
    if r.approval.None? then None else
      var d := r.approval.value;
      var approvedBy := if caller.Some? then caller.value else d.approvedBy;
      if IsBlank(host, approvedBy) then None
      else Some(Oms.ExecutionAuthorization(d.approvalId, r.proposalId, r.correlationId, approvedBy, d.approvedAt,
          d.expiresAt))
  }

  /** The request as the planner sees it, the missing limit as zero. */
  ghost predicate AsksFor(order: OrderIntent, r: ProposeRequest, correlationId: string) {
    && order.orderId == r.orderId && order.correlationId == correlationId && order.symbol == r.symbol
    && order.side == r.side && order.quantity == r.quantity && order.arrivalMidPrice == r.arrivalMidPrice
    && (r.limitPrice.Some? ==> order.limitPrice == r.limitPrice.value)
    && (r.limitPrice.None? ==> order.limitPrice == 0.0)
  }

  /** A request that can be planned at all. */
  ghost predicate WellFormed(host: Host, r: ProposeRequest) {
    && !IsBlank(host, r.orderId) && !IsBlank(host, r.symbol) && r.quantity > 0 && r.arrivalMidPrice > 0.0
    && r.quotes.Some? && r.quotes.value != []
  }

  function ProposerOf(caller: Option<string>): string {
    if caller.Some? then caller.value else "anonymous-development-caller"
  }

  /** A proposal for the order, at the best of its quotes. */
  ghost predicate ProposesBest(p: RouteProposal, order: OrderIntent, quotes: seq<VenueQuote>, proposer: string) {
    && p.proposalId == "prop-" + order.orderId && p.orderId == order.orderId
    && p.correlationId == order.correlationId && p.quantity == order.quantity && p.proposedBy == proposer
    && exists q :: && BestOf(order, quotes, DEFAULT_POLICY, q) && p.venueCode == q.venueCode
                   && p.cost == Cost(order, q, DEFAULT_POLICY)
  }

  lemma PlanProposesBest(host: Host, order: OrderIntent, quotes: seq<VenueQuote>, proposer: string)
    requires !IsBlank(host, proposer)
    requires Plan(host, order, quotes, DEFAULT_POLICY, proposer, None).value.Proposed?
    ensures ProposesBest(Plan(host, order, quotes, DEFAULT_POLICY, proposer, None).value.proposal, order, quotes,
                         proposer)
  {
    var q := PlanPicksBest(host, order, quotes, DEFAULT_POLICY, proposer, None);
  }

  /** What becomes of a well formed request under a correlation id it adopted. */
  lemma RoutedByPlan(host: Host, r: ProposeRequest, correlationId: string, caller: Option<string>)
    requires WellFormed(host, r)
    ensures var routed := Routed(host, Some(r), true, correlationId, caller);
            var plan := Plan(host, Intent(r, correlationId), r.quotes.value, DEFAULT_POLICY, ProposerOf(caller), None);
            && (plan.Err? <==> IsBlank(host, ProposerOf(caller)))
            && (plan.Err? ==> routed == Err(500))
            && (plan.Ok? && plan.value.Halted? ==> routed == Err(422))
            && (plan.Ok? && plan.value.Proposed? ==> routed == Ok(plan.value.proposal))
  {
  }

  lemma Turned(
    host: Host, request: Option<ProposeRequest>, adopted: bool, correlationId: string, caller: Option<string>)
    ensures Routed(host, request, adopted, correlationId, caller) == Err(400)
       <==> !(request.Some? && adopted && WellFormed(host, request.value))
  {
    if request.Some? && WellFormed(host, request.value) {
      RoutedByPlan(host, request.value, correlationId, caller);
    }
  }

  /**
   How a propose request is answered: 400 unless it is well formed under a correlation id it adopted; 500 for a caller
   with a blank name; 422 when the order is too large or no quote is eligible; and otherwise with a proposal for the
   order asked for, at the best of its quotes.
   */
  lemma RoutedSays(
    host: Host, request: Option<ProposeRequest>, adopted: bool, correlationId: string, caller: Option<string>)
    ensures var routed := Routed(host, request, adopted, correlationId, caller);
            routed == Err(400) <==> !(request.Some? && adopted && WellFormed(host, request.value))
    ensures request.Some? && adopted && WellFormed(host, request.value) ==>
              var routed := Routed(host, request, adopted, correlationId, caller);
              var order, quotes := Intent(request.value, correlationId), request.value.quotes.value;
              var routable := order.NotionalUsd() <= DEFAULT_POLICY.maxNotionalUsd && exists q ::
                  q in quotes && Evaluation(order, q, DEFAULT_POLICY).IsEligible();
              && AsksFor(order, request.value, correlationId)
              && (routed == Err(500) <==> IsBlank(host, ProposerOf(caller)))
              && (routed == Err(422) <==> !IsBlank(host, ProposerOf(caller)) && !routable)
              && (routed.Ok? <==> !IsBlank(host, ProposerOf(caller)) && routable)
              && (routed.Ok? ==> ProposesBest(routed.value, order, quotes, ProposerOf(caller)))
  {
    Turned(host, request, adopted, correlationId, caller);
    if request.Some? && adopted && WellFormed(host, request.value) {
      RoutedByPlan(host, request.value, correlationId, caller);
      var order, quotes := Intent(request.value, correlationId), request.value.quotes.value;
      if !IsBlank(host, ProposerOf(caller)) {
        PlanProposesIff(host, order, quotes, DEFAULT_POLICY, ProposerOf(caller), None);
        if Plan(host, order, quotes, DEFAULT_POLICY, ProposerOf(caller), None).value.Proposed? {
          PlanProposesBest(host, order, quotes, ProposerOf(caller));
        }
      }
    }
  }

  // ---- The store and the handlers as they are written ----

  /** What the proposal store holds. */
  datatype Shelf = Shelf(proposals: map<string, RouteProposal>, executed: set<string>) {
    function Save(p: RouteProposal): Shelf { this.(proposals := proposals[p.proposalId := p]) }
    function Mark(id: string): Shelf { this.(executed := executed + {id}) }
  }

  class InMemoryProposalStore {
    var proposals: map<string, RouteProposal>
    var executed: set<string>

    ghost function Value(): Shelf
      reads this
    {
      Shelf(proposals, executed)
    }

    constructor ()
      ensures Value() == Shelf(map[], {})
    {
      proposals, executed := map[], {};
    }

    method Save(p: RouteProposal)
      modifies this
      ensures Value() == old(Value()).Save(p)
    {
      proposals := proposals[p.proposalId := p];
    }

    method Find(id: string) returns (p: Option<RouteProposal>)
      ensures p == if id in proposals then Some(proposals[id]) else None
    {
      if id in proposals { p := Some(proposals[id]); } else { p := None; }
    }

    /** True the first time an id is marked, false ever after. */
    method TryMarkExecuted(id: string) returns (first: bool)
      modifies this
      ensures first == (id !in old(executed))
      ensures Value() == old(Value()).Mark(id)
    {
      first := id !in executed;
      executed := executed + {id};
    }
  }

  datatype ExecuteAnswer = Filled(execution: Oms.SimulatedExecution) | Answered(status: nat)

  /** One execute request served without interruption. */
  function Serve(
    host: Host, s: Shelf, request: Option<ExecuteRequest>, caller: Option<string>, now: int): (Shelf, ExecuteAnswer) {
    if request.None? then (s, Answered(400))
    else if request.value.proposalId !in s.proposals then (s, Answered(404))
    else
      match Oms.Execute(host, s.proposals[request.value.proposalId], Presented(host, request.value, caller), now)
      case Err(_) => (s, Answered(403))
      case Ok(execution) =>
        if request.value.proposalId in s.executed then (s, Answered(409))
        else (s.Mark(request.value.proposalId), Filled(execution))
  }

  /**
   How an execute request is answered: 404 for a proposal the store does not hold; 403 when the approval it presents
   does
   not stand; 409 for one executed already; and otherwise it is filled, and only then marked. Who approved is the caller
   when there is one, and off-platform whoever the request names.
   */
  lemma ServeSays(host: Host, s: Shelf, r: ExecuteRequest, caller: Option<string>, now: int)
    requires r.proposalId in s.proposals ==> s.proposals[r.proposalId].proposalId == r.proposalId
    ensures Serve(host, s, None, caller, now) == (s, Answered(400))
    ensures var (t, answer) := Serve(host, s, Some(r), caller, now);
            var held := r.proposalId in s.proposals;
            var approver := if caller.Some? then caller else if r.approval.Some? then Some(r.approval.value.approvedBy)
                else None;
            var stands := && held && r.approval.Some? && !IsBlank(host, approver.value)
                          && r.correlationId == s.proposals[r.proposalId].correlationId
                          && now < r.approval.value.expiresAt
                          && !EqualsIgnoreCase(host, approver.value, s.proposals[r.proposalId].proposedBy);
            && (answer == Answered(404) <==> !held)
            && (answer == Answered(403) <==> held && !stands)
            && (answer == Answered(409) <==> stands && r.proposalId in s.executed)
            && (answer.Filled? <==> stands && r.proposalId !in s.executed)
            && t.proposals == s.proposals
            && t.executed == (if answer.Filled? then s.executed + {r.proposalId} else s.executed)
            && (answer.Filled? ==>
                  && answer.execution.proposalId == r.proposalId && answer.execution.executedAt == now
                  && answer.execution.approvalId == r.approval.value.approvalId)
  {
    if r.proposalId in s.proposals && Presented(host, r, caller).Some? {
      Oms.FilledIffNoRuleBroken(host, s.proposals[r.proposalId], Presented(host, r, caller).value, now);
    }
  }

  method ProposeAsync(
    host: Host, store: InMemoryProposalStore, request: Option<ProposeRequest>, adopted: bool, correlationId: string,
    caller: Option<string>)
    returns (status: nat)
    modifies store
    ensures match Routed(host, request, adopted, correlationId, caller)
            case Err(s) => status == s && store.Value() == old(store.Value())
            case Ok(p) => status == 201 && store.Value() == old(store.Value()).Save(p)
  {
    if request.None? { return 400; }
    if !adopted { return 400; }
    var errors := Validate(host, request.value);
    if |errors| > 0 {
      assert errors[0] in errors;
      return 400;
    }
    assert errors == [] && IsValid(host, request.value);
    var proposedBy := if caller.Some? then caller.value else "anonymous-development-caller";
    var order := Intent(request.value, correlationId);
    var outcome := PlanRoute(host, order, request.value.quotes.value, DEFAULT_POLICY, proposedBy, None);
    if outcome.Err? { return 500; }
    if outcome.value.Halted? { return 422; }
    store.Save(outcome.value.proposal);
    return 201;
  }

  method ExecuteAsync(
    host: Host, store: InMemoryProposalStore, request: Option<ExecuteRequest>, caller: Option<string>, now: int)
    returns (answer: ExecuteAnswer)
    modifies store
    ensures (store.Value(), answer) == Serve(host, old(store.Value()), request, caller, now)
  {
    if request.None? { return Answered(400); }
    var proposal := store.Find(request.value.proposalId);
    if proposal.None? { return Answered(404); }
    var authorization := Presented(host, request.value, caller);
    var result := Oms.Execute(host, proposal.value, authorization, now);
    if result.Err? { return Answered(403); }
    var first := store.TryMarkExecuted(request.value.proposalId);
    if !first {
      assert store.Value() == old(store.Value()) by {
        assert store.executed == old(store.executed);
      }
      return Answered(409);
    }
    return Filled(result.value);
  }

  // ---- Interleaved steps ----

  /** A fill together with the proposal and the authority it was made from. */
  datatype Fill = Fill(execution: Oms.SimulatedExecution, proposal: RouteProposal,
      authority: Oms.ExecutionAuthorization)

  datatype Progress =
    | Found(proposal: RouteProposal, request: ExecuteRequest, caller: Option<string>)
    | Cleared(id: string, fill: Fill)

  /** `saved` and `fills` record what was ever saved and ever filled, in addition to the store. */
  datatype State = State(shelf: Shelf, saved: set<RouteProposal>, fills: seq<Fill>, handlers: map<nat, Progress>)

  const START := State(Shelf(map[], {}), {}, [], map[])

  datatype Action =
    | Propose(request: Option<ProposeRequest>, adopted: bool, correlationId: string, caller: Option<string>)
    | Find(h: nat, execute: ExecuteRequest, caller: Option<string>)
    | Check(h: nat, now: int)
    | Mark(h: nat)

  /** What a propose request leads to. */
  type Router = (Option<ProposeRequest>, bool, string, Option<string>) -> Result<RouteProposal, nat>

  function Routing(host: Host): Router {
    (request: Option<ProposeRequest>, adopted: bool, correlationId: string, caller: Option<string>) =>
      Routed(host, request, adopted, correlationId, caller)
  }

  /** One step under any router; an action that is not enabled changes nothing. */
  function StepBy(host: Host, route: Router, s: State, action: Action): State {
    match action
    case Propose(request, adopted, correlationId, caller) =>
      (match route(request, adopted, correlationId, caller)
       case Err(_) => s
       case Ok(p) => s.(shelf := s.shelf.Save(p), saved := s.saved + {p}))
    case Find(h, request, caller) =>
      if h in s.handlers || request.proposalId !in s.shelf.proposals then s
      else s.(handlers := s.handlers[h := Found(s.shelf.proposals[request.proposalId], request, caller)])
    case Check(h, now) =>
      if h !in s.handlers || !s.handlers[h].Found? then s else
        var p := s.handlers[h];
        var authority := Presented(host, p.request, p.caller);
        (match Oms.Execute(host, p.proposal, authority, now)
         case Err(_) => s.(handlers := s.handlers - {h})
         case Ok(e) => s.(handlers :=
             s.handlers[h := Cleared(p.request.proposalId, Fill(e, p.proposal, authority.value))]))
    case Mark(h) =>
      if h !in s.handlers || !s.handlers[h].Cleared? then s else
        var p := s.handlers[h];
        if p.id in s.shelf.executed then s.(handlers := s.handlers - {h})
        else s.(shelf := s.shelf.Mark(p.id), fills := s.fills + [p.fill], handlers := s.handlers - {h})
  }

  function Step(host: Host, s: State, action: Action): State { StepBy(host, Routing(host), s, action) }

  function Stepping(host: Host, route: Router): (State, Action) -> State {
    (s: State, action: Action) => StepBy(host, route, s, action)
  }

  function Run(host: Host, s: State, actions: seq<Action>): State {
    RunWith(Stepping(host, Routing(host)), s, actions)
  }

  // ---- What every interleaving keeps ----

  /** The proposal came out of planning some order over some quotes under the default policy. */
  ghost predicate PlannedFrom(
    host: Host, p: RouteProposal, order: OrderIntent, quotes: seq<VenueQuote>, proposer: string) {
    !IsBlank(host, proposer)
    && var o := Plan(host, order, quotes, DEFAULT_POLICY, proposer, None);
        o.Ok? && o.value.Proposed? && o.value.proposal == p
  }

  ghost predicate Planned(host: Host, p: RouteProposal) {
    exists order, quotes, proposer :: PlannedFrom(host, p, order, quotes, proposer)
  }

  /** What a fill must be, given the proposals saved so far. */
  ghost predicate FillOk(host: Host, saved: set<RouteProposal>, f: Fill) {
    && f.proposal in saved
    && f.execution.proposalId == f.proposal.proposalId == f.authority.proposalId
    && f.execution.correlationId == f.proposal.correlationId == f.authority.correlationId
    && f.execution.orderId == f.proposal.orderId
    && f.execution.venueCode == f.proposal.venueCode
    && f.execution.quantity == f.proposal.quantity
    && f.execution.price == f.proposal.cost.projectedPrice
    && f.execution.approvalId == f.authority.approvalId
    && f.execution.executedAt < f.authority.expiresAt
    && !EqualsIgnoreCase(host, f.authority.approvedBy, f.proposal.proposedBy)
    && !IsBlank(host, f.authority.approvedBy)
  }

  ghost predicate ProgressOk(host: Host, s: State, p: Progress) {
    match p
    case Found(proposal, request, _) => proposal in s.saved && proposal.proposalId == request.proposalId
    case Cleared(id, fill) => FillOk(host, s.saved, fill) && fill.execution.proposalId == id
  }

  ghost predicate Invariant(host: Host, s: State) {
    && (forall p :: p in s.saved ==> Planned(host, p))
    && (forall id :: id in s.shelf.proposals ==>
          s.shelf.proposals[id].proposalId == id && s.shelf.proposals[id] in s.saved)
    && (forall h :: h in s.handlers ==> ProgressOk(host, s, s.handlers[h]))
    && (forall i :: 0 <= i < |s.fills| ==>
          FillOk(host, s.saved, s.fills[i]) && s.fills[i].execution.proposalId in s.shelf.executed)
    && (forall id :: id in s.shelf.executed ==> exists i :: 0 <= i < |s.fills| && s.fills[i].execution.proposalId == id)
    && (forall i, j :: 0 <= i < j < |s.fills| ==> s.fills[i].execution.proposalId != s.fills[j].execution.proposalId)
  }

  /** A step either consumes nothing and fills nothing, or fills once and consumes exactly the proposal it fills. */
  ghost predicate ConsumesByFilling(s: State, t: State) {
    && s.saved <= t.saved
    && ((t.fills == s.fills && t.shelf.executed == s.shelf.executed)
        || (exists f: Fill :: t.fills == s.fills + [f] && f.execution.proposalId !in s.shelf.executed
                        && t.shelf.executed == s.shelf.executed + {f.execution.proposalId}))
  }

  lemma RoutedIsPlanned(
    host: Host, request: Option<ProposeRequest>, adopted: bool, correlationId: string, caller: Option<string>)
    requires Routed(host, request, adopted, correlationId, caller).Ok?
    ensures Planned(host, Routed(host, request, adopted, correlationId, caller).value)
  {
    var proposedBy := if caller.Some? then caller.value else "anonymous-development-caller";
    assert PlannedFrom(host, Routed(host, request, adopted, correlationId, caller).value,
                       Intent(request.value, correlationId), request.value.quotes.value, proposedBy);
  }

  lemma ExecuteYieldsFill(
    host: Host, saved: set<RouteProposal>, p: RouteProposal, r: ExecuteRequest, caller: Option<string>, now: int)
    requires p in saved
    requires Oms.Execute(host, p, Presented(host, r, caller), now).Ok?
    ensures var e := Oms.Execute(host, p, Presented(host, r, caller), now).value;
            FillOk(host, saved, Fill(e, p, Presented(host, r, caller).value))
  {
  }

  lemma FillStaysOk(host: Host, saved: set<RouteProposal>, more: set<RouteProposal>, f: Fill)
    requires FillOk(host, saved, f) && saved <= more
    ensures FillOk(host, more, f)
  {
  }

  lemma SaveKeeps(host: Host, s: State, p: RouteProposal)
    requires Invariant(host, s) && Planned(host, p)
    ensures Invariant(host, s.(shelf := s.shelf.Save(p), saved := s.saved + {p}))
  {
    var t := s.(shelf := s.shelf.Save(p), saved := s.saved + {p});
    forall h | h in t.handlers ensures ProgressOk(host, t, t.handlers[h]) {
      assert ProgressOk(host, s, s.handlers[h]);
      if s.handlers[h].Cleared? { FillStaysOk(host, s.saved, t.saved, s.handlers[h].fill); }
    }
    forall i | 0 <= i < |t.fills| ensures FillOk(host, t.saved, t.fills[i])
        && t.fills[i].execution.proposalId in t.shelf.executed {
      FillStaysOk(host, s.saved, t.saved, s.fills[i]);
    }
    assert forall id :: id in t.shelf.proposals ==>
        t.shelf.proposals[id].proposalId == id && t.shelf.proposals[id] in t.saved;
  }

  lemma HandlersKeep(host: Host, s: State, handlers: map<nat, Progress>)
    requires Invariant(host, s)
    requires forall h :: h in handlers ==> ProgressOk(host, s, handlers[h])
    ensures Invariant(host, s.(handlers := handlers))
  {
    var t := s.(handlers := handlers);
    forall h | h in t.handlers ensures ProgressOk(host, t, t.handlers[h]) {
      assert ProgressOk(host, s, handlers[h]);
    }
  }

  lemma MarkedIffFilled(s: State, f: Fill)
    requires forall id :: id in s.shelf.executed ==>
                exists i :: 0 <= i < |s.fills| && s.fills[i].execution.proposalId == id
    ensures forall id :: id in s.shelf.executed + {f.execution.proposalId} ==>
              exists i :: 0 <= i < |s.fills + [f]| && (s.fills + [f])[i].execution.proposalId == id
  {
    var fills := s.fills + [f];
    forall id | id in s.shelf.executed + {f.execution.proposalId} ensures exists i ::
        0 <= i < |fills| && fills[i].execution.proposalId == id {
      if id in s.shelf.executed {
        var i :| 0 <= i < |s.fills| && s.fills[i].execution.proposalId == id;
        assert fills[i].execution.proposalId == id;
      } else {
        assert fills[|s.fills|].execution.proposalId == id;
      }
    }
  }

  lemma ProgressKeeps(host: Host, s: State, t: State)
    requires s.saved == t.saved && s.handlers == t.handlers && forall h :: h in s.handlers ==>
                ProgressOk(host, s, s.handlers[h])
    ensures forall h :: h in t.handlers ==> ProgressOk(host, t, t.handlers[h])
  {
    forall h | h in t.handlers ensures ProgressOk(host, t, t.handlers[h]) {
      assert ProgressOk(host, s, s.handlers[h]);
    }
  }

  lemma FillsStayGood(host: Host, s: State, f: Fill)
    requires Invariant(host, s) && FillOk(host, s.saved, f) && f.execution.proposalId !in s.shelf.executed
    ensures var fills, executed := s.fills + [f], s.shelf.executed + {f.execution.proposalId};
            && (forall i :: 0 <= i < |fills| ==>
                  FillOk(host, s.saved, fills[i]) && fills[i].execution.proposalId in executed)
            && (forall i, j :: 0 <= i < j < |fills| ==> fills[i].execution.proposalId != fills[j].execution.proposalId)
  {
  }

  lemma FillKeeps(host: Host, s: State, f: Fill)
    requires Invariant(host, s) && FillOk(host, s.saved, f) && f.execution.proposalId !in s.shelf.executed
    ensures var t := s.(shelf := s.shelf.Mark(f.execution.proposalId), fills := s.fills + [f]);
            Invariant(host, t) && ConsumesByFilling(s, t)
  {
    var t := s.(shelf := s.shelf.Mark(f.execution.proposalId), fills := s.fills + [f]);
    ProgressKeeps(host, s, t);
    FillsStayGood(host, s, f);
    MarkedIffFilled(s, f);
  }

  /** Everything the router lets through was planned. */
  ghost predicate RoutesPlans(host: Host, route: Router) {
    forall request, adopted, correlationId, caller ::
      route(request, adopted, correlationId, caller).Ok? ==>
        Planned(host, route(request, adopted, correlationId, caller).value)
  }

  lemma RoutingPlans(host: Host)
    ensures RoutesPlans(host, Routing(host))
  {
    forall request, adopted, correlationId, caller | Routing(host)(request, adopted, correlationId, caller).Ok?
      ensures Planned(host, Routing(host)(request, adopted, correlationId, caller).value)
    {
      RoutedIsPlanned(host, request, adopted, correlationId, caller);
    }
  }

  lemma ProposeKeeps(host: Host, route: Router, s: State, action: Action)
    requires Invariant(host, s) && RoutesPlans(host, route) && action.Propose?
    ensures Invariant(host, StepBy(host, route, s, action)) && ConsumesByFilling(s, StepBy(host, route, s, action))
  {
    var routed := route(action.request, action.adopted, action.correlationId, action.caller);
    if routed.Ok? { SaveKeeps(host, s, routed.value); }
  }

  lemma FindKeeps(host: Host, route: Router, s: State, action: Action)
    requires Invariant(host, s) && action.Find?
    ensures Invariant(host, StepBy(host, route, s, action)) && ConsumesByFilling(s, StepBy(host, route, s, action))
  {
    HandlersKeep(host, s, StepBy(host, route, s, action).handlers);
  }

  lemma CheckKeeps(host: Host, route: Router, s: State, action: Action)
    requires Invariant(host, s) && action.Check?
    ensures Invariant(host, StepBy(host, route, s, action)) && ConsumesByFilling(s, StepBy(host, route, s, action))
  {
    if action.h in s.handlers && s.handlers[action.h].Found? {
      var p := s.handlers[action.h];
      assert ProgressOk(host, s, p);
      if Oms.Execute(host, p.proposal, Presented(host, p.request, p.caller), action.now).Ok? {
        ExecuteYieldsFill(host, s.saved, p.proposal, p.request, p.caller, action.now);
      }
      HandlersKeep(host, s, StepBy(host, route, s, action).handlers);
    }
  }

  lemma MarkKeeps(host: Host, route: Router, s: State, action: Action)
    requires Invariant(host, s) && action.Mark?
    ensures Invariant(host, StepBy(host, route, s, action)) && ConsumesByFilling(s, StepBy(host, route, s, action))
  {
    var h := action.h;
    if h in s.handlers && s.handlers[h].Cleared? {
      var p := s.handlers[h];
      assert ProgressOk(host, s, p);
      HandlersKeep(host, s, s.handlers - {h});
      if p.id !in s.shelf.executed { FillKeeps(host, s.(handlers := s.handlers - {h}), p.fill); }
    }
  }

  lemma StepKeeps(host: Host, route: Router, s: State, action: Action)
    requires Invariant(host, s) && RoutesPlans(host, route)
    ensures Invariant(host, StepBy(host, route, s, action)) && ConsumesByFilling(s, StepBy(host, route, s, action))
  {
    match action
    case Propose(_, _, _, _) => ProposeKeeps(host, route, s, action);
    case Find(_, _, _) => FindKeeps(host, route, s, action);
    case Check(_, _) => CheckKeeps(host, route, s, action);
    case Mark(_) => MarkKeeps(host, route, s, action);
  }

  /** However requests interleave, every good state leads to good states. */
  lemma {:induction false} RunByKeeps(host: Host, route: Router, s: State, actions: seq<Action>)
    requires Invariant(host, s) && RoutesPlans(host, route)
    ensures Invariant(host, RunWith(Stepping(host, route), s, actions))
    decreases |actions|
  {
    if actions != [] {
      StepKeeps(host, route, s, actions[0]);
      RunByKeeps(host, route, StepBy(host, route, s, actions[0]), actions[1..]);
    }
  }

  lemma RunKeeps(host: Host, s: State, actions: seq<Action>)
    requires Invariant(host, s)
    ensures Invariant(host, Run(host, s, actions))
  {
    RoutingPlans(host);
    RunByKeeps(host, Routing(host), s, actions);
  }

  /**
   From an empty store, under any interleaving, a proposal id is filled at most once, and marked executed exactly when
   it is.
   */
  lemma AtMostOneFill(host: Host, actions: seq<Action>)
    ensures var s := Run(host, START, actions);
            && (forall i, j :: 0 <= i < j < |s.fills| ==>
                s.fills[i].execution.proposalId != s.fills[j].execution.proposalId)
            && (forall id :: id in s.shelf.executed <==> exists i ::
                0 <= i < |s.fills| && s.fills[i].execution.proposalId == id)
  {
    RunKeeps(host, START, actions);
  }

  /** No action, refused or not, marks a proposal executed without filling it. */
  lemma RefusalConsumesNothing(host: Host, actions: seq<Action>, action: Action)
    ensures ConsumesByFilling(Run(host, START, actions), Step(host, Run(host, START, actions), action))
  {
    RunKeeps(host, START, actions);
    RoutingPlans(host);
    StepKeeps(host, Routing(host), Run(host, START, actions), action);
  }

  /**
   Every fill copies a saved proposal, which some order's plan chose as its best eligible venue, and
   stands on an unexpired authority from another identity. The handler makes that authority out to the
   proposal and correlation the request names; the approval itself names neither.
   */
  lemma FillsStandOnPlansAndAuthority(host: Host, actions: seq<Action>, i: nat)
    returns (order: OrderIntent, quotes: seq<VenueQuote>, winner: VenueQuote)
    requires i < |Run(host, START, actions).fills|
    ensures FillOk(host, Run(host, START, actions).saved, Run(host, START, actions).fills[i])
    ensures BestOf(order, quotes, DEFAULT_POLICY, winner)
    ensures var e := Run(host, START, actions).fills[i].execution;
            && e.venueCode == winner.venueCode && e.quantity == order.quantity && e.orderId == order.orderId
            && e.correlationId == order.correlationId
            && e.price == Cost(order, winner, DEFAULT_POLICY).projectedPrice && !ThroughLimit(order, e.price)
  {
    RunKeeps(host, START, actions);
    var p := Run(host, START, actions).fills[i].proposal;
    assert Planned(host, p);
    var proposer;
    order, quotes, proposer :| PlannedFrom(host, p, order, quotes, proposer);
    winner := PlanPicksBest(host, order, quotes, DEFAULT_POLICY, proposer, None);
  }

  lemma FoundStep(
    host: Host, route: Router, s: State, h: nat, request: ExecuteRequest, caller: Option<string>, now: int)
    requires h in s.handlers && s.handlers[h].Found? && s.handlers[h].request == request
            && s.handlers[h].caller == caller
    ensures var p := s.handlers[h].proposal;
            var result := Oms.Execute(host, p, Presented(host, request, caller), now);
            StepBy(host, route, s, Check(h, now)) ==
            if result.Err? then s.(handlers := s.handlers - {h})
            else
              var fill := Fill(result.value, p, Presented(host, request, caller).value);
              s.(handlers := s.handlers[h := Cleared(request.proposalId, fill)])
  {
  }

  lemma ClearedStep(host: Host, route: Router, s: State, h: nat)
    requires h in s.handlers && s.handlers[h].Cleared?
    ensures var p := s.handlers[h];
            StepBy(host, route, s, Mark(h)) ==
            if p.id in s.shelf.executed then s.(handlers := s.handlers - {h})
            else s.(shelf := s.shelf.Mark(p.id), fills := s.fills + [p.fill], handlers := s.handlers - {h})
  {
  }

  /** Found, checked and marked without interruption, an execute request does what one unbroken run does. */
  lemma UninterruptedExecute(
    host: Host, route: Router, s: State, h: nat, request: ExecuteRequest, caller: Option<string>, now: int)
    requires h !in s.handlers && request.proposalId in s.shelf.proposals
    ensures var found := StepBy(host, route, s, Find(h, request, caller));
            var t := StepBy(host, route, StepBy(host, route, found, Check(h, now)), Mark(h));
            var (shelf, answer) := Serve(host, s.shelf, Some(request), caller, now);
            && t.shelf == shelf && t.handlers == s.handlers
            && t.fills ==
                 if !answer.Filled? then s.fills
                 else s.fills + [Fill(answer.execution, s.shelf.proposals[request.proposalId],
                                      Presented(host, request, caller).value)]
  {
    var s1 := s.(handlers := s.handlers[h := Found(s.shelf.proposals[request.proposalId], request, caller)]);
    assert s1 == StepBy(host, route, s, Find(h, request, caller));
    FoundStep(host, route, s1, h, request, caller, now);
    var s2 := StepBy(host, route, s1, Check(h, now));
    if h in s2.handlers { ClearedStep(host, route, s2, h); }
    assert s.handlers[h := Found(s.shelf.proposals[request.proposalId], request, caller)] - {h} == s.handlers;
  }
}
