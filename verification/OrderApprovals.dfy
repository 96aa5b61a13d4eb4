/**
 What an approval is good for at the order-routing service. It names neither a proposal nor a correlation; the request
 that carries it does. So which proposal is filled, and how often one approval fills, is settled by requests alone.
 */
module OrderApprovals {
  import opened Prelude
  import opened Platform
  import opened BestExecution
  import opened RoutePlanning
  import opened Rounding
  import opened Numerals
  import opened OrderProtocol
  import opened Runs
  import Oms = SimulatedOms

  // ---- What a request needs to be filled ----

  /** Every proposal stands under its own id. */
  ghost predicate OwnIds(shelf: Shelf) { forall id :: id in shelf.proposals ==> shelf.proposals[id].proposalId == id }

  /**
   The authority is made out by the handler to the id the request names, so the check that it is for the proposal at
   hand never refuses: not for any request on a reachable shelf, and not for any request in flight.
   */
  lemma ProposalCheckNeverRefuses(host: Host, actions: seq<Action>, caller: Option<string>, now: int)
    ensures var s := Run(host, START, actions);
            && OwnIds(s.shelf)
            && (forall r: ExecuteRequest :: r.proposalId in s.shelf.proposals ==>
                  Oms.Execute(host, s.shelf.proposals[r.proposalId], Presented(host, r, caller), now)
                  != Err(Oms.AuthorizationForDifferentProposal))
            && (forall h :: h in s.handlers && s.handlers[h].Found? ==>
                  Oms.Execute(host, s.handlers[h].proposal,
                      Presented(host, s.handlers[h].request, s.handlers[h].caller), now)
                  != Err(Oms.AuthorizationForDifferentProposal))
  {
    RunKeeps(host, START, actions);
    var s := Run(host, START, actions);
    forall r: ExecuteRequest | r.proposalId in s.shelf.proposals
      ensures Oms.Execute(host, s.shelf.proposals[r.proposalId], Presented(host, r, caller), now)
           != Err(Oms.AuthorizationForDifferentProposal)
    {
      MadeOutToTheProposal(host, s.shelf.proposals[r.proposalId], r, caller, now);
    }
    forall h | h in s.handlers && s.handlers[h].Found?
      ensures Oms.Execute(host, s.handlers[h].proposal, Presented(host, s.handlers[h].request, s.handlers[h].caller),
              now)
           != Err(Oms.AuthorizationForDifferentProposal)
    {
      assert ProgressOk(host, s, s.handlers[h]);
      MadeOutToTheProposal(host, s.handlers[h].proposal, s.handlers[h].request, s.handlers[h].caller, now);
    }
  }

  lemma MadeOutToTheProposal(host: Host, p: RouteProposal, r: ExecuteRequest, caller: Option<string>, now: int)
    requires p.proposalId == r.proposalId
    ensures Oms.Execute(host, p, Presented(host, r, caller), now) != Err(Oms.AuthorizationForDifferentProposal)
  {
  }

  /** The identity an approval is presented by. */
  function Approver(a: ApprovalDto, caller: Option<string>): string {
    if caller.Some? then caller.value else a.approvedBy
  }

  /** What the service asks of a request for a proposal: nothing about which proposal was approved. */
  predicate Fillable(host: Host, p: RouteProposal, r: ExecuteRequest, caller: Option<string>, now: int) {
    && r.approval.Some?
    && !IsBlank(host, Approver(r.approval.value, caller))
    && r.correlationId == p.correlationId
    && now < r.approval.value.expiresAt
    && !EqualsIgnoreCase(host, Approver(r.approval.value, caller), p.proposedBy)
  }

  /** The request names a stored proposal that is not yet executed, and is fillable for it. */
  predicate Fills(host: Host, shelf: Shelf, r: ExecuteRequest, caller: Option<string>, now: int) {
    && r.proposalId in shelf.proposals && r.proposalId !in shelf.executed
    && Fillable(host, shelf.proposals[r.proposalId], r, caller, now)
  }

  /** A request is filled exactly then, on the approval it carries. */
  lemma ServeFillsIff(host: Host, shelf: Shelf, r: ExecuteRequest, caller: Option<string>, now: int)
    requires OwnIds(shelf)
    ensures Serve(host, shelf, Some(r), caller, now).1.Filled? <==> Fills(host, shelf, r, caller, now)
    ensures var (after, answer) := Serve(host, shelf, Some(r), caller, now);
            answer.Filled? ==>
              && after == shelf.Mark(r.proposalId)
              && answer.execution.proposalId == r.proposalId
              && answer.execution.approvalId == r.approval.value.approvalId
  {
  }

  /**
   Two requests served in turn are both filled on one approval exactly when each could be filled first and they carry
   that approval for two different proposals.
   */
  lemma ServedTwiceIff(
    host: Host, shelf: Shelf, r: ExecuteRequest, c: Option<string>, now: int, q: ExecuteRequest, d: Option<string>,
    later: int)
    requires OwnIds(shelf)
    ensures var (after, one) := Serve(host, shelf, Some(r), c, now);
            var two := Serve(host, after, Some(q), d, later).1;
            (one.Filled? && two.Filled? && one.execution.approvalId == two.execution.approvalId) <==>
            && Fills(host, shelf, r, c, now) && Fills(host, shelf, q, d, later)
            && r.proposalId != q.proposalId && r.approval.value.approvalId == q.approval.value.approvalId
  {
    ServeFillsIff(host, shelf, r, c, now);
    if Fills(host, shelf, r, c, now) { ServeFillsIff(host, shelf.Mark(r.proposalId), q, d, later); }
  }

  // ---- Where a fill comes from ----

  /** The state after the first `k` actions. */
  function StateAt(host: Host, route: Router, actions: seq<Action>, k: nat): State
    requires k <= |actions|
  {
    RunWith(Stepping(host, route), START, actions[..k])
  }

  /** Action `k` looked up proposal `p` for request `r` of `c`. */
  ghost predicate LookedUp(
    host: Host, route: Router, actions: seq<Action>, k: nat, r: ExecuteRequest, c: Option<string>, p: RouteProposal)
  {
    && k < |actions| && actions[k].Find? && actions[k].execute == r && actions[k].caller == c
    && var shelf := StateAt(host, route, actions, k).shelf;
       r.proposalId in shelf.proposals && shelf.proposals[r.proposalId] == p
  }

  /** Action `k` is the request a fill was made for. */
  ghost predicate MadeFor(host: Host, route: Router, actions: seq<Action>, k: nat, f: Fill) {
    && k < |actions| && actions[k].Find?
    && LookedUp(host, route, actions, k, actions[k].execute, actions[k].caller, f.proposal)
    && Presented(host, actions[k].execute, actions[k].caller) == Some(f.authority)
  }

  ghost predicate FillTraced(host: Host, route: Router, actions: seq<Action>, f: Fill) {
    exists k: nat :: MadeFor(host, route, actions, k, f)
  }

  ghost predicate ProgressTraced(host: Host, route: Router, actions: seq<Action>, p: Progress) {
    match p
    case Found(proposal, r, c) => exists k: nat :: LookedUp(host, route, actions, k, r, c, proposal)
    case Cleared(_, fill) => FillTraced(host, route, actions, fill)
  }

  ghost predicate Traced(host: Host, route: Router, actions: seq<Action>, s: State) {
    && (forall h :: h in s.handlers ==> ProgressTraced(host, route, actions, s.handlers[h]))
    && (forall i :: 0 <= i < |s.fills| ==> FillTraced(host, route, actions, s.fills[i]))
  }

  lemma LookedUpStays(
    host: Host, route: Router, actions: seq<Action>, more: seq<Action>, k: nat, r: ExecuteRequest, c: Option<string>,
    p: RouteProposal)
    requires LookedUp(host, route, actions, k, r, c, p)
    ensures LookedUp(host, route, actions + more, k, r, c, p)
  {
    assert (actions + more)[..k] == actions[..k] && (actions + more)[k] == actions[k];
    assert StateAt(host, route, actions + more, k) == StateAt(host, route, actions, k);
  }

  lemma MadeForStays(host: Host, route: Router, actions: seq<Action>, more: seq<Action>, k: nat, f: Fill)
    requires MadeFor(host, route, actions, k, f)
    ensures MadeFor(host, route, actions + more, k, f)
  {
    LookedUpStays(host, route, actions, more, k, actions[k].execute, actions[k].caller, f.proposal);
    assert (actions + more)[k] == actions[k];
  }

  lemma ProgressStaysTraced(host: Host, route: Router, actions: seq<Action>, more: seq<Action>, p: Progress)
    requires ProgressTraced(host, route, actions, p)
    ensures ProgressTraced(host, route, actions + more, p)
  {
    match p
    case Found(proposal, r, c) =>
      var k: nat :| LookedUp(host, route, actions, k, r, c, proposal);
      LookedUpStays(host, route, actions, more, k, r, c, proposal);
    case Cleared(_, fill) =>
      var k: nat :| MadeFor(host, route, actions, k, fill);
      MadeForStays(host, route, actions, more, k, fill);
  }

  lemma TracedStays(host: Host, route: Router, actions: seq<Action>, more: seq<Action>, s: State)
    requires Traced(host, route, actions, s)
    ensures Traced(host, route, actions + more, s)
  {
    forall h | h in s.handlers ensures ProgressTraced(host, route, actions + more, s.handlers[h]) {
      ProgressStaysTraced(host, route, actions, more, s.handlers[h]);
    }
    forall i | 0 <= i < |s.fills| ensures FillTraced(host, route, actions + more, s.fills[i]) {
      var k: nat :| MadeFor(host, route, actions, k, s.fills[i]);
      MadeForStays(host, route, actions, more, k, s.fills[i]);
    }
  }

  /** One handler moves to a traced place, or ends; at most one traced fill is added. */
  lemma TracedMoves(host: Host, route: Router, actions: seq<Action>, s: State, t: State, h: nat)
    requires Traced(host, route, actions, s)
    requires forall k :: k in t.handlers && k != h ==> k in s.handlers && t.handlers[k] == s.handlers[k]
    requires h in t.handlers ==> ProgressTraced(host, route, actions, t.handlers[h])
    requires t.fills == s.fills
          || exists f: Fill :: t.fills == s.fills + [f] && FillTraced(host, route, actions, f)
    ensures Traced(host, route, actions, t)
  {
    forall i | 0 <= i < |t.fills| ensures FillTraced(host, route, actions, t.fills[i]) {
      if i < |s.fills| { assert t.fills[i] == s.fills[i]; }
    }
  }

  lemma CheckClears(host: Host, route: Router, s: State, h: nat, now: int)
    requires h in s.handlers && s.handlers[h].Found? && h in StepBy(host, route, s, Check(h, now)).handlers
    ensures var p, q := s.handlers[h], StepBy(host, route, s, Check(h, now)).handlers[h];
            q.Cleared? && q.fill.proposal == p.proposal && Some(q.fill.authority)
                == Presented(host, p.request, p.caller)
  {
  }

  lemma CheckTraces(host: Host, route: Router, actions: seq<Action>, s: State, h: nat, now: int)
    requires Traced(host, route, actions, s)
    ensures Traced(host, route, actions, StepBy(host, route, s, Check(h, now)))
  {
    var t := StepBy(host, route, s, Check(h, now));
    if h in s.handlers && s.handlers[h].Found? {
      var p := s.handlers[h];
      assert ProgressTraced(host, route, actions, p);
      if h in t.handlers {
        var k: nat :| LookedUp(host, route, actions, k, p.request, p.caller, p.proposal);
        CheckClears(host, route, s, h, now);
        assert MadeFor(host, route, actions, k, t.handlers[h].fill);
      }
      TracedMoves(host, route, actions, s, t, h);
    }
  }

  lemma MarkTraces(host: Host, route: Router, actions: seq<Action>, s: State, h: nat)
    requires Traced(host, route, actions, s)
    ensures Traced(host, route, actions, StepBy(host, route, s, Mark(h)))
  {
    var t := StepBy(host, route, s, Mark(h));
    if h in s.handlers && s.handlers[h].Cleared? {
      assert ProgressTraced(host, route, actions, s.handlers[h]);
      assert FillTraced(host, route, actions, s.handlers[h].fill);
      TracedMoves(host, route, actions, s, t, h);
    }
  }

  /** The last action of a run, whatever it is, leaves everything traced. */
  lemma LastTraces(host: Host, route: Router, front: seq<Action>, last: Action)
    requires Traced(host, route, front, RunWith(Stepping(host, route), START, front))
    ensures var s := RunWith(Stepping(host, route), START, front);
            Traced(host, route, front + [last], StepBy(host, route, s, last))
  {
    var s := RunWith(Stepping(host, route), START, front);
    var actions := front + [last];
    TracedStays(host, route, front, [last], s);
    match last
    case Propose(_, _, _, _) =>
    case Find(h, r, c) =>
      assert actions[..|front|] == front;
      var t := StepBy(host, route, s, last);
      if h !in s.handlers && r.proposalId in s.shelf.proposals {
        assert LookedUp(host, route, actions, |front|, r, c, s.shelf.proposals[r.proposalId]);
        TracedMoves(host, route, actions, s, t, h);
      }
    case Check(h, now) => CheckTraces(host, route, actions, s, h, now);
    case Mark(h) => MarkTraces(host, route, actions, s, h);
  }

  lemma {:induction false} RunTraces(host: Host, route: Router, actions: seq<Action>)
    ensures Traced(host, route, actions, RunWith(Stepping(host, route), START, actions))
  {
    if actions != [] {
      var n := |actions| - 1;
      RunTraces(host, route, actions[..n]);
      LastTraces(host, route, actions[..n], actions[n]);
      OneMore(Stepping(host, route), START, actions, n);
      assert actions[..n + 1] == actions && actions[..n] + [actions[n]] == actions;
    }
  }

  /** Every fill was made for a request of the run: the proposal it found then, on the approval it carried. */
  lemma FillsComeFromRequests(host: Host, actions: seq<Action>, i: nat) returns (k: nat)
    requires i < |Run(host, START, actions).fills|
    ensures MadeFor(host, Routing(host), actions, k, Run(host, START, actions).fills[i])
  {
    RunTraces(host, Routing(host), actions);
    assert FillTraced(host, Routing(host), actions, Run(host, START, actions).fills[i]);
    k :| MadeFor(host, Routing(host), actions, k, Run(host, START, actions).fills[i]);
  }

  // ---- How often one approval fills ----

  /** Two fills of the run stand on one approval. */
  ghost predicate ApprovalReused(s: State) {
    exists i: nat, j: nat :: i < j < |s.fills| && s.fills[i].execution.approvalId == s.fills[j].execution.approvalId
  }

  /** Action `k` asked, on the approval `approvalId`, for a fill that was made. */
  ghost predicate FilledOn(host: Host, actions: seq<Action>, k: nat, approvalId: string) {
    && k < |actions| && actions[k].Find?
    && actions[k].execute.approval.Some? && actions[k].execute.approval.value.approvalId == approvalId
    && exists i: nat :: i < |Run(host, START, actions).fills|
         && MadeFor(host, Routing(host), actions, k, Run(host, START, actions).fills[i])
  }

  /** What a fill says of the request it was made for. */
  lemma MadeForSays(host: Host, actions: seq<Action>, k: nat, i: nat)
    requires i < |Run(host, START, actions).fills|
    requires MadeFor(host, Routing(host), actions, k, Run(host, START, actions).fills[i])
    ensures var f, r := Run(host, START, actions).fills[i], actions[k].execute;
            && r.approval.Some? && r.approval.value.approvalId == f.execution.approvalId
            && r.proposalId == f.execution.proposalId && r.correlationId == f.execution.correlationId
    ensures FilledOn(host, actions, k, Run(host, START, actions).fills[i].execution.approvalId)
  {
    RunKeeps(host, START, actions);
    var s := Run(host, START, actions);
    assert FillOk(host, s.saved, s.fills[i]);
  }

  /**
   Single use holds per proposal and not per approval: under any interleaving, two fills stand on one approval exactly
   when two of the requests filled carried it for two different proposals.
   */
  lemma ApprovalReusedIff(host: Host, actions: seq<Action>)
    ensures ApprovalReused(Run(host, START, actions)) <==>
            exists k: nat, l: nat, approvalId ::
              && FilledOn(host, actions, k, approvalId) && FilledOn(host, actions, l, approvalId)
              && actions[k].execute.proposalId != actions[l].execute.proposalId
  {
    var s := Run(host, START, actions);
    AtMostOneFill(host, actions);
    if ApprovalReused(s) {
      var i: nat, j: nat :| i < j < |s.fills| && s.fills[i].execution.approvalId == s.fills[j].execution.approvalId;
      var k := FillsComeFromRequests(host, actions, i);
      var l := FillsComeFromRequests(host, actions, j);
      MadeForSays(host, actions, k, i);
      MadeForSays(host, actions, l, j);
    }
    if k: nat, l: nat, approvalId :|
        FilledOn(host, actions, k, approvalId) && FilledOn(host, actions, l, approvalId)
        && actions[k].execute.proposalId != actions[l].execute.proposalId {
      var i: nat :| i < |s.fills| && MadeFor(host, Routing(host), actions, k, s.fills[i]);
      var j: nat :| j < |s.fills| && MadeFor(host, Routing(host), actions, l, s.fills[j]);
      MadeForSays(host, actions, k, i);
      MadeForSays(host, actions, l, j);
      assert s.fills[i].execution.approvalId == s.fills[j].execution.approvalId && i != j;
    }
  }

  /** No approval is presented for two proposals. */
  ghost predicate OnePerApproval(actions: seq<Action>) {
    forall k: nat, l: nat ::
      (k < |actions| && l < |actions| && actions[k].Find? && actions[l].Find?
       && actions[k].execute.approval.Some? && actions[l].execute.approval.Some?
       && actions[k].execute.approval.value.approvalId == actions[l].execute.approval.value.approvalId)
      ==> actions[k].execute.proposalId == actions[l].execute.proposalId
  }

  /** Callers who never present one approval for two proposals keep it to one fill. */
  lemma OneProposalPerApproval(host: Host, actions: seq<Action>)
    requires OnePerApproval(actions)
    ensures !ApprovalReused(Run(host, START, actions))
  {
    ApprovalReusedIff(host, actions);
  }

  // ---- Which proposal a request fills ----

  /** What an action saves under `id`, if anything. */
  function SavedUnder(route: Router, id: string, action: Action): Option<RouteProposal> {
    if !action.Propose? then None else
      match route(action.request, action.adopted, action.correlationId, action.caller)
      case Err(_) => None
      case Ok(p) => if p.proposalId == id then Some(p) else None
  }

  /** What the last save under `id` left, starting from `reviewed`. */
  function LatestUnder(route: Router, id: string, reviewed: RouteProposal, actions: seq<Action>): RouteProposal
    decreases |actions|
  {
    if actions == [] then reviewed else
      var saved := SavedUnder(route, id, actions[0]);
      LatestUnder(route, id, if saved.Some? then saved.value else reviewed, actions[1..])
  }

  lemma StepSaves(host: Host, route: Router, s: State, id: string, action: Action)
    requires id in s.shelf.proposals
    ensures var saved := SavedUnder(route, id, action);
            var t := StepBy(host, route, s, action);
            && id in t.shelf.proposals
            && t.shelf.proposals[id] == if saved.Some? then saved.value else s.shelf.proposals[id]
  {
  }

  lemma {:induction false} LatestIsStored(host: Host, route: Router, s: State, id: string, actions: seq<Action>)
    requires id in s.shelf.proposals
    ensures var t := RunWith(Stepping(host, route), s, actions);
            id in t.shelf.proposals && t.shelf.proposals[id] == LatestUnder(route, id, s.shelf.proposals[id], actions)
    decreases |actions|
  {
    if actions != [] {
      StepSaves(host, route, s, id, actions[0]);
      LatestIsStored(host, route, StepBy(host, route, s, actions[0]), id, actions[1..]);
    }
  }

  /**
   The request names the id, and the proposal under it may have been replaced since someone reviewed it. Served after
   any further actions, a request fills the proposal that stood under its id exactly when the last save under that id
   since then, if any, saved that same proposal.
   */
  lemma RequestFillsReviewedIff(
    host: Host, s: State, actions: seq<Action>, h: nat, request: ExecuteRequest, caller: Option<string>, now: int)
    requires request.proposalId in s.shelf.proposals && h !in Run(host, s, actions).handlers
    requires Serve(host, Run(host, s, actions).shelf, Some(request), caller, now).1.Filled?
    ensures var reviewed := s.shelf.proposals[request.proposalId];
            var t := Run(host, s, actions);
            var after := Step(host, Step(host, Step(host, t, Find(h, request, caller)), Check(h, now)), Mark(h));
            && |after.fills| == |t.fills| + 1
            && (after.fills[|t.fills|].proposal == reviewed <==>
                  LatestUnder(Routing(host), request.proposalId, reviewed, actions) == reviewed)
  {
    LatestIsStored(host, Routing(host), s, request.proposalId, actions);
    UninterruptedExecute(host, Routing(host), Run(host, s, actions), h, request, caller, now);
  }

  lemma ProposeStep(
    host: Host, route: Router, s: State, r: ProposeRequest, correlationId: string, caller: Option<string>)
    requires route(Some(r), true, correlationId, caller).Ok?
    ensures var p := route(Some(r), true, correlationId, caller).value;
            StepBy(host, route, s, Propose(Some(r), true, correlationId, caller))
            == s.(shelf := s.shelf.Save(p), saved := s.saved + {p})
  {
  }

  lemma RoutedCarries(host: Host, r: ProposeRequest, correlationId: string, caller: Option<string>)
    requires Routed(host, Some(r), true, correlationId, caller).Ok?
    ensures var p := Routed(host, Some(r), true, correlationId, caller).value;
            p.proposalId == "prop-" + r.orderId && p.correlationId == correlationId && p.quantity == r.quantity
  {
  }

  /** The identifier comes from the order alone, so a second entry of an order saves over the first. */
  lemma SameOrderSavesOver(
    host: Host, s: State, first: ProposeRequest, second: ProposeRequest, correlationId: string, caller: Option<string>,
    p: RouteProposal, q: RouteProposal)
    requires first.orderId == second.orderId
    requires Routed(host, Some(first), true, correlationId, caller) == Ok(p)
    requires Routed(host, Some(second), true, correlationId, caller) == Ok(q)
    ensures p.proposalId == q.proposalId && p.correlationId == q.correlationId
    ensures first.quantity != second.quantity ==> q != p
    ensures var t := Step(host, Step(host, s, Propose(Some(first), true, correlationId, caller)),
                                Propose(Some(second), true, correlationId, caller));
            p.proposalId in t.shelf.proposals && t.shelf.proposals[p.proposalId] == q
  {
    RoutedCarries(host, first, correlationId, caller);
    RoutedCarries(host, second, correlationId, caller);
    ProposeStep(host, Routing(host), s, first, correlationId, caller);
    ProposeStep(host, Routing(host), s.(shelf := s.shelf.Save(p), saved := s.saved + {p}), second, correlationId,
        caller);
  }

  // ---- An order that always routes ----

  /** A sell of any size without a limit, quoted by one lit venue that shows a million times as much. */
  function SmallShare(orderId: string, symbol: string, quantity: int): ProposeRequest {
    ProposeRequest(orderId, symbol, Sell, quantity, 1.0, None, Some([SmallShareQuote(quantity)]))
  }

  function SmallShareQuote(quantity: int): VenueQuote { VenueQuote("XLIT", Lit, 1.0, 0.0, 1_000_000 * quantity, 0.0) }

  lemma RoundKeepsSign(x: real, places: nat)
    requires x >= 0.0
    ensures Round(x, places) >= 0.0
  {
    RoundMonotone(0.0, x, places);
    assert HalfEven(0.0 * Pow10(places) as real) == 0;
  }

  lemma SmallShareParticipates(quantity: int)
    requires quantity > 0
    ensures Participation(quantity, 1_000_000 * quantity) <= 0.20
  {
    var whole := (1_000_000 * quantity) as real;
    assert whole == 1_000_000.0 * quantity as real;
    assert quantity as real / whole == 0.000001;
    RoundMonotone(quantity as real / whole, 0.1, 6);
    TenthRounds();
  }

  lemma TenthRounds()
    ensures Round(0.1, 6) == 0.1 && Round(0.0, 2) == 0.0
  {
    assert Pow10(6) == 1_000_000 && Pow10(2) == 100;
    assert HalfEven(0.1 * 1_000_000.0) == 100_000;
    assert HalfEven(0.0 * 100.0) == 0;
  }

  lemma SmallShareEligible(order: OrderIntent)
    requires order.side.Sell? && order.limitPrice == 0.0 && order.quantity > 0
    ensures Evaluation(order, SmallShareQuote(order.quantity), DEFAULT_POLICY).IsEligible()
  {
    var quote := SmallShareQuote(order.quantity);
    SmallShareParticipates(order.quantity);
    TenthRounds();
    SmallSharePrice(order);
    EligibleIff(order, quote, DEFAULT_POLICY);
    forall b: PolicyBoundary ensures !Breaks(order, quote, DEFAULT_POLICY, b) {
    }
  }

  lemma SmallSharePrice(order: OrderIntent)
    requires order.side.Sell? && order.quantity > 0
    ensures Cost(order, SmallShareQuote(order.quantity), DEFAULT_POLICY).projectedPrice >= 0.0
  {
    var quote := SmallShareQuote(order.quantity);
    var participation := Participation(order.quantity, quote.displayedLiquidity);
    SmallShareParticipates(order.quantity);
    TenthRounds();
    ImpactIsSmall(participation);
    var total := SpreadCost(quote) + Impact(DEFAULT_POLICY, participation) + quote.feeBps;
    RoundKeepsSign(1.0 * PriceFactor(Sell, total), 4);
  }

  lemma ImpactIsSmall(participation: real)
    requires participation <= 0.20
    ensures Impact(DEFAULT_POLICY, participation) <= 10.0
  {
    RoundMonotone(50.0 * Min(participation, 1.0), 10.0, 2);
    assert Pow10(2) == 100 && HalfEven(10.0 * 100.0) == 1000;
  }

  /** It is routed, whatever its size. */
  lemma SmallShareRoutes(
    host: Host, orderId: string, symbol: string, quantity: int, correlationId: string, proposer: string)
    requires !IsBlank(host, orderId) && !IsBlank(host, symbol) && quantity > 0 && !IsBlank(host, proposer)
    ensures var routed :=
            Routed(host, Some(SmallShare(orderId, symbol, quantity)), true, correlationId, Some(proposer));
            && routed.Ok? && routed.value.proposalId == "prop-" + orderId && routed.value.correlationId == correlationId
            && routed.value.quantity == quantity && routed.value.proposedBy == proposer
  {
    var r := SmallShare(orderId, symbol, quantity);
    var order := Intent(r, correlationId);
    SmallShareEligible(order);
    assert r.quotes.value[0] in r.quotes.value;
    PlanProposesIff(host, order, r.quotes.value, DEFAULT_POLICY, proposer, None);
    var winner := PlanPicksBest(host, order, r.quotes.value, DEFAULT_POLICY, proposer, None);
    RoutedCarries(host, r, correlationId, Some(proposer));
  }

  // ---- An order without a limit ----

  /**
   A request without a limit price is given the limit zero. Its notional is then zero, so the notional ceiling never
   stops
   it, and the request is turned away exactly when no quote is eligible. A buy is eligible only at a price of zero or
   less.
   */
  lemma NoLimitEscapesCeiling(host: Host, r: ProposeRequest, correlationId: string, caller: Option<string>)
    requires IsValid(host, r) && r.limitPrice.None?
    requires !IsBlank(host, if caller.Some? then caller.value else "anonymous-development-caller")
    ensures OrderBreaches(Intent(r, correlationId), DEFAULT_POLICY) == []
    ensures Routed(host, Some(r), true, correlationId, caller) == Err(422) <==>
            forall q :: q in r.quotes.value ==> !Evaluation(Intent(r, correlationId), q, DEFAULT_POLICY).IsEligible()
    ensures r.side.Buy? ==> forall q ::
              q in r.quotes.value && Evaluation(Intent(r, correlationId), q, DEFAULT_POLICY).IsEligible() ==>
                Cost(Intent(r, correlationId), q, DEFAULT_POLICY).projectedPrice <= 0.0
  {
    var order := Intent(r, correlationId);
    assert order.NotionalUsd() == 0.0;
    var proposedBy := if caller.Some? then caller.value else "anonymous-development-caller";
    PlanProposesIff(host, order, r.quotes.value, DEFAULT_POLICY, proposedBy, None);
    forall q | q in r.quotes.value && Evaluation(order, q, DEFAULT_POLICY).IsEligible()
      ensures !ThroughLimit(order, Cost(order, q, DEFAULT_POLICY).projectedPrice)
    {
      WithinLimit(order, q, DEFAULT_POLICY);
    }
  }

  // ---- Requests that one approval can fill ----

  /** The id is one the planner gives to an order that names itself. */
  predicate NamedByOrder(host: Host, id: string) { |id| >= 5 && id[..5] == "prop-" && !IsBlank(host, id[5..]) }

  /** The request carries an approval by someone, for an id a proposal can have. */
  predicate Presentable(host: Host, r: ExecuteRequest, c: Option<string>) {
    r.approval.Some? && !IsBlank(host, Approver(r.approval.value, c)) && NamedByOrder(host, r.proposalId)
  }

  /** Fills `i` and `j` stand on one approval, one for each request. */
  ghost predicate FillsBoth(
    host: Host, s: State, i: nat, j: nat, r: ExecuteRequest, c: Option<string>, q: ExecuteRequest, d: Option<string>)
  {
    && i < |s.fills| && j < |s.fills| && i != j
    && Presented(host, r, c) == Some(s.fills[i].authority) && Presented(host, q, d) == Some(s.fills[j].authority)
    && s.fills[i].execution.approvalId == s.fills[j].execution.approvalId
  }

  lemma RoutedNames(
    host: Host, request: Option<ProposeRequest>, adopted: bool, correlationId: string, caller: Option<string>)
    requires Routed(host, request, adopted, correlationId, caller).Ok?
    ensures NamedByOrder(host, Routed(host, request, adopted, correlationId, caller).value.proposalId)
  {
    RoutedCarries(host, request.value, correlationId, caller);
    assert !IsBlank(host, request.value.orderId);
    assert ("prop-" + request.value.orderId)[5..] == request.value.orderId;
  }

  lemma {:induction false} SavedAreNamed(host: Host, route: Router, s: State, actions: seq<Action>)
    requires forall p :: p in s.saved ==> NamedByOrder(host, p.proposalId)
    requires forall request, adopted, correlationId, caller :: route(request, adopted, correlationId, caller).Ok? ==>
               NamedByOrder(host, route(request, adopted, correlationId, caller).value.proposalId)
    ensures forall p :: p in RunWith(Stepping(host, route), s, actions).saved ==> NamedByOrder(host, p.proposalId)
    decreases |actions|
  {
    if actions != [] { SavedAreNamed(host, route, StepBy(host, route, s, actions[0]), actions[1..]); }
  }

  /** A request that is filled in some run was presentable. */
  lemma FilledWasPresentable(host: Host, actions: seq<Action>, i: nat, r: ExecuteRequest, c: Option<string>)
    requires var s := Run(host, START, actions);
             i < |s.fills| && Presented(host, r, c) == Some(s.fills[i].authority)
    ensures Presentable(host, r, c) && r.proposalId == Run(host, START, actions).fills[i].execution.proposalId
    ensures r.approval.value.approvalId == Run(host, START, actions).fills[i].execution.approvalId
  {
    RunKeeps(host, START, actions);
    var s := Run(host, START, actions);
    assert FillOk(host, s.saved, s.fills[i]);
    forall request, adopted, correlationId, caller | Routing(host)(request, adopted, correlationId, caller).Ok?
      ensures NamedByOrder(host, Routing(host)(request, adopted, correlationId, caller).value.proposalId)
    {
      RoutedNames(host, request, adopted, correlationId, caller);
    }
    SavedAreNamed(host, Routing(host), START, actions);
  }

  /** Someone else than `who`: a longer name. */
  function Another(who: string): string { who + who }

  lemma AnotherDiffers(host: Host, who: string)
    requires !IsBlank(host, who)
    ensures !IsBlank(host, Another(who)) && !EqualsIgnoreCase(host, who, Another(who))
  {
    var i :| 0 <= i < |who| && !host.isSpace(who[i]);
    assert Another(who)[i] == who[i];
  }

  /** Proposes the order a request asks for, under the correlation it names, by someone other than its approver. */
  function ProposeFor(r: ExecuteRequest, c: Option<string>, quantity: int): Action
    requires r.approval.Some? && |r.proposalId| >= 5
  {
    Propose(Some(SmallShare(r.proposalId[5..], r.proposalId[5..], quantity)), true, r.correlationId,
            Some(Another(Approver(r.approval.value, c))))
  }

  /** The last instant at which the approval of a request stands. */
  function InTime(r: ExecuteRequest): int
    requires r.approval.Some?
  {
    r.approval.value.expiresAt - 1
  }

  /** Look up, check and mark, without interruption. */
  function Ask(r: ExecuteRequest, c: Option<string>): seq<Action>
    requires r.approval.Some?
  {
    [Find(0, r, c), Check(0, InTime(r)), Mark(0)]
  }

  /** A proposal made for a request routes, stands under the id it names, and is fillable in time. */
  lemma MadeToFill(host: Host, r: ExecuteRequest, c: Option<string>, quantity: int) returns (p: RouteProposal)
    requires Presentable(host, r, c) && quantity > 0
    ensures var a := ProposeFor(r, c, quantity); Routed(host, a.request, a.adopted, a.correlationId, a.caller) == Ok(p)
    ensures p.proposalId == r.proposalId && p.quantity == quantity
    ensures Fillable(host, p, r, c, InTime(r))
  {
    var o, who := r.proposalId[5..], Approver(r.approval.value, c);
    AnotherDiffers(host, who);
    SmallShareRoutes(host, o, o, quantity, r.correlationId, Another(who));
    assert r.proposalId == r.proposalId[..5] + o;
    p := Routed(host, Some(SmallShare(o, o, quantity)), true, r.correlationId, Some(Another(who))).value;
  }

  /** Asked without interruption in a state where it can be filled, a request adds its fill. */
  lemma AskFills(host: Host, route: Router, s: State, r: ExecuteRequest, c: Option<string>)
    requires s.handlers == map[] && OwnIds(s.shelf) && r.approval.Some? && Fills(host, s.shelf, r, c, InTime(r))
    ensures var t := RunWith(Stepping(host, route), s, Ask(r, c));
            && t.shelf == s.shelf.Mark(r.proposalId) && t.handlers == map[] && |t.fills| == |s.fills| + 1
            && t.fills[..|s.fills|] == s.fills
            && t.fills[|s.fills|].proposal == s.shelf.proposals[r.proposalId]
            && Presented(host, r, c) == Some(t.fills[|s.fills|].authority)
            && t.fills[|s.fills|].execution.approvalId == r.approval.value.approvalId
            && t.fills[|s.fills|].execution.proposalId == r.proposalId
  {
    RunThree(Stepping(host, route), s, Find(0, r, c), Check(0, InTime(r)), Mark(0));
    UninterruptedExecute(host, route, s, 0, r, c, InTime(r));
    ServeFillsIff(host, s.shelf, r, c, InTime(r));
  }

  /** Two orders are proposed and both filled on one approval. */
  function ReuseRun(r: ExecuteRequest, c: Option<string>, q: ExecuteRequest, d: Option<string>): seq<Action>
    requires r.approval.Some? && q.approval.Some? && |r.proposalId| >= 5 && |q.proposalId| >= 5
  {
    [ProposeFor(r, c, 1), ProposeFor(q, d, 1)] + Ask(r, c) + Ask(q, d)
  }

  /** Under a router that gives two proposals for the two orders, the run ends with both filled. */
  lemma ReuseRunFills(
    host: Host, route: Router, r: ExecuteRequest, c: Option<string>, q: ExecuteRequest, d: Option<string>,
    one: RouteProposal, two: RouteProposal)
    requires Presentable(host, r, c) && Presentable(host, q, d) && r.proposalId != q.proposalId
    requires var a := ProposeFor(r, c, 1); route(a.request, a.adopted, a.correlationId, a.caller) == Ok(one)
    requires var a := ProposeFor(q, d, 1); route(a.request, a.adopted, a.correlationId, a.caller) == Ok(two)
    requires one.proposalId == r.proposalId && Fillable(host, one, r, c, InTime(r))
    requires two.proposalId == q.proposalId && Fillable(host, two, q, d, InTime(q))
    ensures var s := RunWith(Stepping(host, route), START, ReuseRun(r, c, q, d));
            && |s.fills| == 2 && s.fills[0].proposal == one && s.fills[1].proposal == two
            && Presented(host, r, c) == Some(s.fills[0].authority)
                && Presented(host, q, d) == Some(s.fills[1].authority)
            && s.fills[0].execution.approvalId == r.approval.value.approvalId
            && s.fills[1].execution.approvalId == q.approval.value.approvalId
            && s.fills[0].execution.proposalId == r.proposalId && s.fills[1].execution.proposalId == q.proposalId
  {
    var step := Stepping(host, route);
    var first, second := ProposeFor(r, c, 1), ProposeFor(q, d, 1);
    RunConcat(step, START, [first, second], Ask(r, c));
    RunConcat(step, START, [first, second] + Ask(r, c), Ask(q, d));
    RunTwo(step, START, first, second);
    var shelf := Shelf(map[one.proposalId := one, two.proposalId := two], {});
    var s := State(shelf, {one, two}, [], map[]);
    ProposeStep(host, route, START, first.request.value, first.correlationId, first.caller);
    var s1 := State(Shelf(map[one.proposalId := one], {}), {one}, [], map[]);
    assert step(START, first) == s1;
    ProposeStep(host, route, s1, second.request.value, second.correlationId, second.caller);
    assert step(s1, second) == s;
    AskFills(host, route, s, r, c);
    AskFills(host, route, RunWith(step, s, Ask(r, c)), q, d);
  }

  /**
   Which pairs of requests one approval can fill, on every host: some run from the empty store fills both exactly when
   both
   carry that approval, presented by someone, for two different ids that orders can have. Nothing relates the approval
   to
   either proposal.
   */
  lemma RequestsReuseIff(host: Host, r: ExecuteRequest, c: Option<string>, q: ExecuteRequest, d: Option<string>)
    ensures (exists actions: seq<Action>, i: nat, j: nat ::
            FillsBoth(host, Run(host, START, actions), i, j, r, c, q, d)) <==>
            && Presentable(host, r, c) && Presentable(host, q, d) && r.proposalId != q.proposalId
            && r.approval.value.approvalId == q.approval.value.approvalId
  {
    if actions: seq<Action>, i: nat, j: nat :| FillsBoth(host, Run(host, START, actions), i, j, r, c, q, d) {
      FilledWasPresentable(host, actions, i, r, c);
      FilledWasPresentable(host, actions, j, q, d);
      AtMostOneFill(host, actions);
    }
    if && Presentable(host, r, c) && Presentable(host, q, d) && r.proposalId != q.proposalId
       && r.approval.value.approvalId == q.approval.value.approvalId {
      var one := MadeToFill(host, r, c, 1);
      var two := MadeToFill(host, q, d, 1);
      ReuseRunFills(host, Routing(host), r, c, q, d, one, two);
      assert FillsBoth(host, Run(host, START, ReuseRun(r, c, q, d)), 0, 1, r, c, q, d);
    }
  }

  // ---- One approval, two orders; one order, two entries ----

  /** The approval "ap", given by "q" until instant 10, asked for on proposal `id`. */
  function AskFor(id: string): ExecuteRequest { ExecuteRequest(id, "c", Some(ApprovalDto("ap", "q", 0, 10))) }

  lemma AskForPresentable()
    ensures Presentable(PlainHost(), AskFor("prop-A"), None) && Presentable(PlainHost(), AskFor("prop-B"), None)
  {
    assert "q"[0] != ' ' && "prop-A"[5..][0] == 'A' && "prop-B"[5..][0] == 'B';
    assert "prop-A"[..5] == "prop-" && "prop-B"[..5] == "prop-";
  }

  /** Any two presentable requests for different ids on one approval: the run in which both are filled. */
  lemma ReuseFills(host: Host, r: ExecuteRequest, c: Option<string>, q: ExecuteRequest, d: Option<string>)
    requires Presentable(host, r, c) && Presentable(host, q, d) && r.proposalId != q.proposalId
    ensures var s := Run(host, START, ReuseRun(r, c, q, d));
            && |s.fills| == 2
            && s.fills[0].execution.proposalId == r.proposalId && s.fills[1].execution.proposalId == q.proposalId
            && s.fills[0].execution.approvalId == r.approval.value.approvalId
            && s.fills[1].execution.approvalId == q.approval.value.approvalId
  {
    var one := MadeToFill(host, r, c, 1);
    var two := MadeToFill(host, q, d, 1);
    ReuseRunFills(host, Routing(host), r, c, q, d, one, two);
  }

  /** From the empty store, the orders "A" and "B" are proposed and both filled on the approval "ap". */
  lemma OneApprovalTwoFills() returns (host: Host, r: ExecuteRequest, q: ExecuteRequest)
    ensures host == PlainHost() && r == AskFor("prop-A") && q == AskFor("prop-B")
    ensures var s := Run(host, START, ReuseRun(r, None, q, None));
            && |s.fills| == 2
            && s.fills[0].execution.proposalId == "prop-A" && s.fills[1].execution.proposalId == "prop-B"
            && s.fills[0].execution.approvalId == "ap" && s.fills[1].execution.approvalId == "ap"
  {
    host, r, q := PlainHost(), AskFor("prop-A"), AskFor("prop-B");
    AskForPresentable();
    assert r.proposalId[5] != q.proposalId[5];
    ReuseFills(host, r, None, q, None);
  }

  /** An order is proposed, proposed again for twice as much, and asked for. */
  function SavedOverRun(r: ExecuteRequest, c: Option<string>): seq<Action>
    requires r.approval.Some? && |r.proposalId| >= 5
  {
    [ProposeFor(r, c, 1), ProposeFor(r, c, 2)] + Ask(r, c)
  }

  lemma SavedOverRunFills(
    host: Host, route: Router, r: ExecuteRequest, c: Option<string>, one: RouteProposal, two: RouteProposal)
    requires Presentable(host, r, c)
    requires var a := ProposeFor(r, c, 1); route(a.request, a.adopted, a.correlationId, a.caller) == Ok(one)
    requires var a := ProposeFor(r, c, 2); route(a.request, a.adopted, a.correlationId, a.caller) == Ok(two)
    requires one.proposalId == two.proposalId == r.proposalId && Fillable(host, two, r, c, InTime(r))
    ensures var s1 := StateAt(host, route, SavedOverRun(r, c), 1);
            r.proposalId in s1.shelf.proposals && s1.shelf.proposals[r.proposalId] == one
    ensures var s := RunWith(Stepping(host, route), START, SavedOverRun(r, c));
            |s.fills| == 1 && s.fills[0].proposal == two
  {
    var step := Stepping(host, route);
    var first, second := ProposeFor(r, c, 1), ProposeFor(r, c, 2);
    RunConcat(step, START, [first, second], Ask(r, c));
    RunTwo(step, START, first, second);
    RunOne(step, START, first);
    assert SavedOverRun(r, c)[..1] == [first];
    ProposeStep(host, route, START, first.request.value, first.correlationId, first.caller);
    var s1 := State(Shelf(map[r.proposalId := one], {}), {one}, [], map[]);
    assert step(START, first) == s1;
    ProposeStep(host, route, s1, second.request.value, second.correlationId, second.caller);
    var s := State(Shelf(map[r.proposalId := two], {}), {one, two}, [], map[]);
    assert step(s1, second) == s;
    AskFills(host, route, s, r, c);
  }

  /**
   For every presentable request there is a run in which the proposal that stood under its id is replaced by one for
   twice
   the quantity, which is then filled.
   */
  lemma ReplacementIsFilled(host: Host, r: ExecuteRequest, c: Option<string>)
    requires Presentable(host, r, c)
    ensures var s1 := StateAt(host, Routing(host), SavedOverRun(r, c), 1);
            r.proposalId in s1.shelf.proposals && s1.shelf.proposals[r.proposalId].quantity == 1
    ensures var s := Run(host, START, SavedOverRun(r, c));
            |s.fills| == 1 && s.fills[0].execution.quantity == 2 && s.fills[0].execution.proposalId == r.proposalId
  {
    var one := MadeToFill(host, r, c, 1);
    var two := MadeToFill(host, r, c, 2);
    SavedOverRunFills(host, Routing(host), r, c, one, two);
    RunKeeps(host, START, SavedOverRun(r, c));
    var s := Run(host, START, SavedOverRun(r, c));
    assert FillOk(host, s.saved, s.fills[0]);
  }

  /** From the empty store, "prop-A" is reviewed for quantity 1 and filled for quantity 2 on the approval "ap". */
  lemma ReplacementIsFilledExample() returns (host: Host, r: ExecuteRequest)
    ensures host == PlainHost() && r == AskFor("prop-A") && |SavedOverRun(r, None)| == 5
    ensures var reviewed := StateAt(host, Routing(host), SavedOverRun(r, None), 1);
            "prop-A" in reviewed.shelf.proposals && reviewed.shelf.proposals["prop-A"].quantity == 1
    ensures var s := Run(host, START, SavedOverRun(r, None));
            |s.fills| == 1 && s.fills[0].execution.proposalId == "prop-A" && s.fills[0].execution.quantity == 2
  {
    host, r := PlainHost(), AskFor("prop-A");
    AskForPresentable();
    ReplacementIsFilled(host, r, None);
  }
}
