/** The simulated order management system: an approval is checked here before a fill exists. */
module SimulatedOms {
  import opened Prelude
  import opened Platform
  import opened RoutePlanning

  datatype ExecutionAuthorization = ExecutionAuthorization(
    approvalId: string, proposalId: string, correlationId: string, approvedBy: string, approvedAt: int, expiresAt: int)

  datatype RefusalReason =
    | NoAuthorization | AuthorizationExpired | AuthorizationForDifferentProposal
    | SegregationOfDuties | CorrelationMismatch

  datatype SimulatedExecution = SimulatedExecution(
    executionId: string, proposalId: string, orderId: string, correlationId: string, venueCode: string,
    quantity: int, price: real, executedAt: int, approvalId: string)

  function Execute(host: Host, proposal: RouteProposal, authorization: Option<ExecutionAuthorization>, now: int)
    : (r: Result<SimulatedExecution, RefusalReason>)
    ensures r == Err(NoAuthorization) <==> authorization.None?
  {
    if authorization.None? then Err(NoAuthorization) else
      var a := authorization.value;
      if a.proposalId != proposal.proposalId then Err(AuthorizationForDifferentProposal)
      else if a.correlationId != proposal.correlationId then Err(CorrelationMismatch)
      else if now >= a.expiresAt then Err(AuthorizationExpired)
      else if EqualsIgnoreCase(host, a.approvedBy, proposal.proposedBy) then Err(SegregationOfDuties)
      else Ok(SimulatedExecution("exec-" + proposal.proposalId, proposal.proposalId, proposal.orderId,
          proposal.correlationId,
                                 proposal.venueCode, proposal.quantity, proposal.cost.projectedPrice, now,
                                     a.approvalId))
  }

  /**
   Why an order is not filled, given an authorization: the first of these rules it breaks. It is for this proposal; for
   its correlation; not yet expired; and given by someone other than whoever proposed. Breaking none, it is filled with
   the proposal's venue, quantity and price.
   */
  lemma FilledIffNoRuleBroken(host: Host, p: RouteProposal, a: ExecutionAuthorization, now: int)
    ensures var r := Execute(host, p, Some(a), now);
            var mine, related := a.proposalId == p.proposalId, a.correlationId == p.correlationId;
            var live, other := now < a.expiresAt, !EqualsIgnoreCase(host, a.approvedBy, p.proposedBy);
            && (r == Err(AuthorizationForDifferentProposal) <==> !mine)
            && (r == Err(CorrelationMismatch) <==> mine && !related)
            && (r == Err(AuthorizationExpired) <==> mine && related && !live)
            && (r == Err(SegregationOfDuties) <==> mine && related && live && !other)
            && (r.Ok? <==> mine && related && live && other)
            && (r.Ok? ==>
                  var e := r.value;
                  && e.executionId == "exec-" + p.proposalId && e.proposalId == p.proposalId && e.orderId == p.orderId
                  && e.correlationId == p.correlationId && e.venueCode == p.venueCode && e.quantity == p.quantity
                  && e.price == p.cost.projectedPrice && e.executedAt == now && e.approvalId == a.approvalId)
  {
  }
}
