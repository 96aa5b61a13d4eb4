/**
 The approval record, its state machine and the execution gate. Instants are integers, and each
 call is given the instant its clock reads.
 */
module Approvals {
  import opened Prelude
  import opened Platform
  import E = Evidence

  function ComputeHash(host: Host, packet: E.EvidencePacket): string { host.digest(packet) }

  // ---- Records ----

  datatype ApprovalState = PendingApproval | Approved | Rejected | Expired

  datatype RefusalKind =
    | SegregationOfDuties | InvalidTransition | ProposalExpired | NotYetExpired
    | ReasonRequired | ApproverIdentityRequired | ProposerIdentityRequired
    | CorrelationIdRequired | ExpiryNotInFuture | EvidencePacketMismatch
    | NotApproved | InconsistentRecord

  datatype EventType =
    ApprovalRequested | ApprovalDecided | ApprovalExpired | ApprovalRefused | ExecutionAuthorized

  datatype AuditEvent = AuditEvent(
    eventType: EventType,
    correlationId: string,
    approvalId: string,
    actor: Option<string>,
    resultingState: ApprovalState,
    occurredAt: int,
    evidencePacketHash: string,
    refusalKind: Option<RefusalKind>)

  datatype Approval = Approval(
    id: string,
    correlationId: string,
    lane: E.Lane,
    evidencePacket: E.EvidencePacket,
    evidencePacketHash: string,
    state: ApprovalState,
    proposedBy: string,
    decidedBy: Option<string>,
    decisionReason: Option<string>,
    expiresAt: int,
    createdAt: int,
    decidedAt: Option<int>)
  {
    predicate HasPassedExpiry(now: int) { now >= expiresAt }

    predicate VerifyEvidenceIntegrity(host: Host) {
      EqualsIgnoreCase(host, ComputeHash(host, evidencePacket), evidencePacketHash)
    }

    function WithDecision(next: ApprovalState, who: Option<string>, reason: Option<string>, at: int): Approval {
      this.(state := next, decidedBy := who, decisionReason := reason, decidedAt := Some(at))
    }
  }

  datatype Command =
    | Approve(who: string, reason: Option<string>, acknowledged: Option<string>)
    | Reject(who: string, why: string, acknowledged: Option<string>)
    | Expire
  {
    function Actor(): Option<string> { if Expire? then None else Some(who) }
  }

  datatype Transition =
    | Accepted(approval: Approval, event: AuditEvent)
    | Refused(kind: RefusalKind, event: AuditEvent)

  // ---- Creation ----

  function RequestedEvent(a: Approval): AuditEvent {
    AuditEvent(ApprovalRequested, a.correlationId, a.id, Some(a.proposedBy), PendingApproval, a.createdAt,
        a.evidencePacketHash, None)
  }

  function Propose(
    host: Host, id: string, lane: E.Lane, packet: E.EvidencePacket, who: string, expiresAt: int, now: int)
    : Result<(Approval, AuditEvent), RefusalKind>
  {
    if IsBlank(host, packet.correlationId) then Err(CorrelationIdRequired)
    else if IsBlank(host, who) then Err(ProposerIdentityRequired)
    else if expiresAt <= now then Err(ExpiryNotInFuture)
    else
      var a := Approval(id, packet.correlationId, lane, packet, ComputeHash(host, packet), PendingApproval,
                        who, None, None, expiresAt, now, None);
      Ok((a, RequestedEvent(a)))
  }

  /** Reading a stored record back: structural contradictions are refused, nothing is repaired. */
  function Rehydrate(host: Host, id: string, correlationId: string, lane: E.Lane, packet: E.EvidencePacket,
                     hash: string, state: ApprovalState, proposedBy: string, decidedBy: Option<string>,
                     reason: Option<string>, expiresAt: int, createdAt: int, decidedAt: Option<int>)
    : Result<Approval, RefusalKind>
  {
    if IsBlank(host, correlationId) then Err(CorrelationIdRequired)
    else if IsBlank(host, proposedBy) then Err(ProposerIdentityRequired)
    else if
      || (state.Approved? && IsBlankOrNull(host, decidedBy))
      || (state.Rejected? && IsBlankOrNull(host, decidedBy))
      || (state.Rejected? && IsBlankOrNull(host, reason))
      || (state.Expired? && !IsBlankOrNull(host, decidedBy))
      || (state.PendingApproval? && !IsBlankOrNull(host, decidedBy))
      || (!state.PendingApproval? && decidedAt.None?)
    then Err(InconsistentRecord)
    else Ok(Approval(id, correlationId, lane, packet, hash, state, proposedBy, decidedBy, reason, expiresAt, createdAt,
        decidedAt))
  }

  // ---- The state machine ----

  function Refuse(a: Approval, command: Command, now: int, kind: RefusalKind): Transition {
    Refused(kind, AuditEvent(ApprovalRefused, a.correlationId, a.id, command.Actor(), a.state, now,
        a.evidencePacketHash, Some(kind)))
  }

  function FromPending(host: Host, a: Approval, command: Command, now: int): Transition {
    if command.Expire? then
      if now < a.expiresAt then Refuse(a, command, now, NotYetExpired)
      else
        Accepted(a.WithDecision(Expired, None, None, now),
                 AuditEvent(ApprovalExpired, a.correlationId, a.id, None, Expired, now, a.evidencePacketHash, None))
    else
      var reason := if command.Approve? then command.reason else Some(command.why);
      var target := if command.Approve? then Approved else Rejected;
      if IsBlank(host, command.who) then Refuse(a, command, now, ApproverIdentityRequired)
      else if now >= a.expiresAt then Refuse(a, command, now, ProposalExpired)
      else if IsSameIdentity(host, command.who, a.proposedBy) then Refuse(a, command, now, SegregationOfDuties)
      else if target.Rejected? && IsBlankOrNull(host, reason) then Refuse(a, command, now, ReasonRequired)
      else if !a.VerifyEvidenceIntegrity(host) then Refuse(a, command, now, EvidencePacketMismatch)
      else if command.acknowledged.Some?
          && !EqualsIgnoreCase(host, command.acknowledged.value, a.evidencePacketHash) then
        Refuse(a, command, now, EvidencePacketMismatch)
      else
        var kept := if IsBlankOrNull(host, reason) then None else reason;
        Accepted(a.WithDecision(target, Some(command.who), kept, now),
                 AuditEvent(ApprovalDecided, a.correlationId, a.id, Some(command.who), target, now,
                     a.evidencePacketHash, None))
  }

  function Apply(host: Host, a: Approval, command: Command, now: int): Transition {
    match a.state
    case PendingApproval => FromPending(host, a, command, now)
    case Expired => if command.Expire? then Refuse(a, command, now, InvalidTransition)
        else Refuse(a, command, now, ProposalExpired)
    case _ => Refuse(a, command, now, InvalidTransition)
  }

  // ---- The gate before execution ----

  datatype ExecutionAuthorization = ExecutionAuthorization(
    approvalId: string, correlationId: string, lane: E.Lane, proposedAction: E.ProposedAction,
    evidencePacketHash: string, approvedBy: string, proposedBy: string, approvedAt: int, authorizedAt: int)

  datatype GateAnswer =
    | Authorized(authorization: ExecutionAuthorization, event: AuditEvent)
    | NotAuthorized(kind: RefusalKind, event: AuditEvent)

  function RefuseExecution(a: Approval, now: int, kind: RefusalKind): GateAnswer {
    NotAuthorized(kind, AuditEvent(ApprovalRefused, a.correlationId, a.id, a.decidedBy, a.state, now,
        a.evidencePacketHash, Some(kind)))
  }

  function Authorize(host: Host, a: Approval, now: int): GateAnswer {
    if a.state.Expired? then RefuseExecution(a, now, ProposalExpired)
    else if !a.state.Approved? then RefuseExecution(a, now, NotApproved)
    else if IsBlankOrNull(host, a.decidedBy) then RefuseExecution(a, now, ApproverIdentityRequired)
    else if IsSameIdentity(host, a.decidedBy.value, a.proposedBy) then RefuseExecution(a, now, SegregationOfDuties)
    else if !a.VerifyEvidenceIntegrity(host) then RefuseExecution(a, now, EvidencePacketMismatch)
    else
      Authorized(
        ExecutionAuthorization(a.id, a.correlationId, a.lane, a.evidencePacket.proposedAction, a.evidencePacketHash,
                               a.decidedBy.value, a.proposedBy, if a.decidedAt.Some? then a.decidedAt.value
                                   else a.createdAt, now),
        AuditEvent(ExecutionAuthorized, a.correlationId, a.id, a.decidedBy, a.state, now, a.evidencePacketHash, None))
  }

  // ---- What every record keeps ----

  /** The fields no transition touches. */
  predicate SameProposal(a: Approval, b: Approval) {
    b == a.(state := b.state, decidedBy := b.decidedBy, decisionReason := b.decisionReason, decidedAt := b.decidedAt)
  }

  /** What holds of every record the domain authors. */
  ghost predicate Sound(host: Host, a: Approval) {
    && !IsBlank(host, a.correlationId)
    && !IsBlank(host, a.proposedBy)
    && a.createdAt < a.expiresAt
    && a.evidencePacketHash == ComputeHash(host, a.evidencePacket)
    && match a.state
       case PendingApproval => a.decidedBy.None? && a.decisionReason.None? && a.decidedAt.None?
       case Expired => a.decidedBy.None? && a.decisionReason.None? && a.decidedAt.Some?
           && a.decidedAt.value >= a.expiresAt
       case _ =>
         && a.decidedBy.Some? && !IsBlank(host, a.decidedBy.value)
         && !IsSameIdentity(host, a.decidedBy.value, a.proposedBy)
         && a.decidedAt.Some? && a.decidedAt.value < a.expiresAt
         && (a.state.Rejected? ==> !IsBlankOrNull(host, a.decisionReason))
  }

  lemma ProposeSound(
    host: Host, id: string, lane: E.Lane, packet: E.EvidencePacket, who: string, expiresAt: int, now: int)
    requires Propose(host, id, lane, packet, who, expiresAt, now).Ok?
    ensures var a := Propose(host, id, lane, packet, who, expiresAt, now).value.0;
            Sound(host, a) && a.state.PendingApproval? && a.id == id && a.evidencePacket == packet
  {
  }

  /** A transition is the one way out of pending, keeps the proposal, and its event says what it did. */
  ghost predicate GoodTransition(host: Host, a: Approval, t: Transition, now: int) {
    && (t.Accepted? ==> a.state.PendingApproval? && !t.approval.state.PendingApproval?
                        && Sound(host, t.approval) && SameProposal(a, t.approval)
                        && t.approval.decidedAt == Some(now)
                        && t.event == OutcomeEvent(t.approval))
    && (t.Refused? ==> t.event.eventType.ApprovalRefused? && t.event.resultingState == a.state
                       && t.event.approvalId == a.id && t.event.refusalKind == Some(t.kind))
  }

  lemma RefuseGood(host: Host, a: Approval, command: Command, now: int, kind: RefusalKind)
    ensures GoodTransition(host, a, Refuse(a, command, now, kind), now)
  {
  }

  lemma ExpiryGood(host: Host, a: Approval, now: int)
    requires Sound(host, a) && a.state.PendingApproval? && now >= a.expiresAt
    ensures GoodTransition(host, a, FromPending(host, a, Expire, now), now)
  {
  }

  lemma DecisionGood(host: Host, a: Approval, state: ApprovalState, who: string, reason: Option<string>, now: int)
    requires Sound(host, a) && a.state.PendingApproval? && (state.Approved? || state.Rejected?)
    requires !IsBlank(host, who) && now < a.expiresAt && !IsSameIdentity(host, who, a.proposedBy)
    requires state.Rejected? ==> !IsBlankOrNull(host, reason)
    ensures var b := a.WithDecision(state, Some(who), reason, now);
            GoodTransition(host, a, Accepted(b, OutcomeEvent(b)), now)
  {
  }

  lemma FromPendingGood(host: Host, a: Approval, command: Command, now: int)
    requires Sound(host, a) && a.state.PendingApproval? && !command.Expire?
    ensures GoodTransition(host, a, FromPending(host, a, command, now), now)
  {
    var t := FromPending(host, a, command, now);
    if t.Refused? {
      RefuseGood(host, a, command, now, t.kind);
    } else {
      DecisionGood(host, a, t.approval.state, command.who, t.approval.decisionReason, now);
    }
  }

  lemma ApplySound(host: Host, a: Approval, command: Command, now: int)
    requires Sound(host, a)
    ensures GoodTransition(host, a, Apply(host, a, command, now), now)
  {
    if !a.state.PendingApproval? {
      RefuseGood(host, a, command, now, Apply(host, a, command, now).kind);
    } else if !command.Expire? {
      FromPendingGood(host, a, command, now);
    } else if now < a.expiresAt {
      RefuseGood(host, a, command, now, NotYetExpired);
    } else {
      ExpiryGood(host, a, now);
    }
  }

  /** The event that must stand behind a decided or expired record. */
  function OutcomeEvent(a: Approval): AuditEvent {
    AuditEvent(if a.state.Expired? then ApprovalExpired
        else ApprovalDecided, a.correlationId, a.id, a.decidedBy, a.state,
               if a.decidedAt.Some? then a.decidedAt.value else 0, a.evidencePacketHash, None)
  }

  // ---- What each command does, and why it may be refused ----

  /** The reason a command carries. */
  function GivenReason(command: Command): Option<string> {
    match command
    case Approve(_, reason, _) => reason
    case Reject(_, why, _) => Some(why)
    case Expire => None
  }

  /**
   The record an accepted command leaves: approved or rejected by whoever decided, with the reason given unless it is
   blank; or expired, decided by nobody and for no reason. The rest is as it was.
   */
  lemma AcceptedDecisionIs(host: Host, a: Approval, command: Command, now: int)
    requires Apply(host, a, command, now).Accepted?
    ensures var b, given := Apply(host, a, command, now).approval, GivenReason(command);
            && SameProposal(a, b) && b.decidedAt == Some(now)
            && (b.state.Approved? <==> command.Approve?) && (b.state.Rejected? <==> command.Reject?)
            && (b.state.Expired? <==> command.Expire?)
            && b.decidedBy == (if command.Expire? then None else Some(command.who))
            && (given.Some? && !IsBlank(host, given.value) ==> b.decisionReason == given)
            && (given.None? || IsBlank(host, given.value) ==> b.decisionReason == None)
  {
  }

  /**
   Why a command is refused, on the record and the command: the first of these that holds. A command on a record that is
   no longer pending is invalid, or late on one that expired; an expiry before the deadline is early; a decision needs a
   named decider, before the deadline, other than the proposer; a rejection needs a reason; the packet must still be the
   one that was hashed, and the hash acknowledged, if any, that one.
   */
  predicate RefusalHolds(host: Host, a: Approval, command: Command, now: int, kind: RefusalKind) {
    var pending := a.state == PendingApproval;
    var decision := command != Expire;
    var named := decision && !IsBlank(host, command.who);
    var timely := now < a.expiresAt;
    var other := decision && !IsSameIdentity(host, command.who, a.proposedBy);
    var reasoned := command.Reject? ==> !IsBlank(host, command.why);
    match kind
    case InvalidTransition =>
      a.state == Approved || a.state == Rejected || (a.state == Expired && !decision)
    case NotYetExpired => pending && !decision && timely
    case ApproverIdentityRequired => pending && decision && !named
    case ProposalExpired => decision && ((pending && named && !timely) || a.state == Expired)
    case SegregationOfDuties => pending && named && timely && !other
    case ReasonRequired => pending && named && timely && other && !reasoned
    case EvidencePacketMismatch =>
      && pending && named && timely && other && reasoned
      && (!EqualsIgnoreCase(host, host.digest(a.evidencePacket), a.evidencePacketHash)
          || (command.acknowledged.Some? && !EqualsIgnoreCase(host, command.acknowledged.value, a.evidencePacketHash)))
    case _ => false
  }

  /** Each refusal is given exactly when it holds, so a command is accepted exactly when none does. */
  lemma RefusedExactlyWhen(host: Host, a: Approval, command: Command, now: int, kind: RefusalKind)
    ensures Apply(host, a, command, now).Refused? && Apply(host, a, command, now).kind == kind
       <==> RefusalHolds(host, a, command, now, kind)
  {
  }

  /** What an attempt leaves on the trail: who tried what on which record, when, and how it ended. */
  lemma EventSays(host: Host, a: Approval, command: Command, now: int)
    ensures var t := Apply(host, a, command, now);
            var e := t.event;
            && e.correlationId == a.correlationId && e.approvalId == a.id && e.occurredAt == now
            && e.evidencePacketHash == a.evidencePacketHash
            && e.actor == (if command.Expire? then None else Some(command.who))
            && (t.Refused? ==>
                  && e.eventType == ApprovalRefused && e.resultingState == a.state && e.refusalKind == Some(t.kind))
            && (t.Accepted? ==>
                  && e.eventType == (if command.Expire? then ApprovalExpired else ApprovalDecided)
                  && e.resultingState == t.approval.state && e.refusalKind == None)
  {
  }

  /** Why a proposal is refused, and the record an accepted one is. */
  lemma ProposeSays(
    host: Host, id: string, lane: E.Lane, packet: E.EvidencePacket, who: string, expiresAt: int, now: int)
    ensures var r := Propose(host, id, lane, packet, who, expiresAt, now);
            && (r == Err(CorrelationIdRequired) <==> IsBlank(host, packet.correlationId))
            && (r == Err(ProposerIdentityRequired) <==> !IsBlank(host, packet.correlationId) && IsBlank(host, who))
            && (r == Err(ExpiryNotInFuture) <==>
                  !IsBlank(host, packet.correlationId) && !IsBlank(host, who) && expiresAt <= now)
            && (r.Ok? <==> !IsBlank(host, packet.correlationId) && !IsBlank(host, who) && now < expiresAt)
            && (r.Ok? ==>
                  var a := r.value.0;
                  && a.id == id && a.lane == lane && a.evidencePacket == packet
                      && a.correlationId == packet.correlationId
                  && a.evidencePacketHash == host.digest(packet) && a.proposedBy == who
                  && a.createdAt == now && a.expiresAt == expiresAt && a.state.PendingApproval?
                  && a.decidedBy.None? && a.decisionReason.None? && a.decidedAt.None?)
  {
  }

  /** Why a stored record is not read back; one that is reads as it was stored. */
  lemma RehydrateSays(host: Host, id: string, correlationId: string, lane: E.Lane, packet: E.EvidencePacket,
                      hash: string, state: ApprovalState, proposedBy: string, decidedBy: Option<string>,
                      reason: Option<string>, expiresAt: int, createdAt: int, decidedAt: Option<int>)
    ensures var r := Rehydrate(host, id, correlationId, lane, packet, hash, state, proposedBy, decidedBy, reason,
                               expiresAt, createdAt, decidedAt);
            var named := decidedBy.Some? && !IsBlank(host, decidedBy.value);
            var reasoned := reason.Some? && !IsBlank(host, reason.value);
            var identified := !IsBlank(host, correlationId) && !IsBlank(host, proposedBy);
            var consistent := && (named <==> state == Approved || state == Rejected)
                              && (state == Rejected ==> reasoned)
                              && (state != PendingApproval ==> decidedAt != None);
            && (r == Err(CorrelationIdRequired) <==> IsBlank(host, correlationId))
            && (r == Err(ProposerIdentityRequired) <==> !IsBlank(host, correlationId) && IsBlank(host, proposedBy))
            && (r == Err(InconsistentRecord) <==> identified && !consistent)
            && (r.Ok? <==> identified && consistent)
            && (r.Ok? ==>
                  var a := r.value;
                  && a.id == id && a.correlationId == correlationId && a.lane == lane && a.evidencePacket == packet
                  && a.evidencePacketHash == hash && a.state == state && a.proposedBy == proposedBy
                  && a.decidedBy == decidedBy && a.decisionReason == reason && a.expiresAt == expiresAt
                  && a.createdAt == createdAt && a.decidedAt == decidedAt)
  {
  }

  /** Why the gate refuses: expired; not approved; no decider; the proposer decided; the packet changed. */
  lemma GateSays(host: Host, a: Approval, now: int)
    ensures var g := Authorize(host, a, now);
            var decided := a.decidedBy.Some? && !IsBlank(host, a.decidedBy.value);
            var other := decided && !IsSameIdentity(host, a.decidedBy.value, a.proposedBy);
            var same := EqualsIgnoreCase(host, host.digest(a.evidencePacket), a.evidencePacketHash);
            && (g.NotAuthorized? && g.kind == ProposalExpired <==> a.state == Expired)
            && (g.NotAuthorized? && g.kind == NotApproved <==> a.state == PendingApproval || a.state == Rejected)
            && (g.NotAuthorized? && g.kind == ApproverIdentityRequired <==> a.state == Approved && !decided)
            && (g.NotAuthorized? && g.kind == SegregationOfDuties <==> a.state == Approved && decided && !other)
            && (g.NotAuthorized? && g.kind == EvidencePacketMismatch <==> a.state == Approved && other && !same)
            && (g.Authorized? <==> a.state == Approved && other && same)
            && (g.Authorized? ==>
                  && g.authorization.approvalId == a.id && g.authorization.correlationId == a.correlationId
                  && g.authorization.lane == a.lane && g.authorization.proposedAction == a.evidencePacket.proposedAction
                  && Some(g.authorization.approvedBy) == a.decidedBy && g.authorization.proposedBy == a.proposedBy
                  && g.authorization.authorizedAt == now
                      && (a.decidedAt.Some? ==> Some(g.authorization.approvedAt) == a.decidedAt))
  {
  }

  // ---- Runs of commands on one record ----

  datatype Attempt = Attempt(command: Command, now: int)

  /** Attempts one after another; a refused one leaves the record as it was. */
  function Run(host: Host, a: Approval, attempts: seq<Attempt>): Approval
    decreases |attempts|
  {
    if attempts == [] then a else
      var t := Apply(host, a, attempts[0].command, attempts[0].now);
      Run(host, if t.Accepted? then t.approval else a, attempts[1..])
  }

  lemma {:induction false} RunSound(host: Host, a: Approval, attempts: seq<Attempt>)
    requires Sound(host, a)
    ensures Sound(host, Run(host, a, attempts)) && SameProposal(a, Run(host, a, attempts))
    ensures !a.state.PendingApproval? ==> Run(host, a, attempts) == a
    decreases |attempts|
  {
    if attempts != [] {
      ApplySound(host, a, attempts[0].command, attempts[0].now);
      var t := Apply(host, a, attempts[0].command, attempts[0].now);
      RunSound(host, if t.Accepted? then t.approval else a, attempts[1..]);
    }
  }

  /** Equal strings are equal ignoring case, so a pinned hash verifies. */
  lemma SoundRecordVerifies(host: Host, a: Approval)
    requires Sound(host, a)
    ensures a.VerifyEvidenceIntegrity(host)
  {
  }

  /**
   Whatever is attempted on a proposal, and whenever, the record that results reads back field by
   field unchanged, and the gate authorises it at an instant exactly when it is Approved: expiry
   after the decision makes no difference.
   */
  lemma ReachableRecordsReadBackAndGate(host: Host, id: string, lane: E.Lane, packet: E.EvidencePacket, who: string,
                                        expiresAt: int, created: int, attempts: seq<Attempt>, now: int)
    requires Propose(host, id, lane, packet, who, expiresAt, created).Ok?
    ensures var a := Run(host, Propose(host, id, lane, packet, who, expiresAt, created).value.0, attempts);
            && Rehydrate(host, a.id, a.correlationId, a.lane, a.evidencePacket, a.evidencePacketHash, a.state,
                a.proposedBy,
                         a.decidedBy, a.decisionReason, a.expiresAt, a.createdAt, a.decidedAt) == Ok(a)
            && (Authorize(host, a, now).Authorized? <==> a.state.Approved?)
            && (a.state.Approved? ==>
                  var g := Authorize(host, a, now).authorization;
                  && g.approvalId == id && g.proposedAction == packet.proposedAction
                  && g.evidencePacketHash == ComputeHash(host, packet)
                  && !IsSameIdentity(host, g.approvedBy, who) && created < expiresAt && g.approvedAt < expiresAt)
  {
    var p := Propose(host, id, lane, packet, who, expiresAt, created).value.0;
    ProposeSound(host, id, lane, packet, who, expiresAt, created);
    RunSound(host, p, attempts);
    SoundRecordVerifies(host, Run(host, p, attempts));
  }

  /** How many of the attempts are accepted. */
  function AcceptedCount(host: Host, a: Approval, attempts: seq<Attempt>): nat
    decreases |attempts|
  {
    if attempts == [] then 0 else
      var t := Apply(host, a, attempts[0].command, attempts[0].now);
      if t.Accepted? then 1 + AcceptedCount(host, t.approval, attempts[1..]) else AcceptedCount(host, a, attempts[1..])
  }

  /** At most one attempt in any run is accepted, and exactly one when the record has left pending. */
  lemma {:induction false} DecidedOnce(host: Host, a: Approval, attempts: seq<Attempt>)
    requires Sound(host, a)
    ensures AcceptedCount(host, a, attempts) ==
            if a.state.PendingApproval? && !Run(host, a, attempts).state.PendingApproval? then 1 else 0
    decreases |attempts|
  {
    if attempts != [] {
      ApplySound(host, a, attempts[0].command, attempts[0].now);
      var t := Apply(host, a, attempts[0].command, attempts[0].now);
      var b := if t.Accepted? then t.approval else a;
      DecidedOnce(host, b, attempts[1..]);
      RunSound(host, b, attempts[1..]);
    }
  }

  /** A decision on a pending proposal is refused as expired exactly when a named decider comes too late. */
  lemma LateDecisionRefused(host: Host, a: Approval, command: Command, now: int)
    requires a.state.PendingApproval? && !command.Expire?
    ensures var t := Apply(host, a, command, now);
            t.Refused? && t.kind.ProposalExpired? <==> !IsBlank(host, command.who) && a.HasPassedExpiry(now)
  {
  }

  /** Before the deadline someone can decide and the expiry job cannot; from it on, the other way round. */
  lemma DeadlineDivides(host: Host, a: Approval, approver: string, now: int)
    requires Sound(host, a) && a.state.PendingApproval?
    requires !IsBlank(host, approver) && !IsSameIdentity(host, approver, a.proposedBy)
    ensures Apply(host, a, Approve(approver, None, None), now).Accepted? <==> !a.HasPassedExpiry(now)
    ensures Apply(host, a, Expire, now).Accepted? <==> a.HasPassedExpiry(now)
  {
    SoundRecordVerifies(host, a);
  }

  // ---- Evidence that changed after it was pinned ----

  /** Two different texts whose digests differ at most in letter case. */
  ghost predicate Collide(sha256Hex: string -> string, host: Host, x: string, y: string) {
    x != y && EqualsIgnoreCase(host, sha256Hex(x), sha256Hex(y))
  }

  /**
   A record whose packet was replaced verifies exactly when the canonical text is the one pinned, or collides with it.
   */
  lemma VerifiesIffSameText(
    sha256Hex: string -> string, upper: char -> char, isSpace: char -> bool, a: Approval, packet: E.EvidencePacket)
    requires a.evidencePacketHash == ComputeHash(Hashing(sha256Hex, upper, isSpace), a.evidencePacket)
    ensures var host := Hashing(sha256Hex, upper, isSpace);
            var x, y := E.CanonicalForm(packet), E.CanonicalForm(a.evidencePacket);
            a.(evidencePacket := packet).VerifyEvidenceIntegrity(host) <==> x == y || Collide(sha256Hex, host, x, y)
  {
    var host := Hashing(sha256Hex, upper, isSpace);
    assert host.digest(packet) == sha256Hex(E.CanonicalForm(packet));
    assert host.digest(a.evidencePacket) == sha256Hex(E.CanonicalForm(a.evidencePacket));
  }

  /**
   Tampering shows: barring a collision, no decision is accepted on, and no execution authorised by, a sound record
   whose packet was replaced by one with other evidence.
   */
  lemma ReplacedEvidenceIsRefused(
    sha256Hex: string -> string, upper: char -> char, isSpace: char -> bool, a: Approval, packet: E.EvidencePacket,
    command: Command, now: int)
    requires Sound(Hashing(sha256Hex, upper, isSpace), a) && !E.SameEvidence(packet, a.evidencePacket)
    requires !Collide(sha256Hex, Hashing(sha256Hex, upper, isSpace), E.CanonicalForm(packet),
            E.CanonicalForm(a.evidencePacket))
    ensures !Authorize(Hashing(sha256Hex, upper, isSpace), a.(evidencePacket := packet), now).Authorized?
    ensures !command.Expire? ==>
              Apply(Hashing(sha256Hex, upper, isSpace), a.(evidencePacket := packet), command, now).Refused?
  {
    VerifiesIffSameText(sha256Hex, upper, isSpace, a, packet);
    if E.CanonicalForm(packet) == E.CanonicalForm(a.evidencePacket) {
      E.CanonicalFormDeterminesEvidence(packet, a.evidencePacket);
    }
    RefusedUnlessVerified(Hashing(sha256Hex, upper, isSpace), a.(evidencePacket := packet), command, now);
  }

  lemma RefusedUnlessVerified(host: Host, a: Approval, command: Command, now: int)
    requires !a.VerifyEvidenceIntegrity(host)
    ensures !Authorize(host, a, now).Authorized?
    ensures !command.Expire? ==> Apply(host, a, command, now).Refused?
  {
  }
}
