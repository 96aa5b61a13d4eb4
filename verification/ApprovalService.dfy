/**
 The approvals service: the in-memory store, its two writing handlers, and what an unbroken run of
 each handler does to the store as a value.
 */
module ApprovalService {
  import opened Prelude
  import opened Platform
  import opened Approvals
  import E = Evidence
  import Numerals

  /** What the store holds. */
  datatype World = World(approvals: map<string, Approval>, audit: seq<AuditEvent>) {
    function Add(a: Approval): World { if a.id in approvals then this else this.(approvals := approvals[a.id := a]) }

    function Put(a: Approval): World { this.(approvals := approvals[a.id := a]) }

    function Append(e: AuditEvent): World { this.(audit := audit + [e]) }
  }

  const EMPTY := World(map[], [])

  // ---- Requests and answers ----

  /** Body of POST /v1/approvals; `caller` is the object id in the validated token, if any. */
  datatype CreateRequest = CreateRequest(
    namesIdentity: bool, lane: E.Lane, packet: Option<E.EvidencePacket>, expiresAt: Option<int>)

  datatype DecisionRequest = DecisionRequest(namesIdentity: bool, decision: Option<string>, reason: Option<string>)

  /** HTTP status of a refused decision. */
  function StatusFor(kind: RefusalKind): nat {
    match kind
    case SegregationOfDuties => 409
    case InvalidTransition => 409
    case NotYetExpired => 409
    case ProposalExpired => 410
    case _ => 400
  }

  /** The status the refusal itself publishes (ApprovalRefusal.StatusCode). */
  function PublishedStatus(kind: RefusalKind): nat {
    match kind
    case ProposalExpired => 410
    case SegregationOfDuties => 409
    case InvalidTransition => 409
    case NotYetExpired => 409
    case EvidencePacketMismatch => 409
    case NotApproved => 409
    case InconsistentRecord => 409
    case _ => 400
  }

  /** The proposal a create request asks for, or the status that turns it away. */
  function Proposal(host: Host, request: Option<CreateRequest>, caller: Option<string>, id: string, now: int)
    : Result<(Approval, AuditEvent), nat>
  {
    if request.None? then Err(400)
    else if request.value.namesIdentity then Err(400)
    else if IsBlankOrNull(host, caller) then Err(403)
    else if request.value.packet.None? then Err(400)
    else if request.value.expiresAt.None? then Err(400)
    else
      match Propose(host, id, request.value.lane, request.value.packet.value, caller.value,
          request.value.expiresAt.value, now)
      case Err(kind) => Err(StatusFor(kind))
      case Ok(p) => Ok(p)
  }

  /**
   The command a decision request puts to the record it read, or the status that turns it away. The
   expiry command is asked for here and nowhere else.
   */
  function Asked(
    host: Host, a: Approval, request: Option<DecisionRequest>, caller: Option<string>, checked: int): Result<Command,
    nat> {
    var decision := if request.Some? then request.value.decision else None;
    var reason := if request.Some? then request.value.reason else None;
    if request.Some? && request.value.namesIdentity then Err(400)
    else if IsBlankOrNull(host, caller) then Err(403)
    else if a.HasPassedExpiry(checked) && a.state.PendingApproval? then Ok(Expire)
    else if decision.Some? && EqualsIgnoreCase(host, decision.value, "Rejected") then
      Ok(Reject(caller.value, if reason.Some? then reason.value else "", None))
    else if decision.Some? && EqualsIgnoreCase(host, decision.value, "Approved") then
      Ok(Approve(caller.value, reason, None))
    else Err(400)
  }

  // ---- Unbroken handler runs ----

  function Create(
    host: Host, w: World, request: Option<CreateRequest>, caller: Option<string>, id: string, now: int): (World, nat) {
    match Proposal(host, request, caller, id, now)
    case Err(status) => (w, status)
    case Ok((a, event)) => (w.Add(a).Append(event), 201)
  }

  function Settle(w: World, t: Transition): World {
    if t.Accepted? then w.Put(t.approval).Append(t.event) else w.Append(t.event)
  }

  /** The two clock readings are the expiry check's and the domain's. */
  function Decide(
    host: Host, w: World, id: string, request: Option<DecisionRequest>, caller: Option<string>, checked: int,
    applied: int): (World, nat) {
    if id !in w.approvals then (w, 404) else
      match Asked(host, w.approvals[id], request, caller, checked)
      case Err(status) => (w, status)
      case Ok(command) =>
        var t := Apply(host, w.approvals[id], command, applied);
        (Settle(w, t), if command.Expire? then 410 else if t.Accepted? then 200 else StatusFor(t.kind))
  }

  // ---- The store and the handlers as they are written ----

  class InMemoryApprovalStore {
    var approvals: map<string, Approval>
    var audit: seq<AuditEvent>

    ghost function Value(): World
      reads this
    {
      World(approvals, audit)
    }

    constructor ()
      ensures Value() == EMPTY
    {
      approvals, audit := map[], [];
    }

    method GetAsync(id: string) returns (a: Option<Approval>)
      ensures a == if id in approvals then Some(approvals[id]) else None
    {
      if id in approvals { a := Some(approvals[id]); } else { a := None; }
    }

    method CreateAsync(a: Approval) returns (added: bool)
      modifies this
      ensures added == (a.id !in old(approvals))
      ensures Value() == old(Value()).Add(a)
    {
      added := a.id !in approvals;
      if added { approvals := approvals[a.id := a]; }
    }

    method UpdateAsync(a: Approval)
      modifies this
      ensures Value() == old(Value()).Put(a)
    {
      approvals := approvals[a.id := a];
    }

    method AppendAuditAsync(e: AuditEvent)
      modifies this
      ensures Value() == old(Value()).Append(e)
    {
      audit := audit + [e];
    }

    /** Events of one correlation id, in append order. */
    method AuditTrailAsync(correlationId: string) returns (trail: seq<AuditEvent>)
      ensures trail == Filter(HasCorrelation(correlationId), audit)
    {
      trail := [];
      for i := 0 to |audit|
        invariant trail == Filter(HasCorrelation(correlationId), audit[..i])
      {
        assert audit[..i + 1] == audit[..i] + [audit[i]];
        FilterConcat(HasCorrelation(correlationId), audit[..i], [audit[i]]);
        if audit[i].correlationId == correlationId { trail := trail + [audit[i]]; }
      }
      assert audit[..|audit|] == audit;
    }
  }

  function HasCorrelation(correlationId: string): AuditEvent -> bool {
    (e: AuditEvent) => e.correlationId == correlationId
  }

  method HandleCreate(
    host: Host, store: InMemoryApprovalStore, request: Option<CreateRequest>, caller: Option<string>, id: string,
    now: int)
    returns (status: nat)
    modifies store
    ensures (store.Value(), status) == Create(host, old(store.Value()), request, caller, id, now)
  {
    if request.None? { return 400; }
    if request.value.namesIdentity { return 400; }
    if IsBlankOrNull(host, caller) { return 403; }
    if request.value.packet.None? { return 400; }
    if request.value.expiresAt.None? { return 400; }
    var result := Propose(host, id, request.value.lane, request.value.packet.value, caller.value,
        request.value.expiresAt.value, now);
    if result.Err? { return StatusFor(result.error); }
    var added := store.CreateAsync(result.value.0);
    store.AppendAuditAsync(result.value.1);
    return 201;
  }

  method HandleDecide(
    host: Host, store: InMemoryApprovalStore, id: string, request: Option<DecisionRequest>, caller: Option<string>,
                      checked: int, applied: int) returns (status: nat)
    modifies store
    ensures (store.Value(), status) == Decide(host, old(store.Value()), id, request, caller, checked, applied)
  {
    var found := store.GetAsync(id);
    if found.None? { return 404; }
    var a := found.value;
    if request.Some? && request.value.namesIdentity { return 400; }
    if IsBlankOrNull(host, caller) { return 403; }

    if a.HasPassedExpiry(checked) && a.state.PendingApproval? {
      var expiry := Apply(host, a, Expire, applied);
      if expiry.Accepted? { store.UpdateAsync(expiry.approval); }
      store.AppendAuditAsync(expiry.event);
      return 410;
    }

    var decision := if request.Some? then request.value.decision else None;
    var reason := if request.Some? then request.value.reason else None;
    var result: Option<Transition> :=
      if decision.Some? && EqualsIgnoreCase(host, decision.value, "Rejected") then
        Some(Apply(host, a, Reject(caller.value, if reason.Some? then reason.value else "", None), applied))
      else if decision.Some? && EqualsIgnoreCase(host, decision.value, "Approved") then
        Some(Apply(host, a, Approve(caller.value, reason, None), applied))
      else None;
    if result.None? { return 400; }
    store.AppendAuditAsync(result.value.event);
    if result.value.Refused? { return StatusFor(result.value.kind); }
    store.UpdateAsync(result.value.approval);
    return 200;
  }

  /** 410 is kept for lateness; 409 for a decision that conflicts with the record; everything else is 400. */
  lemma StatusSays(kind: RefusalKind)
    ensures StatusFor(kind) == 410 <==> kind == ProposalExpired
    ensures StatusFor(kind) == 409 <==> kind in {SegregationOfDuties, InvalidTransition, NotYetExpired}
    ensures StatusFor(kind) in {400, 409, 410}
    ensures PublishedStatus(kind) == 410 <==> kind == ProposalExpired
    ensures PublishedStatus(kind) == 409 <==> kind in {SegregationOfDuties, InvalidTransition, NotYetExpired,
                                                       EvidencePacketMismatch, NotApproved, InconsistentRecord}
    ensures PublishedStatus(kind) in {400, 409, 410}
  {
  }

  /** A decision request goes through to the state machine: it names no identity and its caller is known. */
  predicate Heard(host: Host, request: Option<DecisionRequest>, caller: Option<string>) {
    (request.Some? ==> !request.value.namesIdentity) && caller.Some? && !IsBlank(host, caller.value)
  }

  /** The decision word of a request, ignoring letter case. */
  predicate Says(host: Host, request: Option<DecisionRequest>, word: string) {
    request.Some? && request.value.decision.Some? && EqualsIgnoreCase(host, request.value.decision.value, word)
  }

  /** One attempt on record `a`: its event is added, and an accepted one replaces the record and no other. */
  ghost predicate Attempted(host: Host, w: World, v: World, a: Approval, command: Command, now: int) {
    var t := Apply(host, a, command, now);
    && v.audit == w.audit + [t.event]
    && v.approvals == if t.Accepted? then w.approvals[a.id := t.approval] else w.approvals
  }

  /** The attempt and how it is answered. */
  ghost predicate Answers(host: Host, w: World, v: World, status: nat, a: Approval, command: Command, now: int) {
    var t := Apply(host, a, command, now);
    && Attempted(host, w, v, a, command, now)
    && (status == 200 <==> t.Accepted?)
    && (t.Refused? ==> status == StatusFor(t.kind))
  }

  /**
   How a decision request is answered and what it leaves: 404 without the record, 400 when the request names an
   identity,
   403 without a caller; then, on a pending record past its deadline, 410 with an attempt to expire it; and otherwise
   the
   decision it says, under the caller's own name, or 400 when it says neither.
   */
  lemma DecideSays(
    host: Host, w: World, id: string, request: Option<DecisionRequest>, caller: Option<string>, checked: int,
    applied: int)
    requires id in w.approvals ==> w.approvals[id].id == id
    ensures var (v, status) := Decide(host, w, id, request, caller, checked, applied);
            && (id !in w.approvals ==> v == w && status == 404)
            && (id in w.approvals && !Heard(host, request, caller) ==>
                  v == w && status == (if request.Some? && request.value.namesIdentity then 400 else 403))
            && (id in w.approvals && Heard(host, request, caller) ==>
                  var a := w.approvals[id];
                  var late := a.state == PendingApproval && checked >= a.expiresAt;
                  var rejects, approves := Says(host, request, "Rejected"), Says(host, request, "Approved");
                  && (late ==> status == 410 && Attempted(host, w, v, a, Expire, applied))
                  && (!late && rejects ==>
                        var why := if request.value.reason.Some? then request.value.reason.value else "";
                        Answers(host, w, v, status, a, Reject(caller.value, why, None), applied))
                  && (!late && !rejects && approves ==>
                        Answers(host, w, v, status, a, Approve(caller.value, request.value.reason, None), applied))
                  && (!late && !rejects && !approves ==> v == w && status == 400))
  {
  }

  /**
   How a create request is answered and what it leaves: 400 without a body, or when it names an identity; 403 without a
   caller; 400 when a part is missing or the proposal is refused; and otherwise 201, with the proposal stored under its
   identifier, in the caller's name and from its own packet, and its request on the trail.
   */
  lemma CreateSays(host: Host, w: World, request: Option<CreateRequest>, caller: Option<string>, id: string, now: int)
    ensures var (v, status) := Create(host, w, request, caller, id, now);
            var clean := request.Some? && !request.value.namesIdentity;
            var known := caller.Some? && !IsBlank(host, caller.value);
            var whole := && clean && request.value.packet.Some? && request.value.expiresAt.Some?
                         && !IsBlank(host, request.value.packet.value.correlationId)
                         && now < request.value.expiresAt.value;
            && (status == 403 <==> clean && !known)
            && (status == 201 <==> known && whole)
            && (status == 400 <==> !clean || (known && !whole))
            && (status != 201 ==> v == w)
            && (status == 201 && id !in w.approvals ==>
                  && id in v.approvals && v.approvals == w.approvals[id := v.approvals[id]]
                  && v.approvals[id].evidencePacket == request.value.packet.value
                  && v.approvals[id].proposedBy == caller.value && v.approvals[id].lane == request.value.lane
                  && v.approvals[id].expiresAt == request.value.expiresAt.value && v.approvals[id].createdAt == now
                  && v.audit == w.audit + [RequestedEvent(v.approvals[id])])
            && (status == 201 && id in w.approvals ==> v.approvals == w.approvals && |v.audit| == |w.audit| + 1)
  {
    if request.Some? && !request.value.namesIdentity && caller.Some? && !IsBlank(host, caller.value)
        && request.value.packet.Some? && request.value.expiresAt.Some? {
      ProposeSays(host, id, request.value.lane, request.value.packet.value, caller.value,
                  request.value.expiresAt.value, now);
    }
  }

  /** The two status tables differ on three kinds, and on no other. */
  lemma StatusAgreesIff(kind: RefusalKind)
    ensures StatusFor(kind) == PublishedStatus(kind)
       <==> kind !in {EvidencePacketMismatch, NotApproved, InconsistentRecord}
  {
  }

  /** A command that acknowledges no hash is never refused over the packet of a sound record. */
  lemma RefusalKindAgrees(host: Host, a: Approval, command: Command, now: int)
    requires Sound(host, a) && Apply(host, a, command, now).Refused?
    requires command.Expire? || command.acknowledged.None?
    ensures StatusFor(Apply(host, a, command, now).kind) == PublishedStatus(Apply(host, a, command, now).kind)
  {
    SoundRecordVerifies(host, a);
    StatusAgreesIff(Apply(host, a, command, now).kind);
  }

  /** What a decision request asks acknowledges no hash. */
  lemma AskedAcknowledgesNothing(
    host: Host, a: Approval, request: Option<DecisionRequest>, caller: Option<string>, checked: int)
    requires Asked(host, a, request, caller, checked).Ok?
    ensures var command := Asked(host, a, request, caller, checked).value; command.Expire? || command.acknowledged.None?
  {
  }

  /**
   A refused decision is answered with the status the refusal publishes, whatever the request, the caller and the clock
   readings, unless the clock went back over the deadline between the two readings.
   */
  lemma RefusalsAnsweredAsPublishedIff(
    host: Host, w: World, id: string, request: Option<DecisionRequest>, caller: Option<string>, checked: int,
    applied: int)
    requires Filed(host, w) && id in w.approvals && Asked(host, w.approvals[id], request, caller, checked).Ok?
    requires Apply(host, w.approvals[id], Asked(host, w.approvals[id], request, caller, checked).value,
            applied).Refused?
    ensures var a := w.approvals[id];
            var t := Apply(host, a, Asked(host, a, request, caller, checked).value, applied);
            Decide(host, w, id, request, caller, checked, applied).1 == PublishedStatus(t.kind)
            <==> !(a.state.PendingApproval? && applied < a.expiresAt <= checked)
  {
    var a := w.approvals[id];
    var command := Asked(host, a, request, caller, checked).value;
    AskedAcknowledgesNothing(host, a, request, caller, checked);
    RefusalKindAgrees(host, a, command, applied);
    ExpiryAskedIff(host, a, request, caller, checked);
    if command.Expire? { ExpiryRefusedIff(host, a, applied); }
  }

  /** The expiry command is asked for exactly on a pending record from its deadline on. */
  lemma ExpiryAskedIff(host: Host, a: Approval, request: Option<DecisionRequest>, caller: Option<string>, checked: int)
    requires Asked(host, a, request, caller, checked).Ok?
    ensures Asked(host, a, request, caller, checked).value.Expire?
            <==> a.state.PendingApproval? && a.HasPassedExpiry(checked)
  {
  }

  lemma ExpiryRefusedIff(host: Host, a: Approval, now: int)
    requires a.state.PendingApproval?
    ensures Apply(host, a, Expire, now).Refused? <==> now < a.expiresAt
    ensures Apply(host, a, Expire, now).Refused? ==> Apply(host, a, Expire, now).kind.NotYetExpired?
    ensures Apply(host, a, Expire, now).Accepted? ==>
              Apply(host, a, Expire, now).approval.state.Expired? && Apply(host, a, Expire, now).approval.id == a.id
  {
  }

  /** A refused proposal is answered with the status the refusal publishes. */
  lemma ProposalsAnsweredAsPublished(
    host: Host, w: World, request: CreateRequest, caller: string, id: string, now: int)
    requires !request.namesIdentity && !IsBlank(host, caller) && request.packet.Some? && request.expiresAt.Some?
    requires Propose(host, id, request.lane, request.packet.value, caller, request.expiresAt.value, now).Err?
    ensures Create(host, w, Some(request), Some(caller), id, now)
         == (w, PublishedStatus(Propose(host, id, request.lane, request.packet.value, caller, request.expiresAt.value,
             now).error))
  {
    var p := Propose(host, id, request.lane, request.packet.value, caller, request.expiresAt.value, now);
    StatusAgreesIff(p.error);
  }

  // ---- Any number of unbroken runs ----

  datatype Call =
    | CreateCall(request: Option<CreateRequest>, caller: Option<string>, id: string, now: int)
    | DecideCall(id: string, decision: Option<DecisionRequest>, caller: Option<string>, checked: int, applied: int)

  function Serve(host: Host, w: World, call: Call): World {
    match call
    case CreateCall(request, caller, id, now) => Create(host, w, request, caller, id, now).0
    case DecideCall(id, decision, caller, checked, applied) => Decide(host, w, id, decision, caller, checked, applied).0
  }

  function ServeAll(host: Host, w: World, calls: seq<Call>): World
    decreases |calls|
  {
    if calls == [] then w else ServeAll(host, Serve(host, w, calls[0]), calls[1..])
  }

  /** Where an audit trail says one approval stands. */
  datatype Standing = Standing(state: ApprovalState, decidedBy: Option<string>, decidedAt: Option<int>)

  function StandingOf(a: Approval): Standing { Standing(a.state, a.decidedBy, a.decidedAt) }

  function ReplayEvent(s: Option<Standing>, e: AuditEvent): Option<Standing> {
    match e.eventType
    case ApprovalRequested => if s.Some? then s else Some(Standing(PendingApproval, None, None))
    case ApprovalDecided => Some(Standing(e.resultingState, e.actor, Some(e.occurredAt)))
    case ApprovalExpired => Some(Standing(Expired, None, Some(e.occurredAt)))
    case _ => s
  }

  /** Reads the trail from the start, looking only at the events of one approval. */
  function Replay(trail: seq<AuditEvent>, id: string): Option<Standing> {
    if trail == [] then None else
      var e := trail[|trail| - 1];
      var before := Replay(trail[..|trail| - 1], id);
      if e.approvalId == id then ReplayEvent(before, e) else before
  }

  lemma ReplayAppend(trail: seq<AuditEvent>, e: AuditEvent, id: string)
    ensures Replay(trail + [e], id) == if e.approvalId == id then ReplayEvent(Replay(trail, id), e)
            else Replay(trail, id)
  {
    assert (trail + [e])[..|trail|] == trail;
  }

  /** A refusal event names the state the trail puts its approval in at that point. */
  ghost predicate RefusalsInForce(trail: seq<AuditEvent>) {
    forall i :: 0 <= i < |trail| && trail[i].eventType.ApprovalRefused? ==>
      var s := Replay(trail[..i], trail[i].approvalId);
      s.Some? && s.value.state == trail[i].resultingState
  }

  /** Records are filed under their identifiers and sound. */
  ghost predicate Filed(host: Host, w: World) {
    forall id :: id in w.approvals ==> w.approvals[id].id == id && Sound(host, w.approvals[id])
  }

  function StoredStanding(w: World, id: string): Option<Standing> {
    if id in w.approvals then Some(StandingOf(w.approvals[id])) else None
  }

  /** Replaying the trail gives every record's standing. */
  ghost predicate Reproduces(w: World) { forall id :: Replay(w.audit, id) == StoredStanding(w, id) }

  ghost predicate Consistent(host: Host, w: World) { Filed(host, w) && Reproduces(w) && RefusalsInForce(w.audit) }

  lemma RefusalsInForceAppend(trail: seq<AuditEvent>, e: AuditEvent)
    requires RefusalsInForce(trail)
    requires e.eventType.ApprovalRefused? ==> var s := Replay(trail, e.approvalId);
            s.Some? && s.value.state == e.resultingState
    ensures RefusalsInForce(trail + [e])
  {
    var t := trail + [e];
    forall i | 0 <= i < |t| && t[i].eventType.ApprovalRefused?
      ensures var s := Replay(t[..i], t[i].approvalId); s.Some? && s.value.state == t[i].resultingState
    {
      assert t[..i] == trail[..i];
      if i == |trail| { assert trail[..i] == trail; }
    }
  }

  lemma CreateReproduces(w: World, a: Approval)
    requires Reproduces(w) && StandingOf(a) == Standing(PendingApproval, None, None)
    ensures Reproduces(w.Add(a).Append(RequestedEvent(a)))
  {
    var w' := w.Add(a).Append(RequestedEvent(a));
    forall id ensures Replay(w'.audit, id) == StoredStanding(w', id) {
      ReplayAppend(w.audit, RequestedEvent(a), id);
      assert Replay(w.audit, id) == StoredStanding(w, id);
    }
  }

  lemma CreateConsistent(host: Host, w: World, a: Approval)
    requires Consistent(host, w) && Sound(host, a) && a.state.PendingApproval?
    ensures Consistent(host, w.Add(a).Append(RequestedEvent(a)))
  {
    PendingStanding(host, a);
    CreateReproduces(w, a);
    RefusalsInForceAppend(w.audit, RequestedEvent(a));
  }

  lemma PendingStanding(host: Host, a: Approval)
    requires Sound(host, a) && a.state.PendingApproval?
    ensures StandingOf(a) == Standing(PendingApproval, None, None)
  {
  }

  lemma OutcomeStanding(host: Host, a: Approval, before: Option<Standing>)
    requires Sound(host, a) && !a.state.PendingApproval?
    ensures ReplayEvent(before, OutcomeEvent(a)) == Some(StandingOf(a)) && OutcomeEvent(a).approvalId == a.id
  {
  }

  lemma SettleReproduces(w: World, id: string, t: Transition)
    requires Reproduces(w) && id in w.approvals && t.event.approvalId == id
    requires t.Accepted? ==> t.approval.id == id && forall s :: ReplayEvent(s, t.event) == Some(StandingOf(t.approval))
    requires t.Refused? ==> t.event.eventType.ApprovalRefused?
    ensures Reproduces(Settle(w, t))
  {
    var w' := Settle(w, t);
    forall k ensures Replay(w'.audit, k) == StoredStanding(w', k) {
      ReplayAppend(w.audit, t.event, k);
      assert Replay(w.audit, k) == StoredStanding(w, k);
    }
  }

  lemma SettleFiled(host: Host, w: World, id: string, t: Transition)
    requires Filed(host, w) && (t.Accepted? ==> t.approval.id == id && Sound(host, t.approval))
    ensures Filed(host, Settle(w, t))
  {
  }

  lemma TransitionConsistent(host: Host, w: World, id: string, t: Transition, now: int)
    requires Consistent(host, w) && id in w.approvals && GoodTransition(host, w.approvals[id], t, now)
    ensures Consistent(host, Settle(w, t))
  {
    assert Replay(w.audit, id) == StoredStanding(w, id);
    if t.Accepted? {
      forall s ensures ReplayEvent(s, t.event) == Some(StandingOf(t.approval)) { OutcomeStanding(host, t.approval, s); }
    }
    SettleReproduces(w, id, t);
    SettleFiled(host, w, id, t);
    RefusalsInForceAppend(w.audit, t.event);
  }

  lemma SettleConsistent(host: Host, w: World, id: string, command: Command, now: int)
    requires Consistent(host, w) && id in w.approvals
    ensures Consistent(host, Settle(w, Apply(host, w.approvals[id], command, now)))
  {
    ApplySound(host, w.approvals[id], command, now);
    TransitionConsistent(host, w, id, Apply(host, w.approvals[id], command, now), now);
  }

  lemma ServeConsistent(host: Host, w: World, call: Call)
    requires Consistent(host, w)
    ensures Consistent(host, Serve(host, w, call))
  {
    match call
    case CreateCall(request, caller, id, now) =>
      if Proposal(host, request, caller, id, now).Ok? {
        CreateConsistent(host, w, Proposal(host, request, caller, id, now).value.0);
      }
    case DecideCall(id, decision, caller, checked, applied) =>
      if id in w.approvals && Asked(host, w.approvals[id], decision, caller, checked).Ok? {
        SettleConsistent(host, w, id, Asked(host, w.approvals[id], decision, caller, checked).value, applied);
      }
  }

  /** A record, once stored, keeps its proposal; once decided or expired it keeps everything. */
  ghost predicate Final(w: World, w': World) {
    && w.audit <= w'.audit
    && forall id :: id in w.approvals ==>
         && id in w'.approvals && SameProposal(w.approvals[id], w'.approvals[id])
         && (!w.approvals[id].state.PendingApproval? ==> w'.approvals[id] == w.approvals[id])
  }

  lemma TransitionFinal(host: Host, w: World, id: string, t: Transition, now: int)
    requires id in w.approvals && w.approvals[id].id == id && GoodTransition(host, w.approvals[id], t, now)
    ensures Final(w, Settle(w, t))
  {
  }

  lemma SettleFinal(host: Host, w: World, id: string, command: Command, now: int)
    requires id in w.approvals && w.approvals[id].id == id && Sound(host, w.approvals[id])
    ensures Final(w, Settle(w, Apply(host, w.approvals[id], command, now)))
  {
    ApplySound(host, w.approvals[id], command, now);
    TransitionFinal(host, w, id, Apply(host, w.approvals[id], command, now), now);
  }

  lemma AddFinal(w: World, a: Approval, e: AuditEvent)
    ensures Final(w, w.Add(a).Append(e))
  {
  }

  lemma StayFinal(w: World)
    ensures Final(w, w)
  {
  }

  lemma CreateFinal(host: Host, w: World, request: Option<CreateRequest>, caller: Option<string>, id: string, now: int)
    ensures Final(w, Create(host, w, request, caller, id, now).0)
  {
    StayFinal(w);
    match Proposal(host, request, caller, id, now)
    case Err(_) =>
    case Ok((a, event)) => AddFinal(w, a, event);
  }

  lemma DecideFinal(
    host: Host, w: World, id: string, request: Option<DecisionRequest>, caller: Option<string>, checked: int,
    applied: int)
    requires Filed(host, w)
    ensures Final(w, Decide(host, w, id, request, caller, checked, applied).0)
  {
    StayFinal(w);
    if id in w.approvals {
      match Asked(host, w.approvals[id], request, caller, checked)
      case Err(_) =>
      case Ok(command) => SettleFinal(host, w, id, command, applied);
    }
  }

  lemma ServeFinal(host: Host, w: World, call: Call)
    requires Consistent(host, w)
    ensures Final(w, Serve(host, w, call))
  {
    match call
    case CreateCall(request, caller, id, now) => CreateFinal(host, w, request, caller, id, now);
    case DecideCall(id, decision, caller, checked, applied) =>
        DecideFinal(host, w, id, decision, caller, checked, applied);
  }

  lemma FinalTransitive(a: World, b: World, c: World)
    requires Final(a, b) && Final(b, c)
    ensures Final(a, c)
  {
    assert forall id :: id in a.approvals ==> id in b.approvals && id in c.approvals;
  }

  /** Every trail replays to the stored records, and every stored outcome is final, over all runs. */
  lemma {:induction false} ServedWorldsReplayAndStand(host: Host, w: World, calls: seq<Call>)
    requires Consistent(host, w)
    ensures Consistent(host, ServeAll(host, w, calls)) && Final(w, ServeAll(host, w, calls))
    decreases |calls|
  {
    if calls != [] {
      var next := Serve(host, w, calls[0]);
      ServeConsistent(host, w, calls[0]);
      ServeFinal(host, w, calls[0]);
      ServedWorldsReplayAndStand(host, next, calls[1..]);
      FinalTransitive(w, next, ServeAll(host, w, calls));
    }
  }

  /** The service from its start: replaying the trail of any approval gives its record's standing. */
  lemma TrailReproducesStore(host: Host, calls: seq<Call>, id: string)
    ensures var w := ServeAll(host, EMPTY, calls);
            && Replay(w.audit, id) == StoredStanding(w, id)
            && RefusalsInForce(w.audit)
  {
    ServedWorldsReplayAndStand(host, EMPTY, calls);
  }

  /**
   A 410 on a pending proposal is recorded as an expiry unless the deadline fell between the two
   clock readings: then the answer is 410 and the proposal stays pending.
   */
  lemma GoneLeavesPendingIff(
    host: Host, w: World, id: string, request: Option<DecisionRequest>, caller: Option<string>, checked: int,
    applied: int)
    requires id in w.approvals && w.approvals[id].id == id && w.approvals[id].state.PendingApproval?
            && checked <= applied
    requires Decide(host, w, id, request, caller, checked, applied).1 == 410
    ensures Decide(host, w, id, request, caller, checked, applied).0.approvals[id].state.PendingApproval?
       <==> checked < w.approvals[id].expiresAt <= applied
  {
    var a := w.approvals[id];
    var command := Asked(host, a, request, caller, checked).value;
    ExpiryAskedIff(host, a, request, caller, checked);
    if command.Expire? {
      ExpiryRefusedIff(host, a, applied);
    } else {
      LateDecisionRefused(host, a, command, applied);
    }
  }

  lemma ApprovalAsked(host: Host, a: Approval, who: string, checked: int)
    requires !a.HasPassedExpiry(checked) && !IsBlank(host, who) && host.upper('A') != host.upper('R')
    ensures Asked(host, a, Some(DecisionRequest(false, Some("Approved"), None)), Some(who), checked)
            == Ok(Approve(who, None, None))
  {
    assert "Approved"[0] == 'A' && "Rejected"[0] == 'R';
  }

  /** At any proposal a late approval, asked for just before the deadline and applied at or after it, is such a case. */
  lemma GoneAndStillPending(host: Host, w: World, id: string, who: string, checked: int, applied: int)
    requires id in w.approvals && w.approvals[id].state.PendingApproval?
    requires checked < w.approvals[id].expiresAt <= applied
    requires !IsBlank(host, who) && host.upper('A') != host.upper('R')
    ensures var (after, status) :=
              Decide(host, w, id, Some(DecisionRequest(false, Some("Approved"), None)), Some(who), checked, applied);
            status == 410 && after.approvals == w.approvals
  {
    ApprovalAsked(host, w.approvals[id], who, checked);
    LateDecisionRefused(host, w.approvals[id], Approve(who, None, None), applied);
  }

  // ---- One example ----

  function SmallPacket(): E.EvidencePacket {
    E.EvidencePacket(
      "c", E.OrderRouting, [], [],
      E.RoutingDecisionSummary("Routed", E.Double("0"), Numerals.Decimal(0, 0), None, None, None, None, None, ""),
      E.ProposedAction("order", "", []), [])
  }

  /** Proposed by "p" under the id "a" at instant 0, to be decided before instant 10. */
  function SmallRequest(): CreateRequest { CreateRequest(false, E.OrderRouting, Some(SmallPacket()), Some(10)) }

  function SmallProposal(): Approval {
    Approval("a", "c", E.OrderRouting, SmallPacket(), "00", PendingApproval, "p", None, None, 10, 0, None)
  }

  lemma SmallProposalIsMade()
    ensures Proposal(PlainHost(), Some(SmallRequest()), Some("p"), "a", 0)
            == Ok((SmallProposal(), RequestedEvent(SmallProposal())))
    ensures Sound(PlainHost(), SmallProposal())
  {
    assert "c"[0] != ' ' && "p"[0] != ' ';
  }

  lemma EmptyConsistent(host: Host)
    ensures Consistent(host, EMPTY)
  {
  }

  /**
   A 410 that leaves the proposal pending, from the empty store: one create call, then one decision call over the
   deadline.
   */
  lemma GoneLeavesPendingExample()
    ensures var w := Create(PlainHost(), EMPTY, Some(SmallRequest()), Some("p"), "a", 0).0;
            var (after, status) :=
              Decide(PlainHost(), w, "a", Some(DecisionRequest(false, Some("Approved"), None)), Some("q"), 9, 10);
            status == 410 && "a" in after.approvals && after.approvals["a"].state.PendingApproval?
  {
    var host := PlainHost();
    var w := Create(host, EMPTY, Some(SmallRequest()), Some("p"), "a", 0).0;
    SmallProposalIsMade();
    EmptyConsistent(host);
    CreateConsistent(host, EMPTY, SmallProposal());
    assert w == EMPTY.Add(SmallProposal()).Append(RequestedEvent(SmallProposal()));
    assert "q"[0] != ' ';
    GoneAndStillPending(host, w, "a", "q", 9, 10);
  }
}
