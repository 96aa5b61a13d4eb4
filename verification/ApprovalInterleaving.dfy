/**
 The same handlers with every store access a step of its own, so that handlers interleave freely.
 A run is any sequence of actions; each action names the handler it moves, and clock readings are
 arbitrary. A handler's local computation happens in the action that ends just before its next
 store access.
 */
module ApprovalInterleaving {
  import opened Prelude
  import opened Platform
  import opened Approvals
  import opened ApprovalService
  import opened Runs

  /** Where a handler in flight stands. */
  datatype Progress =
    | Storing(proposal: Approval)                          // about to add a new proposal
    | Announcing(requested: Approval)                    // proposal added, its event still to append
    | Holding(read: Approval, request: Option<DecisionRequest>, caller: Option<string>)
    | WritingExpiry(expired: Approval, basis: Approval)  // expiry written to the store before its event
    | AuditingExpiry(expired: Approval)
    | AuditingRefusal(event: AuditEvent)
    | AuditingDecision(decided: Approval, basis: Approval)
    | WritingDecision(decided: Approval, basis: Approval)

  datatype State = State(world: World, handlers: map<nat, Progress>) {
    function Set(h: nat, p: Progress): State { this.(handlers := handlers[h := p]) }
    function End(h: nat): State { this.(handlers := handlers - {h}) }
  }

  const START := State(EMPTY, map[])

  datatype Action =
    | BeginCreate(h: nat, request: Option<CreateRequest>, caller: Option<string>, id: string, now: int)
    | BeginDecide(h: nat, id: string, decision: Option<DecisionRequest>, caller: Option<string>)
    | Resolve(h: nat, checked: int, applied: int)
    | Commit(h: nat)

  /** Ends a decision handler's local computation. */
  function Resolved(host: Host, s: State, h: nat, p: Progress, checked: int, applied: int): State
    requires p.Holding?
  {
    match Asked(host, p.read, p.request, p.caller, checked)
    case Err(_) => s.End(h)
    case Ok(command) =>
      s.Set(h, Resolution(Apply(host, p.read, command, applied), command, p.read))
  }

  /** Performs a handler's next store access. */
  function Committed(s: State, h: nat, p: Progress): State {
    match p
    case Storing(a) => s.(world := s.world.Add(a)).Set(h, Announcing(a))
    case Announcing(a) => s.(world := s.world.Append(RequestedEvent(a))).End(h)
    case Holding(_, _, _) => s
    case WritingExpiry(a, _) => s.(world := s.world.Put(a)).Set(h, AuditingExpiry(a))
    case AuditingExpiry(a) => s.(world := s.world.Append(OutcomeEvent(a))).End(h)
    case AuditingRefusal(event) => s.(world := s.world.Append(event)).End(h)
    case AuditingDecision(a, basis) => s.(world := s.world.Append(OutcomeEvent(a))).Set(h, WritingDecision(a, basis))
    case WritingDecision(a, _) => s.(world := s.world.Put(a)).End(h)
  }

  /** An action that is not enabled changes nothing. */
  function Step(host: Host, s: State, action: Action): State {
    match action
    case BeginCreate(h, request, caller, id, now) =>
      if h in s.handlers then s else
        (match Proposal(host, request, caller, id, now)
         case Err(_) => s
         case Ok((a, _)) => s.Set(h, Storing(a)))
    case BeginDecide(h, id, decision, caller) =>
      if h in s.handlers || id !in s.world.approvals then s
      else s.Set(h, Holding(s.world.approvals[id], decision, caller))
    case Resolve(h, checked, applied) =>
      if h in s.handlers && s.handlers[h].Holding? then Resolved(host, s, h, s.handlers[h], checked, applied) else s
    case Commit(h) =>
      if h in s.handlers then Committed(s, h, s.handlers[h]) else s
  }

  type Stepper = (State, Action) -> State

  function Stepping(host: Host): Stepper { (s: State, action: Action) => Step(host, s, action) }

  function RunActions(host: Host, s: State, actions: seq<Action>): State { RunWith(Stepping(host), s, actions) }

  // ---- A handler nobody interrupts ----

  lemma RefusalCommits(s: State, h: nat, event: AuditEvent)
    requires h in s.handlers && s.handlers[h] == AuditingRefusal(event)
    ensures Committed(s, h, s.handlers[h]) == State(s.world.Append(event), s.handlers - {h})
  {
  }

  lemma ExpiryCommits(s: State, h: nat, a: Approval, basis: Approval)
    requires h in s.handlers && s.handlers[h] == WritingExpiry(a, basis)
    ensures var s1 := Committed(s, h, s.handlers[h]);
            && h in s1.handlers
            && Committed(s1, h, s1.handlers[h]) == State(s.world.Put(a).Append(OutcomeEvent(a)), s.handlers - {h})
  {
  }

  lemma DecisionAudits(s: State, h: nat, a: Approval, basis: Approval)
    requires h in s.handlers && s.handlers[h] == AuditingDecision(a, basis)
    ensures var s1 := Committed(s, h, s.handlers[h]);
            && h in s1.handlers
            && Committed(s1, h, s1.handlers[h]) == State(s.world.Append(OutcomeEvent(a)).Put(a), s.handlers - {h})
  {
  }

  /** What a handler's resolution leads to. */
  function Resolution(t: Transition, command: Command, basis: Approval): Progress {
    match t
    case Refused(_, event) => AuditingRefusal(event)
    case Accepted(a, _) => if command.Expire? then WritingExpiry(a, basis) else AuditingDecision(a, basis)
  }

  lemma ResolvedCommits(host: Host, s: State, h: nat, p: Progress, t: Transition, command: Command, now: int)
    requires h in s.handlers && s.handlers[h] == p && p.Holding? && GoodTransition(host, p.read, t, now)
    ensures var s1 := s.Set(h, Resolution(t, command, p.read));
            var s2 := Committed(s1, h, s1.handlers[h]);
            var s3 := if h in s2.handlers then Committed(s2, h, s2.handlers[h]) else s2;
            s3.world == Settle(s.world, t) && s3.handlers == s.handlers - {h}
  {
    var s1 := s.Set(h, Resolution(t, command, p.read));
    assert s1.handlers - {h} == s.handlers - {h};
    match t
    case Refused(_, event) => RefusalCommits(s1, h, event);
    case Accepted(a, _) =>
      if command.Expire? { ExpiryCommits(s1, h, a, p.read); } else { DecisionAudits(s1, h, a, p.read); }
  }

  /** Begun, resolved and committed without interruption, a decision handler does what one unbroken run does. */
  lemma UninterruptedDecide(
    host: Host, s: State, h: nat, id: string, request: Option<DecisionRequest>, caller: Option<string>, checked: int,
    applied: int)
    requires h !in s.handlers
    requires id in s.world.approvals ==> s.world.approvals[id].id == id && Sound(host, s.world.approvals[id])
    ensures var s1 := Step(host, s, BeginDecide(h, id, request, caller));
            var s2 := Step(host, s1, Resolve(h, checked, applied));
            var s4 := Step(host, Step(host, s2, Commit(h)), Commit(h));
            s4.world == Decide(host, s.world, id, request, caller, checked, applied).0 && s4.handlers == s.handlers
  {
    if id in s.world.approvals {
      var p := Holding(s.world.approvals[id], request, caller);
      var s1 := s.Set(h, p);
      var command := Asked(host, p.read, request, caller, checked);
      if command.Ok? {
        ApplySound(host, p.read, command.value, applied);
        ResolvedCommits(host, s1, h, p, Apply(host, p.read, command.value, applied), command.value, applied);
      }
    }
  }

  /** The same for a create handler. */
  lemma UninterruptedCreate(
    host: Host, s: State, h: nat, request: Option<CreateRequest>, caller: Option<string>, id: string, now: int)
    requires h !in s.handlers
    ensures var s1 := Step(host, s, BeginCreate(h, request, caller, id, now));
            var s3 := Step(host, Step(host, s1, Commit(h)), Commit(h));
            s3.world == Create(host, s.world, request, caller, id, now).0 && s3.handlers == s.handlers
  {
    var p := Proposal(host, request, caller, id, now);
    if p.Ok? {
      ProposalAnnounces(host, request, caller, id, now);
      var s1 := s.Set(h, Storing(p.value.0));
      CreateCommits(s1, h, p.value.0);
    }
  }

  lemma ProposalAnnounces(host: Host, request: Option<CreateRequest>, caller: Option<string>, id: string, now: int)
    requires Proposal(host, request, caller, id, now).Ok?
    ensures var (a, event) := Proposal(host, request, caller, id, now).value; event == RequestedEvent(a)
  {
  }

  lemma CreateCommits(s: State, h: nat, a: Approval)
    requires h in s.handlers && s.handlers[h] == Storing(a)
    ensures var s1 := Committed(s, h, Storing(a));
            var s2 := Committed(s1, h, Announcing(a));
            s1.handlers[h] == Announcing(a) && s2.world == s.world.Add(a).Append(RequestedEvent(a))
                && s2.handlers == s.handlers - {h}
  {
  }

  // ---- What every interleaving keeps ----

  /** The stored record this one was derived from, or is about to replace, is the same proposal. */
  ghost predicate Anchored(w: World, a: Approval) {
    a.id in w.approvals && SameProposal(w.approvals[a.id], a)
  }

  /** A sound outcome, computed from a sound pending reading of a stored proposal. */
  ghost predicate DerivedFrom(host: Host, w: World, a: Approval, basis: Approval) {
    Sound(host, a) && Anchored(w, a) && Sound(host, basis) && basis.state.PendingApproval? && SameProposal(basis, a)
  }

  ghost predicate Decided(a: Approval) { a.state.Approved? || a.state.Rejected? }

  ghost predicate ProgressOk(host: Host, w: World, p: Progress) {
    match p
    case Storing(a) => Sound(host, a) && a.state.PendingApproval?
    case Announcing(a) => true
    case Holding(a, _, _) => Sound(host, a) && Anchored(w, a)
    case WritingExpiry(a, basis) => a.state.Expired? && DerivedFrom(host, w, a, basis)
    case AuditingExpiry(a) => true
    case AuditingRefusal(_) => true
    case AuditingDecision(a, basis) => Decided(a) && DerivedFrom(host, w, a, basis)
    case WritingDecision(a, basis) => Decided(a) && DerivedFrom(host, w, a, basis) && OutcomeEvent(a) in w.audit
  }

  /** Some handler has written this expiry and still owes its event. */
  ghost predicate OwesExpiry(s: State, a: Approval) {
    exists h :: h in s.handlers && s.handlers[h] == AuditingExpiry(a)
  }

  ghost predicate RecordOk(host: Host, s: State, id: string, a: Approval) {
    && a.id == id
    && Sound(host, a)
    && (Decided(a) ==> OutcomeEvent(a) in s.world.audit)
    && (a.state.Expired? ==> OutcomeEvent(a) in s.world.audit || OwesExpiry(s, a))
  }

  ghost predicate Invariant(host: Host, s: State) {
    && (forall id :: id in s.world.approvals ==> RecordOk(host, s, id, s.world.approvals[id]))
    && (forall h :: h in s.handlers ==> ProgressOk(host, s.world, s.handlers[h]))
  }

  /** What one world owes its predecessor, however handlers interleave. */
  ghost predicate Grows(w: World, w': World) {
    && w.audit <= w'.audit
    && forall id :: id in w.approvals ==>
         && id in w'.approvals
         && SameProposal(w.approvals[id], w'.approvals[id])
         && (!w.approvals[id].state.PendingApproval? ==> !w'.approvals[id].state.PendingApproval?)
  }

  lemma GrowsKeepsProgress(host: Host, w: World, w': World, p: Progress)
    requires Grows(w, w') && ProgressOk(host, w, p)
    ensures ProgressOk(host, w', p)
  {
  }

  /** A record stays good while the trail grows and expiry debts are kept or paid. */
  lemma RecordCarries(host: Host, s: State, t: State, id: string, a: Approval)
    requires RecordOk(host, s, id, a) && s.world.audit <= t.world.audit
    requires forall h :: h in s.handlers && s.handlers[h] == AuditingExpiry(a) ==>
               (h in t.handlers && t.handlers[h] == AuditingExpiry(a)) || OutcomeEvent(a) in t.world.audit
    ensures RecordOk(host, t, id, a)
  {
    if OwesExpiry(s, a) {
      var h :| h in s.handlers && s.handlers[h] == AuditingExpiry(a);
      assert h in t.handlers && t.handlers[h] == AuditingExpiry(a) ==> OwesExpiry(t, a);
    }
  }

  /** Every handler but one, and every expiry debt but that one's, is as it was. */
  ghost predicate OthersAsBefore(s: State, t: State, h: nat) {
    && (forall k :: k in t.handlers && k != h ==> k in s.handlers && t.handlers[k] == s.handlers[k])
    && (forall k :: k in s.handlers && k != h ==> k in t.handlers && t.handlers[k] == s.handlers[k])
    && (h in s.handlers && s.handlers[h].AuditingExpiry? ==> OutcomeEvent(s.handlers[h].expired) in t.world.audit)
  }

  /** One handler moves, and the store may take one record from it: what the invariant asks of that move. */
  lemma MoveKeeps(host: Host, s: State, t: State, h: nat)
    requires Invariant(host, s) && Grows(s.world, t.world) && OthersAsBefore(s, t, h)
    requires h in t.handlers ==> ProgressOk(host, t.world, t.handlers[h])
    requires forall id :: id in t.world.approvals ==>
               RecordOk(host, t, id, t.world.approvals[id])
                   || (id in s.world.approvals && t.world.approvals[id] == s.world.approvals[id])
    ensures Invariant(host, t)
  {
    forall k | k in t.handlers ensures ProgressOk(host, t.world, t.handlers[k]) {
      if k != h { GrowsKeepsProgress(host, s.world, t.world, s.handlers[k]); }
    }
    forall id | id in t.world.approvals ensures RecordOk(host, t, id, t.world.approvals[id]) {
      if id in s.world.approvals && t.world.approvals[id] == s.world.approvals[id] {
        RecordCarries(host, s, t, id, t.world.approvals[id]);
      }
    }
  }

  lemma SetKeepsInvariant(host: Host, s: State, h: nat, p: Progress)
    requires Invariant(host, s) && ProgressOk(host, s.world, p)
    requires h in s.handlers ==> !s.handlers[h].AuditingExpiry?
    ensures Invariant(host, s.Set(h, p))
  {
    MoveKeeps(host, s, s.Set(h, p), h);
  }

  lemma EndKeepsInvariant(host: Host, s: State, h: nat)
    requires Invariant(host, s) && (h in s.handlers ==> !s.handlers[h].AuditingExpiry?)
    ensures Invariant(host, s.End(h))
  {
    MoveKeeps(host, s, s.End(h), h);
  }

  /** An event is appended and the handler ends, or goes on to write what the event announces. */
  lemma AppendKeeps(host: Host, s: State, h: nat, e: AuditEvent, t: State)
    requires Invariant(host, s) && h in s.handlers
    requires s.handlers[h].AuditingExpiry? ==> e == OutcomeEvent(s.handlers[h].expired)
    requires t.world == s.world.Append(e)
    requires t.handlers == s.handlers - {h}
          || (s.handlers[h].AuditingDecision? && e == OutcomeEvent(s.handlers[h].decided)
              && t.handlers == s.handlers[h := WritingDecision(s.handlers[h].decided, s.handlers[h].basis)])
    ensures Invariant(host, t) && Grows(s.world, t.world)
  {
    var p := s.handlers[h];
    assert ProgressOk(host, s.world, p);
    assert e in t.world.audit by { assert t.world.audit[|s.world.audit|] == e; }
    MoveKeeps(host, s, t, h);
  }

  lemma PutGrows(w: World, a: Approval)
    requires Anchored(w, a) && !a.state.PendingApproval? && w.approvals[a.id].id == a.id
    ensures Grows(w, w.Put(a))
  {
  }

  /** A handler that owes no expiry goes on or ends. */
  lemma HandlerMoved(s: State, t: State, h: nat)
    requires h in s.handlers ==> !s.handlers[h].AuditingExpiry?
    requires t.handlers - {h} == s.handlers - {h}
    ensures OthersAsBefore(s, t, h)
  {
    assert forall k :: k in t.handlers && k != h ==> k in t.handlers - {h} && (t.handlers - {h})[k] == t.handlers[k];
    assert forall k :: k in s.handlers && k != h ==> k in s.handlers - {h} && (s.handlers - {h})[k] == s.handlers[k];
  }

  /** A record is stored by handler `h`, which moves on; the trail is untouched. */
  lemma StoreKeeps(host: Host, s: State, h: nat, a: Approval, t: State)
    requires Invariant(host, s) && h in s.handlers && !s.handlers[h].AuditingExpiry?
    requires t.world == s.world.Put(a) && Grows(s.world, t.world)
    requires RecordOk(host, t, a.id, a)
    requires t.handlers - {h} == s.handlers - {h}
    requires h in t.handlers ==> t.handlers[h].AuditingExpiry? || t.handlers[h].Announcing?
    ensures Invariant(host, t)
  {
    HandlerMoved(s, t, h);
    MoveKeeps(host, s, t, h);
  }

  lemma ExpiryRecordOk(host: Host, s: State, h: nat, a: Approval)
    requires Sound(host, a) && a.state.Expired? && h in s.handlers && s.handlers[h] == AuditingExpiry(a)
    ensures RecordOk(host, s, a.id, a)
  {
    assert OwesExpiry(s, a);
  }

  lemma DecisionRecordOk(host: Host, s: State, a: Approval)
    requires Sound(host, a) && Decided(a) && OutcomeEvent(a) in s.world.audit
    ensures RecordOk(host, s, a.id, a)
  {
  }

  lemma ExpiryWriteKeeps(host: Host, s: State, h: nat, a: Approval, basis: Approval)
    requires Invariant(host, s) && h in s.handlers && s.handlers[h] == WritingExpiry(a, basis)
    ensures Invariant(host, Committed(s, h, s.handlers[h])) && Grows(s.world, Committed(s, h, s.handlers[h]).world)
  {
    var t := s.(world := s.world.Put(a)).Set(h, AuditingExpiry(a));
    assert ProgressOk(host, s.world, s.handlers[h]);
    PutGrows(s.world, a);
    ExpiryRecordOk(host, t, h, a);
    assert t.handlers - {h} == s.handlers - {h};
    StoreKeeps(host, s, h, a, t);
  }

  lemma DecisionWriteKeeps(host: Host, s: State, h: nat, a: Approval, basis: Approval)
    requires Invariant(host, s) && h in s.handlers && s.handlers[h] == WritingDecision(a, basis)
    ensures Invariant(host, Committed(s, h, s.handlers[h])) && Grows(s.world, Committed(s, h, s.handlers[h]).world)
  {
    var t := s.(world := s.world.Put(a)).End(h);
    assert ProgressOk(host, s.world, s.handlers[h]);
    PutGrows(s.world, a);
    DecisionRecordOk(host, t, a);
    assert t.handlers - {h} == s.handlers - {h};
    StoreKeeps(host, s, h, a, t);
  }

  lemma AddGrows(w: World, a: Approval)
    requires a.id !in w.approvals
    ensures w.Add(a) == w.Put(a) && Grows(w, w.Put(a))
  {
  }

  lemma PendingRecordOk(host: Host, s: State, a: Approval)
    requires Sound(host, a) && a.state.PendingApproval?
    ensures RecordOk(host, s, a.id, a)
  {
  }

  lemma AddKeeps(host: Host, s: State, h: nat, a: Approval)
    requires Invariant(host, s) && h in s.handlers && s.handlers[h] == Storing(a)
    ensures Invariant(host, Committed(s, h, s.handlers[h])) && Grows(s.world, Committed(s, h, s.handlers[h]).world)
  {
    assert ProgressOk(host, s.world, s.handlers[h]);
    if a.id in s.world.approvals {
      GrowsReflexive(s.world);
      SetKeepsInvariant(host, s, h, Announcing(a));
    } else {
      var t := s.(world := s.world.Put(a)).Set(h, Announcing(a));
      AddGrows(s.world, a);
      PendingRecordOk(host, t, a);
      assert t.handlers - {h} == s.handlers - {h};
      StoreKeeps(host, s, h, a, t);
    }
  }

  lemma CommitKeeps(host: Host, s: State, h: nat)
    requires Invariant(host, s) && h in s.handlers
    ensures Invariant(host, Committed(s, h, s.handlers[h])) && Grows(s.world, Committed(s, h, s.handlers[h]).world)
  {
    var p := s.handlers[h];
    var t := Committed(s, h, p);
    assert ProgressOk(host, s.world, p);
    match p
    case Storing(a) => AddKeeps(host, s, h, a);
    case Announcing(a) => AppendKeeps(host, s, h, RequestedEvent(a), t);
    case Holding(_, _, _) =>
    case WritingExpiry(a, basis) => ExpiryWriteKeeps(host, s, h, a, basis);
    case AuditingExpiry(a) => AppendKeeps(host, s, h, OutcomeEvent(a), t);
    case AuditingRefusal(event) => AppendKeeps(host, s, h, event, t);
    case AuditingDecision(a, basis) => AppendKeeps(host, s, h, OutcomeEvent(a), t);
    case WritingDecision(a, basis) => DecisionWriteKeeps(host, s, h, a, basis);
  }

  lemma ResolveKeeps(host: Host, s: State, h: nat, checked: int, applied: int)
    requires Invariant(host, s) && h in s.handlers && s.handlers[h].Holding?
    ensures Invariant(host, Resolved(host, s, h, s.handlers[h], checked, applied))
  {
    var p := s.handlers[h];
    assert ProgressOk(host, s.world, p);
    match Asked(host, p.read, p.request, p.caller, checked)
    case Err(_) => EndKeepsInvariant(host, s, h);
    case Ok(command) =>
      ApplySound(host, p.read, command, applied);
      match Apply(host, p.read, command, applied)
      case Refused(_, event) => SetKeepsInvariant(host, s, h, AuditingRefusal(event));
      case Accepted(a, _) =>
        AcceptedTarget(host, p.read, command, applied);
        SetKeepsInvariant(host, s, h, if command.Expire? then WritingExpiry(a, p.read)
            else AuditingDecision(a, p.read));
  }

  lemma AcceptedTarget(host: Host, a: Approval, command: Command, now: int)
    requires Apply(host, a, command, now).Accepted?
    ensures Apply(host, a, command, now).approval.state ==
            match command
            case Approve(_, _, _) => Approved
            case Reject(_, _, _) => Rejected
            case Expire => Expired
  {
  }

  lemma ProposalSound(host: Host, request: Option<CreateRequest>, caller: Option<string>, id: string, now: int)
    requires Proposal(host, request, caller, id, now).Ok?
    ensures var a := Proposal(host, request, caller, id, now).value.0; Sound(host, a) && a.state.PendingApproval?
  {
  }

  lemma BeginKeeps(host: Host, s: State, action: Action)
    requires Invariant(host, s) && (action.BeginCreate? || action.BeginDecide?)
    ensures Invariant(host, Step(host, s, action)) && Step(host, s, action).world == s.world
  {
    match action
    case BeginCreate(h, request, caller, id, now) =>
      var p := Proposal(host, request, caller, id, now);
      if h !in s.handlers && p.Ok? {
        ProposalSound(host, request, caller, id, now);
        SetKeepsInvariant(host, s, h, Storing(p.value.0));
      }
    case BeginDecide(h, id, decision, caller) =>
      if h !in s.handlers && id in s.world.approvals {
        assert RecordOk(host, s, id, s.world.approvals[id]);
        SetKeepsInvariant(host, s, h, Holding(s.world.approvals[id], decision, caller));
      }
    case _ =>
  }

  lemma GrowsReflexive(w: World)
    ensures Grows(w, w)
  {
  }

  lemma StepKeeps(host: Host, s: State, action: Action)
    requires Invariant(host, s)
    ensures Invariant(host, Step(host, s, action)) && Grows(s.world, Step(host, s, action).world)
  {
    GrowsReflexive(s.world);
    match action
    case Resolve(h, checked, applied) =>
      if h in s.handlers && s.handlers[h].Holding? {
        ResolveKeeps(host, s, h, checked, applied);
        assert Step(host, s, action).world == s.world;
      }
    case Commit(h) =>
      if h in s.handlers { CommitKeeps(host, s, h); }
    case _ => BeginKeeps(host, s, action);
  }

  /**
   Under every interleaving, from any good state: proposals never change, nothing returns to
   pending, the trail only grows, and every stored record is sound with its event behind it.
   */
  lemma {:induction false} InterleavingsKeep(host: Host, s: State, actions: seq<Action>)
    requires Invariant(host, s)
    ensures Invariant(host, RunActions(host, s, actions)) && Grows(s.world, RunActions(host, s, actions).world)
    decreases |actions|
  {
    if actions != [] {
      var t := Step(host, s, actions[0]);
      StepKeeps(host, s, actions[0]);
      InterleavingsKeep(host, t, actions[1..]);
      GrowsTransitive(s.world, t.world, RunActions(host, s, actions).world);
    }
  }

  lemma GrowsTransitive(a: World, b: World, c: World)
    requires Grows(a, b) && Grows(b, c)
    ensures Grows(a, c)
  {
    assert forall id :: id in a.approvals ==> id in b.approvals && id in c.approvals;
  }

  /**
   From the empty store, any stored human decision names someone other than the proposer, was in time, and is on the
   trail.
   */
  lemma StoredDecisionsAreAttributable(host: Host, actions: seq<Action>, id: string)
    requires var w := RunActions(host, START, actions).world; id in w.approvals && Decided(w.approvals[id])
    ensures var w := RunActions(host, START, actions).world; var a := w.approvals[id];
            && a.decidedBy.Some? && !IsBlank(host, a.decidedBy.value)
            && !IsSameIdentity(host, a.decidedBy.value, a.proposedBy)
            && a.decidedAt.Some? && a.decidedAt.value < a.expiresAt
            && AuditEvent(ApprovalDecided, a.correlationId, id, a.decidedBy, a.state, a.decidedAt.value,
                a.evidencePacketHash, None) in w.audit
            && a.evidencePacketHash == ComputeHash(host, a.evidencePacket)
  {
    InterleavingsKeep(host, START, actions);
    var s := RunActions(host, START, actions);
    assert RecordOk(host, s, id, s.world.approvals[id]);
  }

  /** Some handler has added this proposal, or one announced the same way, and still owes its event. */
  ghost predicate OwesRequest(s: State, a: Approval) {
    exists h :: h in s.handlers && s.handlers[h].Announcing?
        && RequestedEvent(s.handlers[h].requested) == RequestedEvent(a)
  }

  /** Every stored record has its request on the trail, or a handler that owes it. */
  ghost predicate Announced(s: State) {
    forall id :: id in s.world.approvals ==>
      RequestedEvent(s.world.approvals[id]) in s.world.audit || OwesRequest(s, s.world.approvals[id])
  }

  /** Every handler but `h` is as it was. */
  ghost predicate OthersKept(s: State, t: State, h: nat) {
    forall k :: k in s.handlers && k != h ==> k in t.handlers && t.handlers[k] == s.handlers[k]
  }

  /** What one move asks of the announcements. */
  lemma AnnouncedMoves(s: State, t: State, h: nat)
    requires Announced(s) && s.world.audit <= t.world.audit && OthersKept(s, t, h)
    requires h in s.handlers && s.handlers[h].Announcing? ==> RequestedEvent(s.handlers[h].requested) in t.world.audit
    requires forall id :: id in t.world.approvals ==>
               || OwesRequest(t, t.world.approvals[id])
               || (id in s.world.approvals && RequestedEvent(t.world.approvals[id])
                   == RequestedEvent(s.world.approvals[id]))
    ensures Announced(t)
  {
    forall id | id in t.world.approvals && !OwesRequest(t, t.world.approvals[id])
      ensures RequestedEvent(t.world.approvals[id]) in t.world.audit
    {
      var a := s.world.approvals[id];
      if OwesRequest(s, a) {
        var k :| k in s.handlers && s.handlers[k].Announcing?
            && RequestedEvent(s.handlers[k].requested) == RequestedEvent(a);
        assert k == h;
      }
    }
  }

  lemma AppendAnnounces(s: State, t: State, h: nat, e: AuditEvent)
    requires Announced(s) && OthersKept(s, t, h) && t.world == s.world.Append(e)
    requires h in s.handlers && s.handlers[h].Announcing? ==> e == RequestedEvent(s.handlers[h].requested)
    ensures Announced(t)
  {
    assert t.world.audit[|s.world.audit|] == e;
    AnnouncedMoves(s, t, h);
  }

  lemma PutAnnounces(s: State, t: State, h: nat, a: Approval)
    requires Announced(s) && OthersKept(s, t, h) && t.world == s.world.Put(a)
    requires h in s.handlers && !s.handlers[h].Announcing?
    requires a.id in s.world.approvals && SameProposal(s.world.approvals[a.id], a)
    ensures Announced(t)
  {
    assert RequestedEvent(a) == RequestedEvent(s.world.approvals[a.id]);
    AnnouncedMoves(s, t, h);
  }

  lemma AddAnnounces(s: State, h: nat, a: Approval)
    requires Announced(s) && h in s.handlers && s.handlers[h] == Storing(a)
    ensures Announced(Committed(s, h, Storing(a)))
  {
    var t := Committed(s, h, Storing(a));
    assert t.handlers[h] == Announcing(a);
    assert OwesRequest(t, a);
    AnnouncedMoves(s, t, h);
  }

  lemma WriteAnnounces(host: Host, s: State, h: nat, a: Approval)
    requires Invariant(host, s) && Announced(s) && h in s.handlers
    requires (s.handlers[h].WritingExpiry? && s.handlers[h].expired == a)
            || (s.handlers[h].WritingDecision? && s.handlers[h].decided == a)
    ensures Announced(Committed(s, h, s.handlers[h]))
  {
    assert ProgressOk(host, s.world, s.handlers[h]);
    PutAnnounces(s, Committed(s, h, s.handlers[h]), h, a);
  }

  lemma EventAnnounces(s: State, h: nat)
    requires Announced(s) && h in s.handlers
    requires !s.handlers[h].WritingExpiry? && !s.handlers[h].WritingDecision? && !s.handlers[h].Storing?
    ensures Announced(Committed(s, h, s.handlers[h]))
  {
    var t := Committed(s, h, s.handlers[h]);
    match s.handlers[h]
    case Announcing(a) => AppendAnnounces(s, t, h, RequestedEvent(a));
    case Holding(_, _, _) =>
    case AuditingExpiry(a) => AppendAnnounces(s, t, h, OutcomeEvent(a));
    case AuditingRefusal(event) => AppendAnnounces(s, t, h, event);
    case AuditingDecision(a, _) => AppendAnnounces(s, t, h, OutcomeEvent(a));
  }

  lemma CommitAnnounces(host: Host, s: State, h: nat)
    requires Invariant(host, s) && Announced(s) && h in s.handlers
    ensures Announced(Committed(s, h, s.handlers[h]))
  {
    match s.handlers[h]
    case Storing(a) => AddAnnounces(s, h, a);
    case WritingExpiry(a, _) => WriteAnnounces(host, s, h, a);
    case WritingDecision(a, _) => WriteAnnounces(host, s, h, a);
    case _ => EventAnnounces(s, h);
  }

  lemma QuietAnnounces(s: State, t: State, h: nat)
    requires Announced(s) && OthersKept(s, t, h) && t.world == s.world
    requires h in s.handlers && s.handlers[h].Announcing? ==> t.handlers == s.handlers
    ensures Announced(t)
  {
    if h in s.handlers && s.handlers[h].Announcing? {
      assert t == s;
    } else {
      AnnouncedMoves(s, t, h);
    }
  }

  lemma StepAnnounces(host: Host, s: State, action: Action)
    requires Invariant(host, s) && Announced(s)
    ensures Announced(Step(host, s, action))
  {
    if action.Commit? {
      if action.h in s.handlers { CommitAnnounces(host, s, action.h); }
    } else {
      WorldOnlyCommits(host, s, action);
      QuietAnnounces(s, Step(host, s, action), action.h);
    }
  }

  /** Beginning and resolving leave the store and the trail alone, and move no handler that owes a request. */
  lemma WorldOnlyCommits(host: Host, s: State, action: Action)
    requires !action.Commit?
    ensures Step(host, s, action).world == s.world && OthersKept(s, Step(host, s, action), action.h)
    ensures action.h in s.handlers && s.handlers[action.h].Announcing? ==> Step(host, s, action).handlers == s.handlers
  {
  }

  lemma {:induction false} RunAnnounces(host: Host, s: State, actions: seq<Action>)
    requires Invariant(host, s) && Announced(s)
    ensures Announced(RunActions(host, s, actions))
    decreases |actions|
  {
    if actions != [] {
      StepKeeps(host, s, actions[0]);
      StepAnnounces(host, s, actions[0]);
      RunAnnounces(host, Step(host, s, actions[0]), actions[1..]);
    }
  }

  /**
   When no handler is in flight, the request of every stored record and every outcome in the store are on the trail.
   */
  lemma QuiescentTrailIsComplete(host: Host, actions: seq<Action>, id: string)
    requires var s := RunActions(host, START, actions); s.handlers == map[] && id in s.world.approvals
    ensures var w := RunActions(host, START, actions).world;
            && RequestedEvent(w.approvals[id]) in w.audit
            && (!w.approvals[id].state.PendingApproval? ==> OutcomeEvent(w.approvals[id]) in w.audit)
  {
    InterleavingsKeep(host, START, actions);
    RunAnnounces(host, START, actions);
    var s := RunActions(host, START, actions);
    assert RecordOk(host, s, id, s.world.approvals[id]);
  }
}
