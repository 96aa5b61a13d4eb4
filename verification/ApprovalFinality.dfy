/**
 Finality under interleaving. The store write carries no version check, so an outcome can be replaced: exactly when a
 handler writes over a record it did not read. With the condition for a step, for a whole run, and one run that fails
 it.
 */
module ApprovalFinality {
  import opened Prelude
  import opened Platform
  import opened Approvals
  import opened ApprovalService
  import opened ApprovalInterleaving
  import opened Runs

  // ---- One step ----

  /** The action overwrites an outcome that is already stored with a different one. */
  ghost predicate Overturns(host: Host, s: State, action: Action) {
    exists id :: id in s.world.approvals && !s.world.approvals[id].state.PendingApproval?
      && Step(host, s, action).world.approvals[id] != s.world.approvals[id]
  }

  /** The action is a store write. */
  predicate IsWrite(s: State, action: Action) {
    action.Commit? && action.h in s.handlers
        && (s.handlers[action.h].WritingDecision? || s.handlers[action.h].WritingExpiry?)
  }

  function Payload(s: State, action: Action): Approval
    requires IsWrite(s, action)
  {
    var p := s.handlers[action.h];
    if p.WritingDecision? then p.decided else p.expired
  }

  function Basis(s: State, action: Action): Approval
    requires IsWrite(s, action)
  {
    s.handlers[action.h].basis
  }

  /** The action writes a different outcome over a record that is no longer the one its handler read. */
  predicate StaleWrite(s: State, action: Action) {
    && IsWrite(s, action) && Payload(s, action).id in s.world.approvals
    && s.world.approvals[Payload(s, action).id] != Basis(s, action)
    && s.world.approvals[Payload(s, action).id] != Payload(s, action)
  }

  /**
   A step overturns an outcome exactly when it writes over a record that is no longer the one its
   handler read, and the two outcomes differ: the version check the store write does not make.
   */
  lemma OverturnsIffStale(host: Host, s: State, action: Action)
    requires Invariant(host, s)
    ensures Overturns(host, s, action) <==> StaleWrite(s, action)
  {
    if IsWrite(s, action) {
      WriteOverturnsIffStale(host, s, action);
    } else {
      OnlyWritesChangeRecords(host, s, action);
    }
  }

  /** The state after the first `i` actions. */
  function StateAt(host: Host, actions: seq<Action>, i: nat): State
    requires i <= |actions|
  {
    RunActions(host, START, actions[..i])
  }

  lemma NextState(host: Host, actions: seq<Action>, i: nat)
    requires i < |actions|
    ensures StateAt(host, actions, i + 1) == Step(host, StateAt(host, actions, i), actions[i])
  {
    OneMore(Stepping(host), START, actions, i);
  }

  /** An outcome stored under `id` is the same later on. */
  ghost predicate SameOutcome(w: World, w': World, id: string) {
    id in w.approvals && !w.approvals[id].state.PendingApproval? ==>
        id in w'.approvals && w'.approvals[id] == w.approvals[id]
  }

  ghost predicate AllStand(w: World, w': World) { forall id: string :: SameOutcome(w, w', id) }

  lemma SameOutcomeTransitive(a: World, b: World, c: World, id: string)
    requires SameOutcome(a, b, id) && SameOutcome(b, c, id)
    ensures SameOutcome(a, c, id)
  {
  }

  /** The outcome stored under `id` after `i` actions stands after `j`. */
  ghost predicate Stands(host: Host, actions: seq<Action>, i: nat, j: nat, id: string)
    requires i <= |actions| && j <= |actions|
  {
    SameOutcome(StateAt(host, actions, i).world, StateAt(host, actions, j).world, id)
  }

  /** Every outcome ever stored in a run stands to its end, and at every point in between. */
  ghost predicate OutcomesStand(host: Host, actions: seq<Action>) {
    forall i: nat, j: nat, id: string :: i <= j <= |actions| ==> Stands(host, actions, i, j, id)
  }

  lemma InvariantAt(host: Host, actions: seq<Action>, i: nat)
    requires i <= |actions|
    ensures Invariant(host, StateAt(host, actions, i))
  {
    InterleavingsKeep(host, START, actions[..i]);
  }

  lemma StaleWriteShowsIff(host: Host, s: State, action: Action)
    requires Invariant(host, s)
    ensures AllStand(s.world, Step(host, s, action).world) <==> !StaleWrite(s, action)
  {
    var t := Step(host, s, action);
    OverturnsIffStale(host, s, action);
    StepKeeps(host, s, action);
    if Overturns(host, s, action) {
      var id :| id in s.world.approvals && !s.world.approvals[id].state.PendingApproval?
                && Step(host, s, action).world.approvals[id] != s.world.approvals[id];
      assert !SameOutcome(s.world, t.world, id);
    } else {
      forall id: string ensures SameOutcome(s.world, t.world, id) {
        assert id in s.world.approvals ==> id in t.world.approvals;
      }
    }
  }

  /** One action keeps the stored outcomes unless its write is stale. */
  lemma StepStandsIff(host: Host, actions: seq<Action>, i: nat)
    requires i < |actions|
    ensures AllStand(StateAt(host, actions, i).world, StateAt(host, actions, i + 1).world)
       <==> !StaleWrite(StateAt(host, actions, i), actions[i])
  {
    InvariantAt(host, actions, i);
    NextState(host, actions, i);
    StaleWriteShowsIff(host, StateAt(host, actions, i), actions[i]);
  }

  lemma {:induction false} StandsOnward(host: Host, actions: seq<Action>, i: nat, j: nat, id: string)
    requires i <= j <= |actions|
    requires forall k: nat :: k < |actions| ==> !StaleWrite(StateAt(host, actions, k), actions[k])
    ensures Stands(host, actions, i, j, id)
    decreases j
  {
    if i < j {
      StandsOnward(host, actions, i, j - 1, id);
      StepStandsIff(host, actions, j - 1);
      var a, b, c := StateAt(host, actions, i).world, StateAt(host, actions, j - 1).world,
          StateAt(host, actions, j).world;
      assert AllStand(b, c) && SameOutcome(b, c, id);
      SameOutcomeTransitive(a, b, c, id);
    }
  }

  /** From the empty store, the outcomes of a run are final exactly when none of its writes is stale. */
  lemma OutcomesStandIff(host: Host, actions: seq<Action>)
    ensures OutcomesStand(host, actions) <==>
            forall i: nat :: i < |actions| ==> !StaleWrite(StateAt(host, actions, i), actions[i])
  {
    if forall i: nat :: i < |actions| ==> !StaleWrite(StateAt(host, actions, i), actions[i]) {
      forall i: nat, j: nat, id: string | i <= j <= |actions| ensures Stands(host, actions, i, j, id) {
        StandsOnward(host, actions, i, j, id);
      }
    } else {
      var i: nat :| i < |actions| && StaleWrite(StateAt(host, actions, i), actions[i]);
      StepStandsIff(host, actions, i);
      var id: string :| !SameOutcome(StateAt(host, actions, i).world, StateAt(host, actions, i + 1).world, id);
      assert !Stands(host, actions, i, i + 1, id);
    }
  }

  lemma OnlyWritesChangeRecords(host: Host, s: State, action: Action)
    requires !IsWrite(s, action)
    ensures forall id :: id in s.world.approvals ==>
              id in Step(host, s, action).world.approvals && Step(host, s, action).world.approvals[id]
                  == s.world.approvals[id]
  {
  }

  lemma WriteOverturnsIffStale(host: Host, s: State, action: Action)
    requires Invariant(host, s) && IsWrite(s, action)
    ensures Payload(s, action).id in s.world.approvals
    ensures Overturns(host, s, action) <==>
            s.world.approvals[Payload(s, action).id] != Basis(s, action)
            && s.world.approvals[Payload(s, action).id] != Payload(s, action)
  {
    var a, basis := Payload(s, action), Basis(s, action);
    assert ProgressOk(host, s.world, s.handlers[action.h]);
    var stored := s.world.approvals[a.id];
    assert RecordOk(host, s, a.id, stored);
    PendingIsBasis(host, stored, basis, a);
    PutChangesOne(s.world, Step(host, s, action).world, a);
  }

  /** A store write changes a terminal record exactly when that is the record it replaces. */
  lemma PutChangesOne(w: World, w': World, a: Approval)
    requires w' == w.Put(a) && a.id in w.approvals
    ensures (exists id ::
            id in w.approvals && !w.approvals[id].state.PendingApproval? && w'.approvals[id] != w.approvals[id])
       <==> !w.approvals[a.id].state.PendingApproval? && a != w.approvals[a.id]
  {
    assert w'.approvals[a.id] == a;
  }

  /** A sound pending record of the same proposal is the record the handler read. */
  lemma PendingIsBasis(host: Host, stored: Approval, basis: Approval, a: Approval)
    requires Sound(host, stored) && Sound(host, basis) && SameProposal(stored, a) && SameProposal(basis, a)
    requires basis.state.PendingApproval?
    ensures stored.state.PendingApproval? <==> stored == basis
  {
  }

  /** Platform and timing facts that let one identity decide a proposal either way. */
  ghost predicate CanDecide(host: Host, a: Approval, who: string, now: int) {
    && Sound(host, a) && a.state.PendingApproval? && now < a.expiresAt
    && !IsBlank(host, who) && !IsSameIdentity(host, who, a.proposedBy)
    && !IsBlank(host, "no") && host.upper('A') != host.upper('R')
  }

  lemma EitherDecisionAccepted(host: Host, a: Approval, who: string, now: int)
    requires CanDecide(host, a, who, now)
    ensures Asked(host, a, Some(DecisionRequest(false, Some("Approved"), None)), Some(who), now)
            == Ok(Approve(who, None, None))
    ensures Asked(host, a, Some(DecisionRequest(false, Some("Rejected"), Some("no"))), Some(who), now)
            == Ok(Reject(who, "no", None))
    ensures var t := Apply(host, a, Approve(who, None, None), now);
            t.Accepted? && t.approval == a.WithDecision(Approved, Some(who), None, now)
    ensures var t := Apply(host, a, Reject(who, "no", None), now);
            t.Accepted? && t.approval == a.WithDecision(Rejected, Some(who), Some("no"), now)
  {
    assert "Approved"[0] == 'A' && "Rejected"[0] == 'R';
    SoundRecordVerifies(host, a);
  }

  lemma BeginDecideStep(host: Host, s: State, h: nat, id: string, d: Option<DecisionRequest>, caller: Option<string>)
    requires h !in s.handlers && id in s.world.approvals
    ensures Step(host, s, BeginDecide(h, id, d, caller)) == s.Set(h, Holding(s.world.approvals[id], d, caller))
  {
  }

  lemma ResolveStep(host: Host, s: State, h: nat, now: int, command: Command, a: Approval)
    requires h in s.handlers && s.handlers[h].Holding? && !command.Expire?
    requires Asked(host, s.handlers[h].read, s.handlers[h].request, s.handlers[h].caller, now) == Ok(command)
    requires var t := Apply(host, s.handlers[h].read, command, now); t.Accepted? && t.approval == a
    ensures Step(host, s, Resolve(h, now, now)) == s.Set(h, AuditingDecision(a, s.handlers[h].read))
  {
  }

  lemma CommitStep(host: Host, s: State, h: nat)
    requires h in s.handlers
    ensures Step(host, s, Commit(h)) == Committed(s, h, s.handlers[h])
  {
  }

  /** An audited decision reaches the store in two commits. */
  lemma DecisionCommits(host: Host, s: State, h: nat, a: Approval, basis: Approval)
    requires h in s.handlers && s.handlers[h] == AuditingDecision(a, basis)
    ensures var t := Step(host, Step(host, s, Commit(h)), Commit(h));
            t.world.approvals == s.world.approvals[a.id := a] && t.handlers == s.handlers - {h}
  {
    CommitStep(host, s, h);
    CommitStep(host, Step(host, s, Commit(h)), h);
  }

  lemma BothRead(host: Host, s: State, id: string, r0: DecisionRequest, r1: DecisionRequest, who: string)
    requires 0 !in s.handlers && 1 !in s.handlers && id in s.world.approvals
    ensures Step(host, Step(host, s, BeginDecide(0, id, Some(r0), Some(who))), BeginDecide(1, id, Some(r1), Some(who)))
         == s.Set(0, Holding(s.world.approvals[id], Some(r0), Some(who))).Set(1,
             Holding(s.world.approvals[id], Some(r1), Some(who)))
  {
    BeginDecideStep(host, s, 0, id, Some(r0), Some(who));
    BeginDecideStep(host, s.Set(0, Holding(s.world.approvals[id], Some(r0), Some(who))), 1, id, Some(r1), Some(who));
  }

  lemma BothResolve(
    host: Host, s: State, a: Approval, r0: DecisionRequest, r1: DecisionRequest, who: string, now: int, c0: Command,
    c1: Command, a0: Approval, a1: Approval)
    requires 0 in s.handlers && s.handlers[0] == Holding(a, Some(r0), Some(who)) && !c0.Expire?
    requires 1 in s.handlers && s.handlers[1] == Holding(a, Some(r1), Some(who)) && !c1.Expire?
    requires Asked(host, a, Some(r0), Some(who), now) == Ok(c0) && Asked(host, a, Some(r1), Some(who), now) == Ok(c1)
    requires Apply(host, a, c0, now).Accepted? && Apply(host, a, c0, now).approval == a0
    requires Apply(host, a, c1, now).Accepted? && Apply(host, a, c1, now).approval == a1
    ensures Step(host, Step(host, s, Resolve(0, now, now)), Resolve(1, now, now))
            == s.Set(0, AuditingDecision(a0, a)).Set(1, AuditingDecision(a1, a))
  {
    ResolveStep(host, s, 0, now, c0, a0);
    ResolveStep(host, s.Set(0, AuditingDecision(a0, a)), 1, now, c1, a1);
  }

  const YES := DecisionRequest(false, Some("Approved"), None)
  const NO := DecisionRequest(false, Some("Rejected"), Some("no"))

  /** Any decidable proposal can be brought to two opposite outcomes resolved from the same reading. */
  lemma RaceResolves(host: Host, s: State, id: string, who: string, now: int) returns (s2: State, s4: State)
    requires 0 !in s.handlers && 1 !in s.handlers
    requires id in s.world.approvals && CanDecide(host, s.world.approvals[id], who, now)
    ensures s2 == Step(host, Step(host, s, BeginDecide(0, id, Some(YES), Some(who))),
            BeginDecide(1, id, Some(NO), Some(who)))
    ensures s4 == Step(host, Step(host, s2, Resolve(0, now, now)), Resolve(1, now, now))
    ensures s4.world == s.world && 0 in s4.handlers && 1 in s4.handlers
    ensures var a := s.world.approvals[id];
            && s4.handlers[0] == AuditingDecision(a.WithDecision(Approved, Some(who), None, now), a)
            && s4.handlers[1] == AuditingDecision(a.WithDecision(Rejected, Some(who), Some("no"), now), a)
  {
    var a := s.world.approvals[id];
    EitherDecisionAccepted(host, a, who, now);
    var yes, no := a.WithDecision(Approved, Some(who), None, now), a.WithDecision(Rejected, Some(who), Some("no"), now);
    BothRead(host, s, id, YES, NO, who);
    s2 := s.Set(0, Holding(a, Some(YES), Some(who))).Set(1, Holding(a, Some(NO), Some(who)));
    BothResolve(host, s2, a, YES, NO, who, now, Approve(who, None, None), Reject(who, "no", None), yes, no);
    s4 := s2.Set(0, AuditingDecision(yes, a)).Set(1, AuditingDecision(no, a));
  }

  /**
   Finality fails under interleaving: from the state RaceResolves reaches, the first handler's two
   commits store its outcome, and the second handler's two commits replace it.
   */
  lemma FirstOutcomeIsOverturned(host: Host, s: State, first: Approval, second: Approval, basis: Approval)
    requires 0 in s.handlers && s.handlers[0] == AuditingDecision(first, basis)
    requires 1 in s.handlers && s.handlers[1] == AuditingDecision(second, basis)
    requires first.id == second.id && first.state.Approved? && second.state.Rejected?
    ensures var s2 := Step(host, Step(host, s, Commit(0)), Commit(0));
            var s4 := Step(host, Step(host, s2, Commit(1)), Commit(1));
            && first.id in s2.world.approvals && s2.world.approvals[first.id] == first
            && first.id in s4.world.approvals && s4.world.approvals[first.id] == second
  {
    DecisionCommits(host, s, 0, first, basis);
    DecisionCommits(host, Step(host, Step(host, s, Commit(0)), Commit(0)), 1, second, basis);
  }

  // ---- The race as one run from the empty store ----

  /** One proposal; two decisions read it, resolve, and are stored one after the other. */
  function Race(
    request: CreateRequest, proposer: string, id: string, created: int, who: string, now: int): seq<Action> {
    [BeginCreate(0, Some(request), Some(proposer), id, created), Commit(0), Commit(0)]
    + [BeginDecide(0, id, Some(YES), Some(who)), BeginDecide(1, id, Some(NO), Some(who)), Resolve(0, now, now),
        Resolve(1, now, now)]
    + [Commit(0), Commit(0)] + [Commit(1), Commit(1)]
  }

  /** Three actions, four, two and two: the states after the third stretch and after the last. */
  lemma RunStretches(step: Stepper, s: State, a: seq<Action>, b: seq<Action>, c: seq<Action>, d: seq<Action>)
    requires |a| == 3 && |b| == 4 && |c| == 2 && |d| == 2
    ensures |a + b + c + d| == 11
    ensures RunWith(step, s, (a + b + c + d)[..9]) == RunWith(step, RunWith(step, RunWith(step, s, a), b), c)
    ensures RunWith(step, s, (a + b + c + d)[..11]) == RunWith(step, RunWith(step, s, (a + b + c + d)[..9]), d)
  {
    RunConcat(step, s, a, b);
    RunConcat(step, s, a + b, c);
    RunConcat(step, s, a + b + c, d);
    assert (a + b + c + d)[..9] == a + b + c && (a + b + c + d)[..11] == a + b + c + d;
  }

  lemma ProposalStored(host: Host, request: CreateRequest, proposer: string, id: string, created: int, a: Approval)
    requires Proposal(host, Some(request), Some(proposer), id, created) == Ok((a, RequestedEvent(a)))
    ensures var s := Step(host, START, BeginCreate(0, Some(request), Some(proposer), id, created));
            Step(host, Step(host, s, Commit(0)), Commit(0)) == State(EMPTY.Add(a).Append(RequestedEvent(a)), map[])
  {
    var s := START.Set(0, Storing(a));
    CommitStep(host, s, 0);
    CreateCommits(s, 0, a);
    CommitStep(host, Committed(s, 0, Storing(a)), 0);
  }

  /** From any decidable proposal: both decisions resolve, the first is stored, and the second replaces it. */
  lemma RaceEnds(host: Host, s: State, id: string, who: string, now: int) returns (s4: State)
    requires 0 !in s.handlers && 1 !in s.handlers
    requires id in s.world.approvals && CanDecide(host, s.world.approvals[id], who, now)
            && s.world.approvals[id].id == id
    ensures s4 == Step(host, Step(host, Step(host, Step(host, s, BeginDecide(0, id, Some(YES), Some(who))),
                                             BeginDecide(1, id, Some(NO), Some(who))), Resolve(0, now, now)),
                                                 Resolve(1, now, now))
    ensures var a := s.world.approvals[id];
            var s6 := Step(host, Step(host, s4, Commit(0)), Commit(0));
            var s8 := Step(host, Step(host, s6, Commit(1)), Commit(1));
            && id in s6.world.approvals && s6.world.approvals[id] == a.WithDecision(Approved, Some(who), None, now)
            && id in s8.world.approvals && s8.world.approvals[id]
                == a.WithDecision(Rejected, Some(who), Some("no"), now)
  {
    var a := s.world.approvals[id];
    var s2;
    s2, s4 := RaceResolves(host, s, id, who, now);
    FirstOutcomeIsOverturned(
      host, s4, a.WithDecision(Approved, Some(who), None, now), a.WithDecision(Rejected, Some(who), Some("no"), now),
          a);
  }

  /**
   Finality fails in a run from the empty store: whenever a proposal can be made and decided by some identity at some
   instant, one run stores it Approved and then replaces that by Rejected.
   */
  lemma RaceOverturns(
    host: Host, request: CreateRequest, proposer: string, id: string, created: int, who: string, now: int)
    returns (a: Approval)
    requires Proposal(host, Some(request), Some(proposer), id, created).Ok?
    requires CanDecide(host, Proposal(host, Some(request), Some(proposer), id, created).value.0, who, now)
    ensures a == Proposal(host, Some(request), Some(proposer), id, created).value.0 && a.id == id
    ensures var actions := Race(request, proposer, id, created, who, now);
            var before, after := StateAt(host, actions, 9).world, StateAt(host, actions, 11).world;
            && id in before.approvals && before.approvals[id] == a.WithDecision(Approved, Some(who), None, now)
            && id in after.approvals && after.approvals[id] == a.WithDecision(Rejected, Some(who), Some("no"), now)
            && !OutcomesStand(host, actions)
  {
    ProposalAnnounces(host, Some(request), Some(proposer), id, created);
    a := Proposal(host, Some(request), Some(proposer), id, created).value.0;
    var s := State(EMPTY.Add(a).Append(RequestedEvent(a)), map[]);
    ProposalStored(host, request, proposer, id, created, a);
    var s4 := RaceEnds(host, s, id, who, now);
    RaceRuns(Stepping(host), request, proposer, id, created, who, now, s, s4);
    assert !Stands(host, Race(request, proposer, id, created, who, now), 9, 11, id);
  }

  /** The race, stretch by stretch. */
  lemma RaceRuns(
    step: Stepper, request: CreateRequest, proposer: string, id: string, created: int, who: string, now: int, s: State,
    s4: State)
    requires step(step(step(START, BeginCreate(0, Some(request), Some(proposer), id, created)), Commit(0)), Commit(0))
            == s
    requires step(step(step(step(s, BeginDecide(0, id, Some(YES), Some(who))), BeginDecide(1, id, Some(NO), Some(who))),
                       Resolve(0, now, now)), Resolve(1, now, now)) == s4
    ensures var actions := Race(request, proposer, id, created, who, now);
            var s6 := step(step(s4, Commit(0)), Commit(0));
            && |actions| == 11 && RunWith(step, START, actions[..9]) == s6
            && RunWith(step, START, actions[..11]) == step(step(s6, Commit(1)), Commit(1))
  {
    var begin := BeginCreate(0, Some(request), Some(proposer), id, created);
    var y, n := BeginDecide(0, id, Some(YES), Some(who)), BeginDecide(1, id, Some(NO), Some(who));
    RunThree(step, START, begin, Commit(0), Commit(0));
    RunFour(step, s, y, n, Resolve(0, now, now), Resolve(1, now, now));
    RunTwo(step, s4, Commit(0), Commit(0));
    RunTwo(step, step(step(s4, Commit(0)), Commit(0)), Commit(1), Commit(1));
    RunStretches(
      step, START, [begin, Commit(0), Commit(0)], [y, n, Resolve(0, now, now), Resolve(1, now, now)],
      [Commit(0), Commit(0)], [Commit(1), Commit(1)]);
  }

  /** Such a run exists: the example proposal, made by "p", is approved and then rejected by "q". */
  lemma FinalityFails()
    ensures var actions := Race(SmallRequest(), "p", "a", 0, "q", 5);
            var before, after := StateAt(PlainHost(), actions, 9).world, StateAt(PlainHost(), actions, 11).world;
            && "a" in before.approvals && before.approvals["a"].state.Approved?
            && "a" in after.approvals && after.approvals["a"].state.Rejected?
            && !OutcomesStand(PlainHost(), actions)
  {
    SmallProposalIsMade();
    assert "q"[0] != ' ' && "no"[0] != ' ' && "q"[0] != "p"[0];
    assert Trim(PlainHost(), "q") == "q" && Trim(PlainHost(), "p") == "p";
    assert CanDecide(PlainHost(), SmallProposal(), "q", 5);
    var a := RaceOverturns(PlainHost(), SmallRequest(), "p", "a", 0, "q", 5);
  }
}
