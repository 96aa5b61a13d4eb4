/** The policy set repository: optimistic versions, validation on every write, and an append-only history. */
module PolicyRepository {
  import opened Prelude
  import opened PolicyGate
  import opened PolicyDiff

  // ---- Keys ----

  function Key(businessUnit: string, id: string): string { businessUnit + "/" + id }

  /** The longer business unit and the shorter one share a key exactly when the shorter continues into its own id. */
  lemma KeyPrefix(b: string, i: string, c: string, j: string)
    requires Key(b, i) == Key(c, j) && |b| < |c|
    ensures c == b + "/" + c[|b| + 1..] && i == c[|b| + 1..] + "/" + j
  {
    var k := Key(b, i);
    assert c == k[..|c|] && i == k[|b| + 1..];
    assert k[..|c|] == k[..|b|] + k[|b|..|b| + 1] + k[|b| + 1..|c|];
    assert k[..|b|] == b && k[|b|..|b| + 1] == "/" && k[|b| + 1..|c|] == c[|b| + 1..];
    assert k[|b| + 1..] == k[|b| + 1..|c|] + k[|c|..] && k[|c|..] == "/" + j;
  }

  lemma KeySplits(b: string, i: string, c: string, j: string)
    requires Key(b, i) == Key(c, j) && |b| == |c|
    ensures b == c && i == j
  {
    var k := Key(b, i);
    assert k[..|b|] == b && k[..|c|] == c && k[|b| + 1..] == i && k[|c| + 1..] == j;
  }

  predicate Slashless(s: string) { '/' !in s }

  lemma KeyInjective(b: string, i: string, c: string, j: string)
    requires Slashless(b) && Slashless(c) && Key(b, i) == Key(c, j)
    ensures b == c && i == j
  {
    if |b| < |c| {
      KeyPrefix(b, i, c, j);
      assert false;
    } else if |c| < |b| {
      KeyPrefix(c, j, b, i);
      assert false;
    } else {
      KeySplits(b, i, c, j);
    }
  }

  /** A key belongs to one business unit and one id exactly when neither of them holds a slash. */
  lemma KeyUniqueIff(b: string, i: string)
    ensures (forall c: string, j: string :: Key(c, j) == Key(b, i) ==> c == b && j == i)
            <==> Slashless(b) && Slashless(i)
  {
    if Slashless(b) && Slashless(i) {
      forall c: string, j: string | Key(c, j) == Key(b, i) ensures c == b && j == i {
        if |b| < |c| {
          KeyPrefix(b, i, c, j);
          assert false;
        } else if |c| < |b| {
          KeyPrefix(c, j, b, i);
          assert false;
        } else {
          KeySplits(b, i, c, j);
        }
      }
    } else if !Slashless(b) {
      var k :| 0 <= k < |b| && b[k] == '/';
      var c, j := b[..k], b[k + 1..] + "/" + i;
      assert b == b[..k] + "/" + b[k + 1..];
      assert Key(c, j) == Key(b, i);
    } else {
      var k :| 0 <= k < |i| && i[k] == '/';
      var c, j := b + "/" + i[..k], i[k + 1..];
      assert i == i[..k] + "/" + i[k + 1..];
      assert Key(c, j) == Key(b, i);
    }
  }

  // ---- Updates ----

  /** None means not supplied, which leaves the field alone. */
  datatype Update = Update(
    id: string, businessUnit: string, expectedVersion: int, updatedBy: string,
    approvedVendors: Option<set<ModelVendor>>,
    maxClassification: Option<map<ModelVendor, DataClassification>>,
    allowedRegions: Option<set<string>>,
    maxCostPerRequestUsd: Option<real>,
    permitsRestrictedData: Option<bool>)
  {
    function Target(): string { Key(businessUnit, id) }
  }

  datatype ChangeResult = ChangeResult(policySet: PolicySet, changed: seq<FieldChange>, effectiveFrom: int)

  datatype UpdateError = NotFound(id: string) | Stale(expected: int, actual: int) | Invalid(failure: ValidationFailure)

  function OrElse<T>(o: Option<T>, default: T): T { if o.Some? then o.value else default }

  function Proposed(current: PolicySet, u: Update, now: int): PolicySet {
    current.(
      approvedVendors := OrElse(u.approvedVendors, current.approvedVendors),
      maxClassification := OrElse(u.maxClassification, current.maxClassification),
      allowedRegions := OrElse(u.allowedRegions, current.allowedRegions),
      maxCostPerRequestUsd := OrElse(u.maxCostPerRequestUsd, current.maxCostPerRequestUsd),
      permitsRestrictedData := OrElse(u.permitsRestrictedData, current.permitsRestrictedData),
      version := current.version + 1,
      updatedBy := Some(u.updatedBy),
      updatedAt := Some(now))
  }

  datatype Store = Store(sets: map<string, PolicySet>, history: map<string, seq<ChangeResult>>) {
    function Log(key: string): seq<ChangeResult> { if key in history then history[key] else [] }
  }

  /** What an update answers. */
  function Answer(s: Store, u: Update, now: int): Result<ChangeResult, UpdateError> {
    if u.Target() !in s.sets then Err(NotFound(u.id)) else
      var current := s.sets[u.Target()];
      if current.version != u.expectedVersion then Err(Stale(u.expectedVersion, current.version)) else
        var proposed := Proposed(current, u, now);
        match Validate(proposed)
        case Some(failure) => Err(Invalid(failure))
        case None => Ok(ChangeResult(proposed, Changes(current, proposed), now))
  }

  /** The store an update leaves. */
  function After(s: Store, u: Update, now: int): Store {
    match Answer(s, u, now)
    case Err(_) => s
    case Ok(result) => Store(s.sets[u.Target() := result.policySet],
        s.history[u.Target() := s.Log(u.Target()) + [result]])
  }

  /** Seeding: the first invalid set stops it, and a later set with the same key replaces an earlier one. */
  function Seeded(seed: seq<PolicySet>): Result<Store, ValidationFailure> {
    if seed == [] then Ok(Store(map[], map[])) else
      var last := seed[|seed| - 1];
      match Seeded(seed[..|seed| - 1])
      case Err(failure) => Err(failure)
      case Ok(s) =>
        match Validate(last)
        case Some(failure) => Err(failure)
        case None => Ok(s.(sets := s.sets[Key(last.businessUnit, last.id) := last]))
  }

  lemma {:induction false} SeedingStops(seed: seq<PolicySet>, n: nat)
    requires n <= |seed| && Seeded(seed[..n]).Err?
    ensures Seeded(seed) == Seeded(seed[..n])
    decreases |seed|
  {
    if n < |seed| {
      assert seed[..|seed| - 1][..n] == seed[..n];
      SeedingStops(seed[..|seed| - 1], n);
    } else {
      assert seed[..n] == seed;
    }
  }

  /** The newest entries first, as many as asked for. */
  function Recent(log: seq<ChangeResult>, take: int): (r: seq<ChangeResult>)
    ensures |r| == if take < 0 then 0 else if take < |log| then take else |log|
    ensures forall i :: 0 <= i < |r| ==> r[i] == log[|log| - 1 - i]
  {
    if take <= 0 || log == [] then [] else [log[|log| - 1]] + Recent(log[..|log| - 1], take - 1)
  }

  // ---- What an update does, field by field ----

  /** `after` holds what the update supplied for a field, and otherwise what the field held. */
  predicate Takes<T(==)>(supplied: Option<T>, before: T, after: T) {
    if supplied.Some? then after == supplied.value else after == before
  }

  /**
   The set an accepted update puts in force: supplied fields taken, the others kept, the next version, who and when.
   */
  predicate PutsInForce(before: PolicySet, u: Update, now: int, after: PolicySet) {
    && Takes(u.approvedVendors, before.approvedVendors, after.approvedVendors)
    && Takes(u.maxClassification, before.maxClassification, after.maxClassification)
    && Takes(u.allowedRegions, before.allowedRegions, after.allowedRegions)
    && Takes(u.maxCostPerRequestUsd, before.maxCostPerRequestUsd, after.maxCostPerRequestUsd)
    && Takes(u.permitsRestrictedData, before.permitsRestrictedData, after.permitsRestrictedData)
    && after.id == before.id && after.businessUnit == before.businessUnit && after.displayName == before.displayName
    && after.version == before.version + 1
    && after.updatedBy == Some(u.updatedBy) && after.updatedAt == Some(now)
  }

  /** An accepted update does just that to the set it names, and reports it; the other sets stay. */
  lemma AcceptedUpdateApplies(s: Store, u: Update, now: int)
    requires Answer(s, u, now).Ok?
    ensures u.Target() in s.sets && s.sets[u.Target()].version == u.expectedVersion
    ensures var result := Answer(s, u, now).value;
            && PutsInForce(s.sets[u.Target()], u, now, result.policySet) && IsValid(result.policySet)
            && result.effectiveFrom == now && result.changed == Changes(s.sets[u.Target()], result.policySet)
            && After(s, u, now).sets == s.sets[u.Target() := result.policySet]
            && After(s, u, now).Log(u.Target()) == s.Log(u.Target()) + [result]
  {
  }

  /**
   Why an update is refused: no such set; else another version; else a set that would be invalid. Then nothing
   changes.
   */
  lemma RefusedUpdateSays(s: Store, u: Update, now: int)
    ensures Answer(s, u, now) == Err(NotFound(u.id)) <==> u.Target() !in s.sets
    ensures u.Target() in s.sets ==>
              (Answer(s, u, now) == Err(Stale(u.expectedVersion, s.sets[u.Target()].version)) <==>
                 s.sets[u.Target()].version != u.expectedVersion)
    ensures u.Target() in s.sets && s.sets[u.Target()].version == u.expectedVersion ==>
              (Answer(s, u, now).Err? <==>
                 exists p: PolicySet :: PutsInForce(s.sets[u.Target()], u, now, p) && !IsValid(p))
    ensures Answer(s, u, now).Err? ==> After(s, u, now) == s
  {
    if u.Target() in s.sets {
      var current := s.sets[u.Target()];
      assert PutsInForce(current, u, now, Proposed(current, u, now));
      forall p: PolicySet | PutsInForce(current, u, now, p) ensures p == Proposed(current, u, now) {}
    }
  }

  class InMemoryPolicySetRepository {
    var sets: map<string, PolicySet>
    var history: map<string, seq<ChangeResult>>

    function State(): Store reads this { Store(sets, history) }

    constructor Empty()
      ensures State() == Store(map[], map[])
    {
      sets, history := map[], map[];
    }

    method Update(u: Update, now: int) returns (answer: Result<ChangeResult, UpdateError>)
      modifies this
      ensures answer == Answer(old(State()), u, now)
      ensures State() == After(old(State()), u, now)
      ensures answer.Ok? ==>
                && u.Target() in old(sets)
                && PutsInForce(old(sets)[u.Target()], u, now, answer.value.policySet)
                && sets == old(sets)[u.Target() := answer.value.policySet]
      ensures answer.Err? ==> sets == old(sets) && history == old(history)
    {
      var key := u.Target();
      if key !in sets { return Err(NotFound(u.id)); }
      var current := sets[key];
      if current.version != u.expectedVersion { return Err(Stale(u.expectedVersion, current.version)); }
      var proposed := Proposed(current, u, now);
      var failure := Validate(proposed);
      if failure.Some? { return Err(Invalid(failure.value)); }
      var changed := Diff(current, proposed);
      var result := ChangeResult(proposed, changed, now);
      sets := sets[key := proposed];
      if key !in history { history := history[key := []]; }
      history := history[key := history[key] + [result]];
      answer := Ok(result);
    }

    method Get(businessUnit: string, id: string) returns (r: Option<PolicySet>)
      ensures r == if Key(businessUnit, id) in sets then Some(sets[Key(businessUnit, id)]) else None
    {
      r := if Key(businessUnit, id) in sets then Some(sets[Key(businessUnit, id)]) else None;
    }

    method History(businessUnit: string, id: string, take: int) returns (r: seq<ChangeResult>)
      ensures r == Recent(State().Log(Key(businessUnit, id)), take)
    {
      r := if Key(businessUnit, id) in history then Recent(history[Key(businessUnit, id)], take) else [];
    }
  }

  /** Opening a repository over a baseline; an invalid set leaves no repository. */
  method Open(seed: seq<PolicySet>) returns (r: Result<InMemoryPolicySetRepository, ValidationFailure>)
    ensures r.Ok? ==> fresh(r.value) && Seeded(seed) == Ok(r.value.State())
    ensures r.Err? ==> Seeded(seed) == Err(r.error)
  {
    var repository := new InMemoryPolicySetRepository.Empty();
    for n := 0 to |seed|
      invariant fresh(repository)
      invariant Seeded(seed[..n]) == Ok(repository.State())
    {
      assert seed[..n + 1][..n] == seed[..n];
      var failure := Validate(seed[n]);
      if failure.Some? {
        SeedingStops(seed, n + 1);
        return Err(failure.value);
      }
      repository.sets := repository.sets[Key(seed[n].businessUnit, seed[n].id) := seed[n]];
    }
    assert seed[..|seed|] == seed;
    r := Ok(repository);
  }

  // ---- Every run of updates ----

  datatype Request = Request(update: Update, now: int)

  function Run(s: Store, requests: seq<Request>): Store {
    if requests == [] then s else
      var last := requests[|requests| - 1];
      After(Run(s, requests[..|requests| - 1]), last.update, last.now)
  }

  /** The answer to the request at `i`. */
  function AnswerAt(s: Store, requests: seq<Request>, i: nat): Result<ChangeResult, UpdateError>
    requires i < |requests|
  {
    Answer(Run(s, requests[..i]), requests[i].update, requests[i].now)
  }

  /** The accepted results for one key, in request order. */
  function Accepted(s: Store, requests: seq<Request>, key: string): seq<ChangeResult> {
    if requests == [] then [] else
      var n := |requests| - 1;
      Accepted(s, requests[..n], key) +
      if requests[n].update.Target() == key && AnswerAt(s, requests, n).Ok? then [AnswerAt(s, requests, n).value]
          else []
  }

  /** The set in force before the entry at `i`. */
  function Preceding(first: PolicySet, log: seq<ChangeResult>, i: nat): PolicySet
    requires i <= |log|
  {
    if i == 0 then first else log[i - 1].policySet
  }

  predicate SameSet(p: PolicySet, q: PolicySet) {
    p.id == q.id && p.businessUnit == q.businessUnit && p.displayName == q.displayName
  }

  /** The entry holds the next version of `p`. */
  predicate Succeeds(p: PolicySet, entry: ChangeResult) {
    entry.policySet.version == p.version + 1 && SameSet(p, entry.policySet)
  }

  /** The entry is valid, lists exactly what it changed, and says who changed it and when. */
  predicate Accounts(p: PolicySet, entry: ChangeResult) {
    var q := entry.policySet;
    IsValid(q) && entry.changed == Changes(p, q) && q.updatedBy.Some? && q.updatedAt == Some(entry.effectiveFrom)
  }

  type Link = (PolicySet, ChangeResult) -> bool

  /** Every entry of a log stands in a relation to the set in force before it. */
  ghost predicate Linked(link: Link, first: PolicySet, log: seq<ChangeResult>) {
    forall i: nat :: i < |log| ==> link(Preceding(first, log, i), log[i])
  }

  function Succeeding(): Link { (p, entry) => Succeeds(p, entry) }

  function Accounting(): Link { (p, entry) => Accounts(p, entry) }

  /** A log leads from `first` to `last` without a gap, and accounts for every change. */
  ghost predicate Chain(first: PolicySet, log: seq<ChangeResult>, last: PolicySet) {
    Linked(Succeeding(), first, log) && Linked(Accounting(), first, log) && last == Preceding(first, log, |log|)
  }

  lemma LinkedExtends(link: Link, first: PolicySet, log: seq<ChangeResult>, entry: ChangeResult)
    requires Linked(link, first, log) && link(Preceding(first, log, |log|), entry)
    ensures Linked(link, first, log + [entry])
  {
    var longer := log + [entry];
    forall i: nat | i < |longer| ensures link(Preceding(first, longer, i), longer[i]) {
      assert Preceding(first, longer, i) == Preceding(first, log, i);
    }
  }

  lemma ChainExtends(first: PolicySet, log: seq<ChangeResult>, last: PolicySet, entry: ChangeResult)
    requires Chain(first, log, last) && Succeeding()(last, entry) && Accounting()(last, entry)
    ensures Chain(first, log + [entry], entry.policySet)
  {
    LinkedExtends(Succeeding(), first, log, entry);
    LinkedExtends(Accounting(), first, log, entry);
  }

  lemma {:induction false} VersionAt(first: PolicySet, log: seq<ChangeResult>, i: nat)
    requires Linked(Succeeding(), first, log) && i <= |log|
    ensures Preceding(first, log, i).version == first.version + i
    ensures SameSet(first, Preceding(first, log, i))
  {
    if i > 0 {
      VersionAt(first, log, i - 1);
      assert Succeeding()(Preceding(first, log, i - 1), log[i - 1]);
    }
  }

  /** Along a chain the versions count up by one and the set stays itself. */
  lemma ChainCounts(first: PolicySet, log: seq<ChangeResult>, last: PolicySet)
    requires Linked(Succeeding(), first, log) && last == Preceding(first, log, |log|)
    ensures last.version == first.version + |log| && SameSet(first, last)
    ensures forall i: nat :: i < |log| ==> log[i].policySet.version == first.version + i + 1
  {
    VersionAt(first, log, |log|);
    forall i: nat | i < |log| ensures log[i].policySet.version == first.version + i + 1 {
      VersionAt(first, log, i + 1);
    }
  }

  /** Every stored set is valid and filed under its own key, and nothing has been written since seeding. */
  predicate Baseline(s: Store) {
    && s.history == map[]
    && forall k :: k in s.sets ==> IsValid(s.sets[k]) && k == Key(s.sets[k].businessUnit, s.sets[k].id)
  }

  lemma {:induction false} SeedingGivesBaseline(seed: seq<PolicySet>)
    ensures Seeded(seed).Ok? ==> Baseline(Seeded(seed).value)
    ensures Seeded(seed).Ok? <==> forall p :: p in seed ==> IsValid(p)
    ensures Seeded(seed).Ok? ==> forall p :: p in seed ==> Key(p.businessUnit, p.id) in Seeded(seed).value.sets
  {
    if seed != [] {
      var n := |seed| - 1;
      SeedingGivesBaseline(seed[..n]);
      assert forall p :: p in seed <==> p in seed[..n] || p == seed[n];
    }
  }

  /** What holds of one key after a run that began at `s`. */
  ghost predicate Kept(s: Store, requests: seq<Request>, key: string) {
    var now := Run(s, requests);
    && (key in now.sets <==> key in s.sets)
    && (key in now.history ==> key in s.sets)
    && now.Log(key) == Accepted(s, requests, key)
    && (key in s.sets ==> IsValid(now.sets[key]) && Chain(s.sets[key], now.Log(key), now.sets[key]))
  }

  /**
   The heart of the repository: along any run, history is exactly the accepted updates and chains the seed to the
   present.
   */
  lemma {:induction false} RunsKeep(s: Store, requests: seq<Request>, key: string)
    requires Baseline(s)
    ensures Kept(s, requests, key)
  {
    if requests != [] {
      var n := |requests| - 1;
      var before, r := Run(s, requests[..n]), requests[n];
      RunsKeep(s, requests[..n], key);
      if r.update.Target() == key && AnswerAt(s, requests, n).Ok? {
        var entry := AnswerAt(s, requests, n).value;
        assert Succeeds(before.sets[key], entry) && Accounts(before.sets[key], entry);
        ChainExtends(s.sets[key], before.Log(key), before.sets[key], entry);
      }
    }
  }

  /** The version counts the accepted updates, and the set keeps its identity. */
  lemma VersionCountsAccepted(s: Store, requests: seq<Request>, key: string)
    requires Baseline(s) && key in s.sets
    ensures key in Run(s, requests).sets
    ensures Run(s, requests).sets[key].version == s.sets[key].version + |Accepted(s, requests, key)|
    ensures SameSet(s.sets[key], Run(s, requests).sets[key])
    ensures forall i: nat :: i < |Run(s, requests).Log(key)| ==>
                Run(s, requests).Log(key)[i].policySet.version == s.sets[key].version + i + 1
  {
    RunsKeep(s, requests, key);
    ChainCounts(s.sets[key], Run(s, requests).Log(key), Run(s, requests).sets[key]);
  }

  lemma AcceptedGrowsByOne(s: Store, requests: seq<Request>, key: string)
    requires requests != []
    ensures |Accepted(s, requests[..|requests| - 1], key)| <= |Accepted(s, requests, key)|
  {
  }

  lemma {:induction false} AcceptedGrows(s: Store, requests: seq<Request>, key: string, i: nat)
    requires i <= |requests|
    ensures |Accepted(s, requests[..i], key)| <= |Accepted(s, requests, key)|
    decreases |requests|
  {
    if i < |requests| {
      var front := requests[..|requests| - 1];
      assert front[..i] == requests[..i];
      AcceptedGrows(s, front, key, i);
      AcceptedGrowsByOne(s, requests, key);
    } else {
      assert requests[..i] == requests;
    }
  }

  /**
   The value a field has after a run: what the last accepted update of the set that supplied it supplied, or the
   seed's.
   */
  function LastSupplied<T>(supplied: Update -> Option<T>, s: Store, requests: seq<Request>, key: string, seed: T): T {
    if requests == [] then seed else
      var n := |requests| - 1;
      var u := requests[n].update;
      if u.Target() == key && AnswerAt(s, requests, n).Ok? && supplied(u).Some? then supplied(u).value
      else LastSupplied(supplied, s, requests[..n], key, seed)
  }

  lemma {:induction false} FieldFollows<T(!new)>(
    get: PolicySet -> T, supplied: Update -> Option<T>, s: Store, requests: seq<Request>, key: string)
    requires Baseline(s) && key in s.sets
    requires forall p, u, now, q :: PutsInForce(p, u, now, q) ==>
               get(q) == if supplied(u).Some? then supplied(u).value else get(p)
    ensures key in Run(s, requests).sets
    ensures get(Run(s, requests).sets[key]) == LastSupplied(supplied, s, requests, key, get(s.sets[key]))
  {
    RunsKeep(s, requests, key);
    if requests != [] {
      var n := |requests| - 1;
      FieldFollows(get, supplied, s, requests[..n], key);
      LastRequest(s, requests, key);
    }
  }

  /** What the last request does to one set. */
  lemma LastRequest(s: Store, requests: seq<Request>, key: string)
    requires requests != [] && key in Run(s, requests[..|requests| - 1]).sets
    ensures var n := |requests| - 1;
            var before, u := Run(s, requests[..n]), requests[n].update;
            && key in Run(s, requests).sets
            && (u.Target() == key && AnswerAt(s, requests, n).Ok? ==>
                  PutsInForce(before.sets[key], u, requests[n].now, Run(s, requests).sets[key]))
            && (u.Target() != key || AnswerAt(s, requests, n).Err? ==> Run(s, requests).sets[key] == before.sets[key])
  {
    var n := |requests| - 1;
    if AnswerAt(s, requests,
        n).Ok? { AcceptedUpdateApplies(Run(s, requests[..n]), requests[n].update, requests[n].now); }
  }

  /**
   Over any run each governed field holds what the last accepted update that supplied it supplied, or the seed's
   value.
   */
  lemma FieldsFollowUpdates(s: Store, requests: seq<Request>, key: string)
    requires Baseline(s) && key in s.sets
    ensures key in Run(s, requests).sets
    ensures var p, seed := Run(s, requests).sets[key], s.sets[key];
            && p.approvedVendors
                 == LastSupplied((u: Update) => u.approvedVendors, s, requests, key, seed.approvedVendors)
            && p.maxClassification
                 == LastSupplied((u: Update) => u.maxClassification, s, requests, key, seed.maxClassification)
            && p.allowedRegions == LastSupplied((u: Update) => u.allowedRegions, s, requests, key, seed.allowedRegions)
            && p.maxCostPerRequestUsd
                 == LastSupplied((u: Update) => u.maxCostPerRequestUsd, s, requests, key, seed.maxCostPerRequestUsd)
            && p.permitsRestrictedData
                 == LastSupplied((u: Update) => u.permitsRestrictedData, s, requests, key, seed.permitsRestrictedData)
  {
    FieldFollows((p: PolicySet) => p.approvedVendors, (u: Update) => u.approvedVendors, s, requests, key);
    FieldFollows((p: PolicySet) => p.maxClassification, (u: Update) => u.maxClassification, s, requests, key);
    FieldFollows((p: PolicySet) => p.allowedRegions, (u: Update) => u.allowedRegions, s, requests, key);
    FieldFollows((p: PolicySet) => p.maxCostPerRequestUsd, (u: Update) => u.maxCostPerRequestUsd, s, requests, key);
    FieldFollows((p: PolicySet) => p.permitsRestrictedData, (u: Update) => u.permitsRestrictedData, s, requests, key);
  }

  /**
   What history shows first, after any run, is the set in force; it shows nothing exactly when nothing was accepted.
   */
  lemma HistoryLeadsToCurrent(s: Store, requests: seq<Request>, key: string, take: int)
    requires Baseline(s) && key in s.sets && take > 0
    ensures var now := Run(s, requests);
            var shown := Recent(now.Log(key), take);
            && key in now.sets
            && (shown == [] <==> Accepted(s, requests, key) == [])
            && (if shown == [] then now.sets[key] == s.sets[key] else now.sets[key] == shown[0].policySet)
  {
    RunsKeep(s, requests, key);
  }

  /** Two accepted updates of one set never named the same expected version: later ones named later versions. */
  lemma OneAcceptedPerVersion(s: Store, requests: seq<Request>, i: nat, j: nat)
    requires Baseline(s) && i < j < |requests|
    requires requests[i].update.Target() == requests[j].update.Target()
    requires AnswerAt(s, requests, i).Ok? && AnswerAt(s, requests, j).Ok?
    ensures requests[i].update.expectedVersion < requests[j].update.expectedVersion
  {
    var key := requests[i].update.Target();
    RunsKeep(s, requests[..i], key);
    VersionCountsAccepted(s, requests[..i], key);
    VersionCountsAccepted(s, requests[..j], key);
    var upTo := requests[..i + 1];
    assert upTo[..i] == requests[..i];
    assert |Accepted(s, upTo, key)| == |Accepted(s, requests[..i], key)| + 1;
    assert requests[..j][..i + 1] == upTo;
    AcceptedGrows(s, requests[..j], key, i + 1);
  }

  /** A stale or invalid update is refused; a current and valid one is accepted, whatever came before. */
  lemma AcceptedIff(s: Store, requests: seq<Request>, u: Update, now: int)
    requires Baseline(s)
    ensures Answer(Run(s, requests), u, now).Ok? <==>
            && u.Target() in s.sets && u.Target() in Run(s, requests).sets
            && u.expectedVersion == s.sets[u.Target()].version + |Accepted(s, requests, u.Target())|
            && IsValid(Proposed(Run(s, requests).sets[u.Target()], u, now))
  {
    RunsKeep(s, requests, u.Target());
    if u.Target() in s.sets { VersionCountsAccepted(s, requests, u.Target()); }
  }

  /** With business units free of slashes, an accepted update changed the set it named and no other. */
  lemma UpdatesReachTheirOwnSet(s: Store, requests: seq<Request>, u: Update, now: int)
    requires Baseline(s) && Slashless(u.businessUnit)
    requires forall k :: k in s.sets ==> Slashless(s.sets[k].businessUnit)
    requires Answer(Run(s, requests), u, now).Ok?
    ensures Answer(Run(s, requests), u, now).value.policySet.businessUnit == u.businessUnit
    ensures Answer(Run(s, requests), u, now).value.policySet.id == u.id
  {
    var key := u.Target();
    RunsKeep(s, requests, key);
    VersionCountsAccepted(s, requests, key);
    KeyInjective(s.sets[key].businessUnit, s.sets[key].id, u.businessUnit, u.id);
  }

  /** Supplying nothing keeps every governed field and yet takes a version. */
  lemma EmptyUpdateBurnsAVersion(s: Store, u: Update, now: int)
    requires u.Target() in s.sets && u.expectedVersion == s.sets[u.Target()].version && IsValid(s.sets[u.Target()])
    requires u.approvedVendors.None? && u.maxClassification.None? && u.allowedRegions.None?
    requires u.maxCostPerRequestUsd.None? && u.permitsRestrictedData.None?
    ensures Answer(s, u, now).Ok? && Answer(s, u, now).value.changed == []
    ensures After(s, u, now).sets[u.Target()].version == s.sets[u.Target()].version + 1
  {
    EmptyDifferenceHidesOnlyRegions(s.sets[u.Target()], Proposed(s.sets[u.Target()], u, now));
  }
}
