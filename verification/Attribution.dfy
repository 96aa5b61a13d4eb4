/** The attribution gate: which claims of a synthesis may be published, and the coverage reported. */
module Attribution {
  import opened Prelude
  import opened Rounding
  import Ordinal

  datatype RetrievedChunk = RetrievedChunk(chunkId: string, sourceId: string, sourceTitle: string, text: string)

  datatype Citation = Citation(chunkId: string, quote: Option<string>)

  datatype Claim = Claim(claimId: string, text: string, citations: seq<Citation>)

  // ---- Retrieval ----

  /** The first chunk under an identifier. */
  function Find(chunks: seq<RetrievedChunk>, id: string): Option<RetrievedChunk> {
    if chunks == [] then None
    else if chunks[0].chunkId == id then Some(chunks[0])
    else Find(chunks[1..], id)
  }

  ghost predicate DistinctIds(chunks: seq<RetrievedChunk>) {
    forall i, j :: 0 <= i < j < |chunks| ==> chunks[i].chunkId != chunks[j].chunkId
  }

  lemma {:induction false} FindIsAmong(chunks: seq<RetrievedChunk>, id: string)
    ensures Find(chunks, id).Some? ==> Find(chunks, id).value in chunks && Find(chunks, id).value.chunkId == id
    ensures Find(chunks, id).None? ==> forall c :: c in chunks ==> c.chunkId != id
  {
    if chunks != [] {
      FindIsAmong(chunks[1..], id);
      assert chunks == [chunks[0]] + chunks[1..];
    }
  }

  lemma {:induction false} FindAppend(chunks: seq<RetrievedChunk>, c: RetrievedChunk, id: string)
    ensures Find(chunks + [c], id) == if Find(chunks, id).Some? then Find(chunks, id) else if c.chunkId == id
            then Some(c) else None
  {
    if chunks == [] {
      assert (chunks + [c])[1..] == [];
    } else {
      FindAppend(chunks[1..], c, id);
      assert (chunks + [c])[1..] == chunks[1..] + [c];
    }
  }

  class RetrievalResult {
    var byId: map<string, RetrievedChunk>
    var chunks: seq<RetrievedChunk>

    ghost predicate Valid() reads this {
      DistinctIds(chunks) && forall id :: Find(chunks, id) == if id in byId then Some(byId[id]) else None
    }

    constructor Empty()
      ensures Valid() && chunks == []
    {
      byId, chunks := map[], [];
    }

    /** False when the identifier is taken; then nothing changes. */
    method TryAdd(chunk: RetrievedChunk) returns (added: bool)
      requires Valid()
      modifies this
      ensures Valid()
      ensures added <==> Find(old(chunks), chunk.chunkId).None?
      ensures chunks == if added then old(chunks) + [chunk] else old(chunks)
    {
      added := chunk.chunkId !in byId;
      if added {
        forall id ensures Find(chunks + [chunk], id) == if Find(chunks, id).Some? then Find(chunks, id)
            else if chunk.chunkId == id then Some(chunk) else None {
          FindAppend(chunks, chunk, id);
        }
        FindIsAmong(chunks, chunk.chunkId);
        byId := byId[chunk.chunkId := chunk];
        chunks := chunks + [chunk];
      }
    }

    method Resolve(chunkId: string) returns (chunk: Option<RetrievedChunk>)
      requires Valid()
      ensures chunk == Find(chunks, chunkId)
    {
      chunk := if chunkId in byId then Some(byId[chunkId]) else None;
    }
  }

  /**
   Retrieval is rejected exactly when an identifier occurs twice, naming the first that does; otherwise it keeps every
   chunk in order.
   */
  method Retrieve(chunks: seq<RetrievedChunk>) returns (r: Result<RetrievalResult, string>)
    ensures r.Ok? <==> DistinctIds(chunks)
    ensures r.Ok? ==> fresh(r.value) && r.value.Valid() && r.value.chunks == chunks
    ensures r.Err? ==> exists i, j ::
            0 <= i < j < |chunks| && chunks[i].chunkId == chunks[j].chunkId == r.error && DistinctIds(chunks[..j])
  {
    var retrieval := new RetrievalResult.Empty();
    for k := 0 to |chunks|
      invariant fresh(retrieval) && retrieval.Valid() && retrieval.chunks == chunks[..k]
    {
      FindIsAmong(chunks[..k], chunks[k].chunkId);
      var added := retrieval.TryAdd(chunks[k]);
      if !added {
        var c := Find(chunks[..k], chunks[k].chunkId).value;
        var i :| 0 <= i < k && chunks[..k][i] == c;
        assert chunks[i].chunkId == chunks[k].chunkId;
        return Err(chunks[k].chunkId);
      }
      assert chunks[..k + 1] == chunks[..k] + [chunks[k]];
    }
    assert chunks[..|chunks|] == chunks;
    r := Ok(retrieval);
  }

  // ---- Detections ----

  datatype Finding = Finding(category: string, matched: string, offset: nat)

  datatype Detection = Detection(chunkId: string, sourceId: string, finding: Finding)

  /** What the pattern list finds in a text. */
  type Patterns = string -> seq<Finding>

  function Attribute(c: RetrievedChunk): Finding -> Detection { (f: Finding) => Detection(c.chunkId, c.sourceId, f) }

  function Scan(patterns: Patterns): RetrievedChunk -> seq<Detection> {
    (c: RetrievedChunk) => Map(Attribute(c), patterns(c.text))
  }

  function ScanAll(patterns: Patterns, chunks: seq<RetrievedChunk>): seq<Detection> { FlatMap(Scan(patterns), chunks) }

  function DetectedIds(detections: seq<Detection>): set<string> { set d | d in detections :: d.chunkId }

  datatype Policy = Policy(quarantineInjectedChunks: bool, minimumCoveragePercent: real)

  /** Identifiers barred from grounding, in ordinal order. */
  function Quarantined(patterns: Patterns, chunks: seq<RetrievedChunk>, policy: Policy): seq<string> {
    if policy.quarantineInjectedChunks then Ordinal.InOrder(DetectedIds(ScanAll(patterns, chunks))) else []
  }

  /** With distinct identifiers a chunk is detected exactly when its own text holds a finding. */
  lemma DetectedIff(patterns: Patterns, chunks: seq<RetrievedChunk>, c: RetrievedChunk)
    requires DistinctIds(chunks) && c in chunks
    ensures c.chunkId in DetectedIds(ScanAll(patterns, chunks)) <==> patterns(c.text) != []
  {
    if patterns(c.text) != [] {
      var d := Attribute(c)(patterns(c.text)[0]);
      MapMembers(Attribute(c), patterns(c.text));
      FlatMapMembers(Scan(patterns), chunks, d);
      assert d in Scan(patterns)(c);
      assert d in ScanAll(patterns, chunks);
    }
    if d :| d in ScanAll(patterns, chunks) && d.chunkId == c.chunkId {
      FlatMapMembers(Scan(patterns), chunks, d);
      var other :| other in chunks && d in Scan(patterns)(other);
      MapMembers(Attribute(other), patterns(other.text));
      SameIdSameChunk(chunks, c, other);
    }
  }

  lemma SameIdSameChunk(chunks: seq<RetrievedChunk>, a: RetrievedChunk, b: RetrievedChunk)
    requires DistinctIds(chunks) && a in chunks && b in chunks && a.chunkId == b.chunkId
    ensures a == b
  {
    var i :| 0 <= i < |chunks| && chunks[i] == a;
    var j :| 0 <= j < |chunks| && chunks[j] == b;
    assert i == j;
  }

  // ---- The verdict on one claim ----

  datatype Reason = NoCitation | UnresolvableCitation | QuarantinedSource

  datatype Verdict = Attributed(supporting: seq<RetrievedChunk>) | Withheld(reason: Reason, unresolved: seq<string>)

  /** Evidence against which claims are judged. */
  datatype Evidence = Evidence(chunks: seq<RetrievedChunk>, quarantined: set<string>) {
    /** A citation a claim may rest on. */
    predicate Grounds(c: Citation) { Find(chunks, c.chunkId).Some? && c.chunkId !in quarantined }

    predicate Blocked(c: Citation) { Find(chunks, c.chunkId).Some? && c.chunkId in quarantined }

    predicate Unknown(c: Citation) { Find(chunks, c.chunkId).None? }
  }

  /** The chunks behind the first citations, each once, in citation order. */
  function Supporting(e: Evidence, citations: seq<Citation>): seq<RetrievedChunk> {
    if citations == [] then [] else
      var n := |citations| - 1;
      var before, last := Supporting(e, citations[..n]), citations[n];
      if e.Grounds(last) && !Supports(before, last.chunkId) then before + [Find(e.chunks, last.chunkId).value]
          else before
  }

  predicate Supports(chunks: seq<RetrievedChunk>, id: string) { exists c :: c in chunks && c.chunkId == id }

  function Unresolved(e: Evidence, citations: seq<Citation>): seq<string> {
    if citations == [] then [] else
      var n := |citations| - 1;
      Unresolved(e, citations[..n]) + if e.Unknown(citations[n]) then [citations[n].chunkId] else []
  }

  predicate AnyBlocked(e: Evidence, citations: seq<Citation>) { exists c :: c in citations && e.Blocked(c) }

  function Judge(e: Evidence, claim: Claim): Verdict {
    if claim.citations == [] then Withheld(NoCitation, [])
    else if Supporting(e, claim.citations) != [] then Attributed(Supporting(e, claim.citations))
    else if Unresolved(e, claim.citations) != [] then Withheld(UnresolvableCitation, Unresolved(e, claim.citations))
    else if AnyBlocked(e, claim.citations) then Withheld(QuarantinedSource, [])
    else Withheld(NoCitation, [])
  }

  lemma {:induction false} SupportingAre(e: Evidence, citations: seq<Citation>)
    ensures forall id ::
            Supports(Supporting(e, citations), id) <==> exists c :: c in citations && c.chunkId == id && e.Grounds(c)
    ensures forall s :: s in Supporting(e, citations) ==> s in e.chunks && s.chunkId !in e.quarantined
    ensures DistinctIds(Supporting(e, citations))
  {
    if citations != [] {
      var n := |citations| - 1;
      SupportingAre(e, citations[..n]);
      SupportingMore(e, citations[..n], citations[n]);
      assert citations == citations[..n] + [citations[n]];
    }
  }

  lemma SupportingMore(e: Evidence, citations: seq<Citation>, last: Citation)
    requires forall id ::
            Supports(Supporting(e, citations), id) <==> exists c :: c in citations && c.chunkId == id && e.Grounds(c)
    requires forall s :: s in Supporting(e, citations) ==> s in e.chunks && s.chunkId !in e.quarantined
    requires DistinctIds(Supporting(e, citations))
    ensures forall id ::
            Supports(Supporting(e, citations + [last]), id) <==> exists c ::
            c in citations + [last] && c.chunkId == id && e.Grounds(c)
    ensures forall s :: s in Supporting(e, citations + [last]) ==> s in e.chunks && s.chunkId !in e.quarantined
    ensures DistinctIds(Supporting(e, citations + [last]))
  {
    assert (citations + [last])[..|citations|] == citations;
    FindIsAmong(e.chunks, last.chunkId);
    var before, after := Supporting(e, citations), Supporting(e, citations + [last]);
    forall id ensures Supports(after, id) <==> exists c :: c in citations + [last] && c.chunkId == id && e.Grounds(c) {
      assert Supports(after, id) <==> Supports(before, id) || (e.Grounds(last) && last.chunkId == id) by {
        if Supports(before, id) {
          var s :| s in before && s.chunkId == id;
          assert s in after;
        }
        if e.Grounds(last) && last.chunkId == id && !Supports(before, id) {
          assert after[|before|].chunkId == id;
        }
      }
    }
  }

  lemma {:induction false} UnresolvedAre(e: Evidence, citations: seq<Citation>)
    ensures Unresolved(e, citations) != [] <==> exists c :: c in citations && e.Unknown(c)
    ensures forall id ::
            id in Unresolved(e, citations) <==> exists c :: c in citations && e.Unknown(c) && c.chunkId == id
  {
    if citations != [] {
      UnresolvedAre(e, citations[..|citations| - 1]);
      assert citations == citations[..|citations| - 1] + [citations[|citations| - 1]];
    }
  }

  /** Where each supporting chunk was first cited: the positions rise with the chunks. */
  ghost predicate FirstCitedAt(supporting: seq<RetrievedChunk>, citations: seq<Citation>, places: seq<nat>) {
    && |places| == |supporting|
    && (forall i :: 0 <= i < |places| ==>
          && places[i] < |citations| && citations[places[i]].chunkId == supporting[i].chunkId
          && forall k :: 0 <= k < places[i] ==> citations[k].chunkId != supporting[i].chunkId)
    && (forall i, j :: 0 <= i < j < |places| ==> places[i] < places[j])
  }

  lemma CitedBefore(supporting: seq<RetrievedChunk>, citations: seq<Citation>, places: seq<nat>)
    requires citations != [] && FirstCitedAt(supporting, citations[..|citations| - 1], places)
    ensures FirstCitedAt(supporting, citations, places) && forall i :: 0 <= i < |places| ==> places[i] < |citations| - 1
  {
    var before := citations[..|citations| - 1];
    assert forall k :: 0 <= k < |before| ==> before[k] == citations[k];
  }

  lemma CitedNext(
    supporting: seq<RetrievedChunk>, citations: seq<Citation>, places: seq<nat>, c: RetrievedChunk, n: nat)
    requires FirstCitedAt(supporting, citations, places) && forall i :: 0 <= i < |places| ==> places[i] < n
    requires n < |citations| && citations[n].chunkId == c.chunkId
    requires forall k :: 0 <= k < n ==> citations[k].chunkId != c.chunkId
    ensures FirstCitedAt(supporting + [c], citations, places + [n])
  {
  }

  /** Supporting chunks stand in the order in which they are first cited. */
  lemma {:induction false} SupportingInOrder(e: Evidence, citations: seq<Citation>) returns (places: seq<nat>)
    ensures FirstCitedAt(Supporting(e, citations), citations, places)
  {
    places := [];
    if citations != [] {
      var n := |citations| - 1;
      var before := Supporting(e, citations[..n]);
      places := SupportingInOrder(e, citations[..n]);
      CitedBefore(before, citations, places);
      if e.Grounds(citations[n]) && !Supports(before, citations[n].chunkId) {
        FindIsAmong(e.chunks, citations[n].chunkId);
        NotCitedBefore(e, citations, n);
        CitedNext(before, citations, places, Find(e.chunks, citations[n].chunkId).value, n);
        places := places + [n];
      }
    }
  }

  lemma NotCitedBefore(e: Evidence, citations: seq<Citation>, n: nat)
    requires n < |citations| && e.Grounds(citations[n])
    requires !Supports(Supporting(e, citations[..n]), citations[n].chunkId)
    ensures forall k :: 0 <= k < n ==> citations[k].chunkId != citations[n].chunkId
  {
    SupportingAre(e, citations[..n]);
    forall k | 0 <= k < n ensures citations[k].chunkId != citations[n].chunkId {
      assert citations[..n][k] == citations[k] && citations[k] in citations[..n];
    }
  }

  function ChunkIdOf(): Citation -> string { (c: Citation) => c.chunkId }

  function IsUnknown(e: Evidence): Citation -> bool {
    (c: Citation) => forall x :: x in e.chunks ==> x.chunkId != c.chunkId
  }

  /** What is reported as unresolved: every citation of something never retrieved, in order. */
  lemma {:induction false} UnresolvedInOrder(e: Evidence, citations: seq<Citation>)
    ensures Unresolved(e, citations) == Map(ChunkIdOf(), Filter(IsUnknown(e), citations))
  {
    if citations != [] {
      var n := |citations| - 1;
      var last := citations[n];
      UnresolvedInOrder(e, citations[..n]);
      FindIsAmong(e.chunks, last.chunkId);
      assert citations == citations[..n] + [last];
      FilterConcat(IsUnknown(e), citations[..n], [last]);
      assert Filter(IsUnknown(e), [last]) == if IsUnknown(e)(last) then [last] else [];
      MapConcat(ChunkIdOf(), Filter(IsUnknown(e), citations[..n]), Filter(IsUnknown(e), [last]));
      MapOne(ChunkIdOf(), last);
    }
  }

  /** A claim is published exactly when some citation resolves to a chunk that was retrieved and is not quarantined. */
  lemma PublishedIff(e: Evidence, claim: Claim)
    ensures Judge(e, claim).Attributed? <==> exists c :: c in claim.citations && e.Grounds(c)
    ensures Judge(e, claim).Attributed? ==>
              (forall s :: s in Judge(e, claim).supporting ==> s in e.chunks && s.chunkId !in e.quarantined)
              && (forall id :: Supports(Judge(e, claim).supporting, id) <==> exists c ::
                  c in claim.citations && c.chunkId == id && e.Grounds(c))
              && DistinctIds(Judge(e, claim).supporting)
  {
    SupportingAre(e, claim.citations);
    var s := Supporting(e, claim.citations);
    if s != [] { assert Supports(s, s[0].chunkId); }
    if c :| c in claim.citations && e.Grounds(c) { assert Supports(s, c.chunkId); }
  }

  /**
   Why a claim is withheld, exactly: nothing was cited; or something cited was never retrieved and nothing else
   supports;
   or everything cited was retrieved and quarantined. The last branch of the gate is therefore never taken.
   */
  lemma WithheldReasonIff(e: Evidence, claim: Claim)
    requires Judge(e, claim).Withheld?
    ensures Judge(e, claim).reason == NoCitation <==> claim.citations == []
    ensures Judge(e, claim).reason == UnresolvableCitation <==> exists c :: c in claim.citations && e.Unknown(c)
    ensures Judge(e, claim).reason == QuarantinedSource <==> claim.citations != [] && forall c ::
            c in claim.citations ==> e.Blocked(c)
    ensures forall id ::
            id in Judge(e, claim).unresolved <==> exists c :: c in claim.citations && e.Unknown(c) && c.chunkId == id
  {
    PublishedIff(e, claim);
    UnresolvedAre(e, claim.citations);
    if claim.citations != [] {
      var c := claim.citations[0];
      assert c in claim.citations && (e.Grounds(c) || e.Unknown(c) || e.Blocked(c));
    }
  }

  // ---- A whole synthesis ----

  datatype AttributedClaim = AttributedClaim(claim: Claim, supporting: seq<RetrievedChunk>)

  datatype UnattributableClaim = UnattributableClaim(claim: Claim, reason: Reason, unresolved: seq<string>)

  datatype Coverage = Coverage(totalClaims: nat, attributedClaims: nat) {
    function Percent(): Option<real> {
      if totalClaims == 0 then None else Some(TruncatedShare(attributedClaims, totalClaims))
    }

    predicate MeetsBar(policy: Policy) { Percent().Some? && Percent().value >= policy.minimumCoveragePercent }
  }

  datatype AttributedSynthesis = AttributedSynthesis(
    claims: seq<AttributedClaim>, unattributableClaims: seq<UnattributableClaim>,
    injectionDetections: seq<Detection>, quarantinedChunkIds: seq<string>, coverage: Coverage)

  function PublishedOf(e: Evidence): Claim -> seq<AttributedClaim> {
    (c: Claim) =>
      match Judge(e, c)
      case Attributed(supporting) => [AttributedClaim(c, supporting)]
      case Withheld(_, _) => []
  }

  function WithheldOf(e: Evidence): Claim -> seq<UnattributableClaim> {
    (c: Claim) =>
      match Judge(e, c)
      case Attributed(_) => []
      case Withheld(reason, unresolved) => [UnattributableClaim(c, reason, unresolved)]
  }

  function EvidenceOf(patterns: Patterns, chunks: seq<RetrievedChunk>, policy: Policy): Evidence {
    Evidence(chunks, set id | id in Quarantined(patterns, chunks, policy))
  }

  function Synthesis(
    patterns: Patterns, claims: seq<Claim>, chunks: seq<RetrievedChunk>, policy: Policy): AttributedSynthesis {
    var e := EvidenceOf(patterns, chunks, policy);
    var published, withheld := FlatMap(PublishedOf(e), claims), FlatMap(WithheldOf(e), claims);
    AttributedSynthesis(
      published, withheld, ScanAll(patterns, chunks), Quarantined(patterns, chunks, policy),
      Coverage(|published| + |withheld|, |published|))
  }

  /** The inner loop over the citations of one claim. */
  method JudgeClaim(retrieval: RetrievalResult, quarantined: set<string>, claim: Claim) returns (verdict: Verdict)
    requires retrieval.Valid()
    ensures verdict == Judge(Evidence(retrieval.chunks, quarantined), claim)
  {
    if claim.citations == [] { return Withheld(NoCitation, []); }
    ghost var e := Evidence(retrieval.chunks, quarantined);
    var supporting, unresolved, blockedByQuarantine := [], [], false;
    for k := 0 to |claim.citations|
      invariant supporting == Supporting(e, claim.citations[..k])
      invariant unresolved == Unresolved(e, claim.citations[..k])
      invariant blockedByQuarantine <==> AnyBlocked(e, claim.citations[..k])
    {
      var citation := claim.citations[k];
      assert claim.citations[..k + 1][..k] == claim.citations[..k];
      assert claim.citations[..k + 1] == claim.citations[..k] + [citation];
      var chunk := retrieval.Resolve(citation.chunkId);
      if chunk.None? {
        unresolved := unresolved + [citation.chunkId];
      } else if citation.chunkId in quarantined {
        blockedByQuarantine := true;
        assert citation in claim.citations[..k + 1];
      } else {
        FindIsAmong(retrieval.chunks, citation.chunkId);
        if !Supports(supporting, chunk.value.chunkId) {
          supporting := supporting + [chunk.value];
        }
      }
    }
    assert claim.citations[..|claim.citations|] == claim.citations;
    if supporting != [] { return Attributed(supporting); }
    if unresolved != [] {
      verdict := Withheld(UnresolvableCitation, unresolved);
    } else if blockedByQuarantine {
      verdict := Withheld(QuarantinedSource, []);
    } else {
      verdict := Withheld(NoCitation, []);
    }
  }

  method Apply(
    patterns: Patterns, claims: seq<Claim>, retrieval: RetrievalResult,
    policy: Policy) returns (synthesis: AttributedSynthesis)
    requires retrieval.Valid()
    ensures synthesis == Synthesis(patterns, claims, retrieval.chunks, policy)
  {
    var detections := [];
    for k := 0 to |retrieval.chunks|
      invariant detections == ScanAll(patterns, retrieval.chunks[..k])
    {
      assert retrieval.chunks[..k + 1] == retrieval.chunks[..k] + [retrieval.chunks[k]];
      FlatMapAppend(Scan(patterns), retrieval.chunks[..k], retrieval.chunks[k]);
      detections := detections + Scan(patterns)(retrieval.chunks[k]);
    }
    assert retrieval.chunks[..|retrieval.chunks|] == retrieval.chunks;
    var quarantined := if policy.quarantineInjectedChunks then Ordinal.InOrder(DetectedIds(detections)) else [];
    var quarantinedSet := set id | id in quarantined;
    ghost var e := EvidenceOf(patterns, retrieval.chunks, policy);
    var attributed, withheld := [], [];
    for k := 0 to |claims|
      invariant attributed == FlatMap(PublishedOf(e), claims[..k])
      invariant withheld == FlatMap(WithheldOf(e), claims[..k])
    {
      assert claims[..k + 1] == claims[..k] + [claims[k]];
      FlatMapAppend(PublishedOf(e), claims[..k], claims[k]);
      FlatMapAppend(WithheldOf(e), claims[..k], claims[k]);
      var verdict := JudgeClaim(retrieval, quarantinedSet, claims[k]);
      match verdict
      case Attributed(supporting) => attributed := attributed + [AttributedClaim(claims[k], supporting)];
      case Withheld(reason, unresolved) => withheld := withheld + [UnattributableClaim(claims[k], reason, unresolved)];
    }
    assert claims[..|claims|] == claims;
    synthesis := AttributedSynthesis(
      attributed, withheld, detections, quarantined, Coverage(|attributed| + |withheld|, |attributed|));
  }

  // ---- Nothing is lost and nothing is reordered ----

  function IsPublished(e: Evidence): Claim -> bool { (c: Claim) => Judge(e, c).Attributed? }
  function IsWithheld(e: Evidence): Claim -> bool { (c: Claim) => Judge(e, c).Withheld? }
  function ClaimOf(): AttributedClaim -> Claim { (a: AttributedClaim) => a.claim }
  function ClaimWithheld(): UnattributableClaim -> Claim { (u: UnattributableClaim) => u.claim }

  lemma {:induction false} ClaimsSplit(e: Evidence, claims: seq<Claim>)
    ensures Map(ClaimOf(), FlatMap(PublishedOf(e), claims)) == Filter(IsPublished(e), claims)
    ensures Map(ClaimWithheld(), FlatMap(WithheldOf(e), claims)) == Filter(IsWithheld(e), claims)
    ensures |FlatMap(PublishedOf(e), claims)| + |FlatMap(WithheldOf(e), claims)| == |claims|
  {
    if claims != [] {
      var c, rest := claims[0], claims[1..];
      ClaimsSplit(e, rest);
      MapConcat(ClaimOf(), PublishedOf(e)(c), FlatMap(PublishedOf(e), rest));
      MapConcat(ClaimWithheld(), WithheldOf(e)(c), FlatMap(WithheldOf(e), rest));
      OneClaimSplits(e, c);
    }
  }

  lemma OneClaimSplits(e: Evidence, c: Claim)
    ensures Map(ClaimOf(), PublishedOf(e)(c)) == if IsPublished(e)(c) then [c] else []
    ensures Map(ClaimWithheld(), WithheldOf(e)(c)) == if IsWithheld(e)(c) then [c] else []
  {
    match Judge(e, c)
    case Attributed(supporting) => MapOne(ClaimOf(), AttributedClaim(c, supporting));
    case Withheld(reason, unresolved) => MapOne(ClaimWithheld(), UnattributableClaim(c, reason, unresolved));
  }

  /** The gate splits the claims in two, keeps each side in presentation order, and counts them all. */
  lemma SynthesisPartitions(patterns: Patterns, claims: seq<Claim>, chunks: seq<RetrievedChunk>, policy: Policy)
    ensures var s := Synthesis(patterns, claims, chunks, policy);
            var e := EvidenceOf(patterns, chunks, policy);
            && Map(ClaimOf(), s.claims) == Filter(IsPublished(e), claims)
            && Map(ClaimWithheld(), s.unattributableClaims) == Filter(IsWithheld(e), claims)
            && s.coverage.totalClaims == |claims| && s.coverage.attributedClaims == |Filter(IsPublished(e), claims)|
  {
    var e := EvidenceOf(patterns, chunks, policy);
    ClaimsSplit(e, claims);
    MapAt(ClaimOf(), FlatMap(PublishedOf(e), claims));
  }

  /** Every finding in a retrieved text is reported under its chunk and source, and nothing else is. */
  lemma DetectionsAre(patterns: Patterns, chunks: seq<RetrievedChunk>, d: Detection)
    ensures d in ScanAll(patterns, chunks) <==> exists c ::
            c in chunks && d.finding in patterns(c.text) && d == Detection(c.chunkId, c.sourceId, d.finding)
  {
    FlatMapMembers(Scan(patterns), chunks, d);
    if c :| c in chunks && d in Scan(patterns)(c) { MapMembers(Attribute(c), patterns(c.text)); }
    if c :| c in chunks && d.finding in patterns(c.text) && d == Detection(c.chunkId, c.sourceId, d.finding) {
      MapMembers(Attribute(c), patterns(c.text));
      assert d == Attribute(c)(d.finding) && d in Scan(patterns)(c);
    }
  }

  /** Some retrieved chunk under that identifier has a finding in its text. */
  ghost predicate Tainted(patterns: Patterns, chunks: seq<RetrievedChunk>, id: string) {
    exists c :: c in chunks && c.chunkId == id && patterns(c.text) != []
  }

  lemma DetectedAreTainted(patterns: Patterns, chunks: seq<RetrievedChunk>, id: string)
    ensures id in DetectedIds(ScanAll(patterns, chunks)) <==> Tainted(patterns, chunks, id)
  {
    if d :| d in ScanAll(patterns, chunks) && d.chunkId == id { DetectionsAre(patterns, chunks, d); }
    if c :| c in chunks && c.chunkId == id && patterns(c.text) != [] {
      var d := Detection(c.chunkId, c.sourceId, patterns(c.text)[0]);
      DetectionsAre(patterns, chunks, d);
    }
  }

  /** Quarantined are, in ordinal order, the chunks whose text holds a finding, when the policy says so; else none. */
  lemma QuarantinedAre(
    patterns: Patterns, claims: seq<Claim>, chunks: seq<RetrievedChunk>, policy: Policy, id: string)
    ensures var q := Synthesis(patterns, claims, chunks, policy).quarantinedChunkIds;
            && (id in q <==> policy.quarantineInjectedChunks && Tainted(patterns, chunks, id))
            && Ordinal.Rising(q)
  {
    var ids := DetectedIds(ScanAll(patterns, chunks));
    DetectedAreTainted(patterns, chunks, id);
    Ordinal.InOrderRises(ids);
    assert Synthesis(patterns, claims, chunks, policy).quarantinedChunkIds
        == if policy.quarantineInjectedChunks then Ordinal.InOrder(ids) else [];
  }

  /** Under quarantine no published claim rests on a chunk whose text holds a finding. */
  lemma NoPublishedClaimRestsOnInjection(
    patterns: Patterns, claims: seq<Claim>, chunks: seq<RetrievedChunk>, policy: Policy, a: AttributedClaim)
    requires DistinctIds(chunks) && policy.quarantineInjectedChunks
            && a in Synthesis(patterns, claims, chunks, policy).claims
    ensures a.claim in claims && a.supporting != []
    ensures forall s :: s in a.supporting ==> s in chunks && patterns(s.text) == [] && exists c ::
            c in a.claim.citations && c.chunkId == s.chunkId
  {
    var e := EvidenceOf(patterns, chunks, policy);
    FlatMapMembers(PublishedOf(e), claims, a);
    var claim :| claim in claims && a in PublishedOf(e)(claim);
    PublishedIff(e, claim);
    forall s | s in a.supporting
      ensures s in chunks && patterns(s.text) == [] && exists c :: c in a.claim.citations && c.chunkId == s.chunkId
    {
      DetectedIff(patterns, chunks, s);
      assert Supports(a.supporting, s.chunkId);
    }
  }

  /**
   Quarantine only ever withholds: a claim published with it is published without it, and detections are reported
   either way.
   */
  lemma QuarantineOnlyWithholds(
    patterns: Patterns, chunks: seq<RetrievedChunk>, policy: Policy, claims: seq<Claim>, claim: Claim)
    requires Judge(EvidenceOf(patterns, chunks, policy.(quarantineInjectedChunks := true)), claim).Attributed?
    ensures Judge(EvidenceOf(patterns, chunks, policy.(quarantineInjectedChunks := false)), claim).Attributed?
    ensures Synthesis(patterns, claims, chunks, policy.(quarantineInjectedChunks := true)).injectionDetections
            == Synthesis(patterns, claims, chunks, policy.(quarantineInjectedChunks := false)).injectionDetections
  {
    var on := EvidenceOf(patterns, chunks, policy.(quarantineInjectedChunks := true));
    var off := EvidenceOf(patterns, chunks, policy.(quarantineInjectedChunks := false));
    PublishedIff(on, claim);
    PublishedIff(off, claim);
    var c :| c in claim.citations && on.Grounds(c);
    assert off.Grounds(c);
  }

  // ---- Coverage ----

  /** Coverage is absent only without claims, never rounded up, and 100 exactly when nothing was withheld. */
  lemma CoverageHonest(patterns: Patterns, claims: seq<Claim>, chunks: seq<RetrievedChunk>, policy: Policy)
    ensures var s := Synthesis(patterns, claims, chunks, policy);
            && (s.coverage.Percent().None? <==> claims == [])
            && (claims != [] ==>
                  0.0 <= s.coverage.Percent().value <= Share(|s.claims|, |claims|) < s.coverage.Percent().value + 0.1
                  && (s.coverage.Percent().value == 100.0 <==> s.unattributableClaims == []))
  {
    var e := EvidenceOf(patterns, chunks, policy);
    ClaimsSplit(e, claims);
    if claims != [] {
      TruncatedShareHonest(|FlatMap(PublishedOf(e), claims)|, |claims|);
    }
  }

  /** With a minimum of at most one decimal place, truncation never moves a synthesis across the bar. */
  lemma BarIgnoresTruncation(coverage: Coverage, policy: Policy, tenths: int)
    requires coverage.attributedClaims <= coverage.totalClaims && policy.minimumCoveragePercent == tenths as real / 10.0
    ensures coverage.MeetsBar(policy) <==>
            coverage.totalClaims > 0
                && Share(coverage.attributedClaims, coverage.totalClaims) >= policy.minimumCoveragePercent
  {
    if coverage.totalClaims > 0 {
      ShareNonNegative(coverage.attributedClaims, coverage.totalClaims);
      TruncateReaches(Share(coverage.attributedClaims, coverage.totalClaims), tenths);
    }
  }

  lemma TruncateReaches(x: real, tenths: int)
    requires x >= 0.0
    ensures Truncate1(x) >= tenths as real / 10.0 <==> x >= tenths as real / 10.0
  {
    assert (x * 10.0).Floor >= tenths <==> x * 10.0 >= tenths as real;
  }
}
