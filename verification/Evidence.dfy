/**
 Evidence packets and the records of their canonical form: which differences between two packets
 reach the canonical text, and which never do.
 */
module Evidence {
  import opened Prelude
  import opened Sorting
  import opened Numerals
  import opened CanonicalText
  import Ordinal

  datatype Lane = Research | Surveillance | OrderRouting

  /** A binary double, identified by its round-trip ("R") text. */
  datatype Double = Double(roundTrip: string)

  datatype EvidenceSource = EvidenceSource(documentId: string, chunkId: string, excerpt: string, score: Double)

  datatype Entry = Entry(key: string, value: string)

  /** A dictionary in its enumeration order. */
  type Dictionary = seq<Entry>

  datatype RoutingDecisionSummary = RoutingDecisionSummary(
    outcome: string,
    complexityScore: Double,
    costCeilingUsd: Decimal,
    selectedTier: Option<string>,
    selectedDeployment: Option<string>,
    selectedVendor: Option<string>,
    policySetId: Option<string>,
    policySetVersion: Option<int>,
    rationale: string)

  datatype ProposedAction = ProposedAction(kind: string, summary: string, fields: Dictionary)

  datatype EvidencePacket = EvidencePacket(
    correlationId: string,
    lane: Lane,
    inputs: Dictionary,
    retrievedSources: seq<EvidenceSource>,
    routingDecision: RoutingDecisionSummary,
    proposedAction: ProposedAction,
    unattributableClaims: seq<string>)

  // ---- Sort keys ----

  predicate SourceLe(a: EvidenceSource, b: EvidenceSource) {
    if a.documentId != b.documentId then Ordinal.Le(a.documentId, b.documentId)
    else if a.chunkId != b.chunkId then Ordinal.Le(a.chunkId, b.chunkId)
    else Ordinal.Le(a.excerpt, b.excerpt)
  }

  predicate SameSourceKey(a: EvidenceSource, b: EvidenceSource) {
    a.documentId == b.documentId && a.chunkId == b.chunkId && a.excerpt == b.excerpt
  }

  predicate EntryLe(a: Entry, b: Entry) { Ordinal.Le(a.key, b.key) }

  lemma SourceOrder()
    ensures TotalPreorder(SourceLe)
    ensures forall a, b :: SourceLe(a, b) && SourceLe(b, a) <==> SameSourceKey(a, b)
  {
    Ordinal.TotalOrder();
  }

  lemma EntryOrder()
    ensures TotalPreorder(EntryLe)
    ensures forall a, b :: EntryLe(a, b) && EntryLe(b, a) ==> a.key == b.key
  {
    Ordinal.TotalOrder();
  }

  /** Keys of a dictionary are unique. */
  ghost predicate UniqueKeys(d: Dictionary) {
    forall i, j :: 0 <= i < |d| && 0 <= j < |d| && d[i].key == d[j].key ==> i == j
  }

  ghost predicate WellFormed(p: EvidencePacket) {
    UniqueKeys(p.inputs) && UniqueKeys(p.proposedAction.fields)
  }

  // ---- Records ----

  function LaneName(lane: Lane): string {
    match lane
    case Research => "Research"
    case Surveillance => "Surveillance"
    case OrderRouting => "OrderRouting"
  }

  function Text(name: string, value: string): Record { Record(name, "str:" + value) }

  function TextOrNull(name: string, value: Option<string>): Record {
    match value
    case None => Record(name, "null:")
    case Some(s) => Text(name, s)
  }

  function Number(name: string, value: Double): Record { Record(name, "num:" + value.roundTrip) }

  function Money(name: string, value: Decimal): Record {
    Record(name, "dec:" + DecimalText(Normalise(value)))
  }

  function IntegerOrNull(name: string, value: Option<int>): Record {
    match value
    case None => Record(name, "null:")
    case Some(i) => Record(name, "int:" + IntText(i))
  }

  function Count(name: string, n: nat): Record { Record(name, "cnt:" + Digits(n)) }

  function EntryRecord(name: string, e: Entry): Record {
    Text(name + "{" + e.key + "}", e.value)
  }

  function EntryRecords(name: string, d: Dictionary): seq<Record> {
    seq(|d|, i requires 0 <= i < |d| => EntryRecord(name, d[i]))
  }

  function MapRecords(name: string, sorted: Dictionary): seq<Record> {
    [Count(name, |sorted|)] + EntryRecords(name, sorted)
  }

  function SourcePrefix(i: nat): string { "retrievedSources[" + Digits(i) + "]" }

  function SourceBlock(i: nat, s: EvidenceSource): seq<Record> {
    [Text(SourcePrefix(i) + ".documentId", s.documentId),
     Text(SourcePrefix(i) + ".chunkId", s.chunkId),
     Text(SourcePrefix(i) + ".excerpt", s.excerpt),
     Number(SourcePrefix(i) + ".score", s.score)]
  }

  /** The blocks of the first `n` sources. */
  function SourceBlocks(sources: seq<EvidenceSource>, n: nat): seq<Record>
    requires n <= |sources|
  {
    if n == 0 then [] else SourceBlocks(sources, n - 1) + SourceBlock(n - 1, sources[n - 1])
  }

  function SourceRecords(sorted: seq<EvidenceSource>): seq<Record> {
    [Count("retrievedSources", |sorted|)] + SourceBlocks(sorted, |sorted|)
  }

  function ClaimRecord(i: nat, claim: string): Record {
    Text("unattributableClaims[" + Digits(i) + "]", claim)
  }

  function ClaimRecords(claims: seq<string>): seq<Record> {
    [Count("unattributableClaims", |claims|)] + seq(|claims|, i requires 0 <= i < |claims| => ClaimRecord(i, claims[i]))
  }

  const FORM := "fcmr-evidence-canonical-v1"

  function HeaderRecords(correlationId: string, lane: Lane): seq<Record> {
    [Text("form", FORM), Text("correlationId", correlationId), Text("lane", LaneName(lane))]
  }

  function DecisionRecords(d: RoutingDecisionSummary): seq<Record> {
    [Text("routingDecision.outcome", d.outcome),
     Number("routingDecision.complexityScore", d.complexityScore),
     Money("routingDecision.costCeilingUsd", d.costCeilingUsd),
     TextOrNull("routingDecision.selectedTier", d.selectedTier),
     TextOrNull("routingDecision.selectedDeployment", d.selectedDeployment),
     TextOrNull("routingDecision.selectedVendor", d.selectedVendor),
     TextOrNull("routingDecision.policySetId", d.policySetId),
     IntegerOrNull("routingDecision.policySetVersion", d.policySetVersion),
     Text("routingDecision.rationale", d.rationale)]
  }

  function ActionRecords(a: ProposedAction): seq<Record> {
    [Text("proposedAction.kind", a.kind), Text("proposedAction.summary", a.summary)]
  }

  function Records(p: EvidencePacket): seq<Record> {
    HeaderRecords(p.correlationId, p.lane)
    + (MapRecords("inputs", Sort(EntryLe, p.inputs))
    + (SourceRecords(Sort(SourceLe, p.retrievedSources))
    + (DecisionRecords(p.routingDecision)
    + (ActionRecords(p.proposedAction)
    + (MapRecords("proposedAction.fields", Sort(EntryLe, p.proposedAction.fields))
    + ClaimRecords(p.unattributableClaims))))))
  }

  /** What EvidencePacketHasher.Canonicalize returns. */
  function CanonicalForm(p: EvidencePacket): string { EmitAll(Records(p)) }

  // ---- Which label stands over which field ----

  function Typed(value: Option<string>): string { if value.None? then "null:" else "str:" + value.value }

  lemma InSections<T>(a: seq<T>, b: seq<T>, c: seq<T>, d: seq<T>, e: seq<T>, f: seq<T>, g: seq<T>, x: T)
    requires x in a || x in d || x in e
    ensures x in a + (b + (c + (d + (e + (f + g)))))
  {
    var tail := e + (f + g);
    assert x in e ==> x in tail;
    assert x in d || x in e ==> x in d + tail;
    assert x in d || x in e ==> x in c + (d + tail);
    assert x in d || x in e ==> x in b + (c + (d + tail));
  }

  /** The header, the decision and the action stand whole in the form. */
  lemma ScalarsInRecords(p: EvidencePacket, x: Record)
    requires x in HeaderRecords(p.correlationId, p.lane) || x in DecisionRecords(p.routingDecision)
          || x in ActionRecords(p.proposedAction)
    ensures x in Records(p)
  {
    InSections(
      HeaderRecords(p.correlationId, p.lane), MapRecords("inputs", Sort(EntryLe, p.inputs)),
      SourceRecords(Sort(SourceLe, p.retrievedSources)), DecisionRecords(p.routingDecision),
      ActionRecords(p.proposedAction), MapRecords("proposedAction.fields", Sort(EntryLe, p.proposedAction.fields)),
      ClaimRecords(p.unattributableClaims), x);
  }

  lemma DecisionUnderLabels(d: RoutingDecisionSummary)
    ensures var r := DecisionRecords(d);
            && Record("routingDecision.outcome", "str:" + d.outcome) in r
            && Record("routingDecision.complexityScore", "num:" + d.complexityScore.roundTrip) in r
            && Record("routingDecision.selectedTier", Typed(d.selectedTier)) in r
            && Record("routingDecision.selectedDeployment", Typed(d.selectedDeployment)) in r
            && Record("routingDecision.selectedVendor", Typed(d.selectedVendor)) in r
            && Record("routingDecision.policySetId", Typed(d.policySetId)) in r
            && Record("routingDecision.rationale", "str:" + d.rationale) in r
  {
    var r := DecisionRecords(d);
    assert r[0] in r && r[1] in r && r[3] in r && r[4] in r && r[5] in r && r[6] in r && r[8] in r;
  }

  lemma FormTyped()
    ensures "str:" + FORM == "str:fcmr-evidence-canonical-v1"
  {
  }

  lemma HeaderUnderLabels(correlationId: string, lane: Lane)
    ensures var h := HeaderRecords(correlationId, lane);
            && Record("form", "str:fcmr-evidence-canonical-v1") in h
            && Record("correlationId", "str:" + correlationId) in h
            && Record("lane", "str:" + LaneName(lane)) in h
  {
    var h := HeaderRecords(correlationId, lane);
    FormTyped();
    assert h[0] == Record("form", "str:" + FORM);
    assert h[0] in h && h[1] in h && h[2] in h;
  }

  lemma ActionUnderLabels(action: ProposedAction)
    ensures var a := ActionRecords(action);
            && Record("proposedAction.kind", "str:" + action.kind) in a
            && Record("proposedAction.summary", "str:" + action.summary) in a
  {
    var a := ActionRecords(action);
    assert a[0] in a && a[1] in a;
  }

  /** Every text field and number stands under its own label, typed as it is. */
  lemma FieldsUnderLabels(p: EvidencePacket, x: Record)
    requires var d := p.routingDecision;
             x in {Record("form", "str:fcmr-evidence-canonical-v1"), Record("correlationId", "str:" + p.correlationId),
                   Record("lane", "str:" + LaneName(p.lane)), Record("routingDecision.outcome", "str:" + d.outcome),
                   Record("routingDecision.complexityScore", "num:" + d.complexityScore.roundTrip),
                   Record("routingDecision.selectedTier", Typed(d.selectedTier)),
                   Record("routingDecision.selectedDeployment", Typed(d.selectedDeployment)),
                   Record("routingDecision.selectedVendor", Typed(d.selectedVendor)),
                   Record("routingDecision.policySetId", Typed(d.policySetId)),
                   Record("routingDecision.rationale", "str:" + d.rationale),
                   Record("proposedAction.kind", "str:" + p.proposedAction.kind),
                   Record("proposedAction.summary", "str:" + p.proposedAction.summary)}
    ensures x in Records(p)
  {
    DecisionUnderLabels(p.routingDecision);
    HeaderUnderLabels(p.correlationId, p.lane);
    ActionUnderLabels(p.proposedAction);
    ScalarsInRecords(p, x);
  }

  // ---- The order of the records ----

  function NameOf(): Record -> string { (r: Record) => r.name }

  const HEADER_NAMES := ["form", "correlationId", "lane"]
  const DECISION_NAMES :=
    ["routingDecision.outcome", "routingDecision.complexityScore", "routingDecision.costCeilingUsd",
     "routingDecision.selectedTier", "routingDecision.selectedDeployment", "routingDecision.selectedVendor",
     "routingDecision.policySetId", "routingDecision.policySetVersion", "routingDecision.rationale"]
  const ACTION_NAMES := ["proposedAction.kind", "proposedAction.summary"]

  lemma HeaderNames(correlationId: string, lane: Lane)
    ensures Map(NameOf(), HeaderRecords(correlationId, lane)) == HEADER_NAMES
  {
    MapAt(NameOf(), HeaderRecords(correlationId, lane));
  }

  lemma DecisionNames(d: RoutingDecisionSummary)
    ensures Map(NameOf(), DecisionRecords(d)) == DECISION_NAMES
  {
    MapAt(NameOf(), DecisionRecords(d));
  }

  lemma ActionNames(a: ProposedAction)
    ensures Map(NameOf(), ActionRecords(a)) == ACTION_NAMES
  {
    MapAt(NameOf(), ActionRecords(a));
  }

  /** A map's names: its own, then one for each key. */
  lemma MapNames(name: string, d: Dictionary)
    ensures Map(NameOf(), MapRecords(name, d))
         == [name] + seq(|d|, i requires 0 <= i < |d| => name + "{" + d[i].key + "}")
  {
    MapAt(NameOf(), MapRecords(name, d));
  }

  lemma MapSections<A, B>(h: A -> B, a: seq<A>, b: seq<A>, c: seq<A>, d: seq<A>, e: seq<A>, f: seq<A>, g: seq<A>)
    ensures Map(h, a + (b + (c + (d + (e + (f + g))))))
         == Map(h, a) + (Map(h, b) + (Map(h, c) + (Map(h, d) + (Map(h, e) + (Map(h, f) + Map(h, g))))))
  {
    MapConcat(h, f, g);
    MapConcat(h, e, f + g);
    MapConcat(h, d, e + (f + g));
    MapConcat(h, c, d + (e + (f + g)));
    MapConcat(h, b, c + (d + (e + (f + g))));
    MapConcat(h, a, b + (c + (d + (e + (f + g)))));
  }

  /** The labels of a form, section by section, for every packet. */
  lemma RecordOrder(p: EvidencePacket)
    ensures Map(NameOf(), Records(p)) ==
            HEADER_NAMES
            + (Map(NameOf(), MapRecords("inputs", Sort(EntryLe, p.inputs)))
            + (Map(NameOf(), SourceRecords(Sort(SourceLe, p.retrievedSources)))
            + (DECISION_NAMES
            + (ACTION_NAMES
            + (Map(NameOf(), MapRecords("proposedAction.fields", Sort(EntryLe, p.proposedAction.fields)))
            + Map(NameOf(), ClaimRecords(p.unattributableClaims)))))))
  {
    MapSections(
      NameOf(), HeaderRecords(p.correlationId, p.lane), MapRecords("inputs", Sort(EntryLe, p.inputs)),
      SourceRecords(Sort(SourceLe, p.retrievedSources)), DecisionRecords(p.routingDecision),
      ActionRecords(p.proposedAction), MapRecords("proposedAction.fields", Sort(EntryLe, p.proposedAction.fields)),
      ClaimRecords(p.unattributableClaims));
    HeaderNames(p.correlationId, p.lane);
    DecisionNames(p.routingDecision);
    ActionNames(p.proposedAction);
  }

  // ---- Each kind of record gives its value back ----

  lemma Unprefix(p: string, a: string, b: string)
    requires p + a == p + b
    ensures a == b
  {
    SplitEqual(p, a, p, b);
  }

  lemma CountDecodes(name: string, m: nat, n: nat)
    requires Count(name, m) == Count(name, n)
    ensures m == n
  {
    Unprefix("cnt:", Digits(m), Digits(n));
    DigitsInjective(m, n);
  }

  lemma TextDecodes(name: string, a: string, b: string)
    requires Text(name, a) == Text(name, b)
    ensures a == b
  {
    Unprefix("str:", a, b);
  }

  lemma NumberDecodes(name: string, a: Double, b: Double)
    requires Number(name, a) == Number(name, b)
    ensures a == b
  {
    Unprefix("num:", a.roundTrip, b.roundTrip);
  }

  lemma TextOrNullDecodes(name: string, a: Option<string>, b: Option<string>)
    requires TextOrNull(name, a) == TextOrNull(name, b)
    ensures a == b
  {
    assert a.Some? <==> TextOrNull(name, a).typed[0] == 's';
    assert b.Some? <==> TextOrNull(name, b).typed[0] == 's';
    if a.Some? { TextDecodes(name, a.value, b.value); }
  }

  lemma IntegerOrNullDecodes(name: string, a: Option<int>, b: Option<int>)
    requires IntegerOrNull(name, a) == IntegerOrNull(name, b)
    ensures a == b
  {
    assert a.Some? <==> IntegerOrNull(name, a).typed[0] == 'i';
    assert b.Some? <==> IntegerOrNull(name, b).typed[0] == 'i';
    if a.Some? {
      Unprefix("int:", IntText(a.value), IntText(b.value));
      IntTextInjective(a.value, b.value);
    }
  }

  /** Money records agree exactly when the amounts do, whatever the scales. */
  lemma MoneyDecidesAmount(name: string, a: Decimal, b: Decimal)
    ensures Money(name, a) == Money(name, b) <==> SameAmount(a, b)
  {
    NormaliseDecidesAmount(a, b);
    if Money(name, a) == Money(name, b) {
      Unprefix("dec:", DecimalText(Normalise(a)), DecimalText(Normalise(b)));
      DecimalTextInjective(Normalise(a), Normalise(b));
    }
  }

  lemma EntryDecodes(name: string, a: Entry, b: Entry)
    requires EntryRecord(name, a) == EntryRecord(name, b)
    ensures a == b
  {
    var s := name + "{" + a.key + "}";
    assert s[|name| + 1..|s| - 1] == a.key;
    var t := name + "{" + b.key + "}";
    assert t[|name| + 1..|t| - 1] == b.key;
    TextDecodes(s, a.value, b.value);
  }

  // ---- Counted groups delimit themselves ----

  lemma CountedGroup(name: string, m: nat, a: seq<Record>, x: seq<Record>, n: nat, b: seq<Record>, y: seq<Record>)
    requires [Count(name, m)] + a + x == [Count(name, n)] + b + y
    requires m == n ==> |a| == |b|
    ensures m == n && a == b && x == y
  {
    assert ([Count(name, m)] + a + x)[0] == Count(name, m);
    assert ([Count(name, n)] + b + y)[0] == Count(name, n);
    CountDecodes(name, m, n);
    SplitEqual([Count(name, m)] + a, x, [Count(name, n)] + b, y);
    SplitEqual([Count(name, m)], a, [Count(name, n)], b);
  }

  lemma MapRecordsDecode(name: string, d: Dictionary, x: seq<Record>, e: Dictionary, y: seq<Record>)
    requires MapRecords(name, d) + x == MapRecords(name, e) + y
    ensures d == e && x == y
  {
    CountedGroup(name, |d|, EntryRecords(name, d), x, |e|, EntryRecords(name, e), y);
    forall i | 0 <= i < |d| ensures d[i] == e[i] {
      assert EntryRecords(name, d)[i] == EntryRecords(name, e)[i];
      EntryDecodes(name, d[i], e[i]);
    }
  }

  lemma {:induction false} SourceBlocksLength(s: seq<EvidenceSource>, n: nat)
    requires n <= |s|
    ensures |SourceBlocks(s, n)| == 4 * n
  {
    if n > 0 { SourceBlocksLength(s, n - 1); }
  }

  lemma SourceBlockDecodes(i: nat, a: EvidenceSource, b: EvidenceSource)
    requires SourceBlock(i, a) == SourceBlock(i, b)
    ensures a == b
  {
    var p := SourcePrefix(i);
    var s, t := SourceBlock(i, a), SourceBlock(i, b);
    assert s[0] == t[0] && s[1] == t[1] && s[2] == t[2] && s[3] == t[3];
    TextDecodes(p + ".documentId", a.documentId, b.documentId);
    TextDecodes(p + ".chunkId", a.chunkId, b.chunkId);
    TextDecodes(p + ".excerpt", a.excerpt, b.excerpt);
    NumberDecodes(p + ".score", a.score, b.score);
  }

  lemma {:induction false} SourceBlocksDecode(s: seq<EvidenceSource>, t: seq<EvidenceSource>, n: nat)
    requires n <= |s| && n <= |t| && SourceBlocks(s, n) == SourceBlocks(t, n)
    ensures s[..n] == t[..n]
  {
    if n > 0 {
      SourceBlocksLength(s, n - 1);
      SourceBlocksLength(t, n - 1);
      SplitEqual(SourceBlocks(s, n - 1), SourceBlock(n - 1, s[n - 1]), SourceBlocks(t, n - 1),
          SourceBlock(n - 1, t[n - 1]));
      SourceBlocksDecode(s, t, n - 1);
      SourceBlockDecodes(n - 1, s[n - 1], t[n - 1]);
      assert s[..n] == s[..n - 1] + [s[n - 1]] && t[..n] == t[..n - 1] + [t[n - 1]];
    }
  }

  lemma SourceRecordsDecode(s: seq<EvidenceSource>, x: seq<Record>, t: seq<EvidenceSource>, y: seq<Record>)
    requires SourceRecords(s) + x == SourceRecords(t) + y
    ensures s == t && x == y
  {
    SourceBlocksLength(s, |s|);
    SourceBlocksLength(t, |t|);
    CountedGroup("retrievedSources", |s|, SourceBlocks(s, |s|), x, |t|, SourceBlocks(t, |t|), y);
    SourceBlocksDecode(s, t, |s|);
    assert s[..|s|] == s && t[..|t|] == t;
  }

  lemma ClaimRecordsDecode(c: seq<string>, d: seq<string>)
    requires ClaimRecords(c) == ClaimRecords(d)
    ensures c == d
  {
    assert ClaimRecords(c)[0] == ClaimRecords(d)[0];
    CountDecodes("unattributableClaims", |c|, |d|);
    forall i | 0 <= i < |c| ensures c[i] == d[i] {
      assert ClaimRecords(c)[i + 1] == ClaimRecord(i, c[i]);
      assert ClaimRecords(d)[i + 1] == ClaimRecord(i, d[i]);
      TextDecodes("unattributableClaims[" + Digits(i) + "]", c[i], d[i]);
    }
  }

  /** Two decisions differing at most in how the ceiling is scaled. */
  predicate SameDecision(a: RoutingDecisionSummary, b: RoutingDecisionSummary) {
    SameAmount(a.costCeilingUsd, b.costCeilingUsd) && a == b.(costCeilingUsd := a.costCeilingUsd)
  }

  lemma DecisionRecordsDecide(a: RoutingDecisionSummary, b: RoutingDecisionSummary)
    ensures DecisionRecords(a) == DecisionRecords(b) <==> SameDecision(a, b)
  {
    var s, t := DecisionRecords(a), DecisionRecords(b);
    MoneyDecidesAmount("routingDecision.costCeilingUsd", a.costCeilingUsd, b.costCeilingUsd);
    if s == t {
      assert s[0] == t[0] && s[1] == t[1] && s[2] == t[2] && s[3] == t[3] && s[4] == t[4];
      assert s[5] == t[5] && s[6] == t[6] && s[7] == t[7] && s[8] == t[8];
      TextDecodes("routingDecision.outcome", a.outcome, b.outcome);
      NumberDecodes("routingDecision.complexityScore", a.complexityScore, b.complexityScore);
      TextOrNullDecodes("routingDecision.selectedTier", a.selectedTier, b.selectedTier);
      TextOrNullDecodes("routingDecision.selectedDeployment", a.selectedDeployment, b.selectedDeployment);
      TextOrNullDecodes("routingDecision.selectedVendor", a.selectedVendor, b.selectedVendor);
      TextOrNullDecodes("routingDecision.policySetId", a.policySetId, b.policySetId);
      IntegerOrNullDecodes("routingDecision.policySetVersion", a.policySetVersion, b.policySetVersion);
      TextDecodes("routingDecision.rationale", a.rationale, b.rationale);
    }
  }

  lemma HeaderRecordsDecode(c: string, l: Lane, d: string, m: Lane)
    requires HeaderRecords(c, l) == HeaderRecords(d, m)
    ensures c == d && l == m
  {
    var s, t := HeaderRecords(c, l), HeaderRecords(d, m);
    assert s[1] == t[1] && s[2] == t[2];
    TextDecodes("correlationId", c, d);
    TextDecodes("lane", LaneName(l), LaneName(m));
    assert LaneName(l)[0] == LaneName(m)[0];
  }

  lemma ActionRecordsDecode(a: ProposedAction, b: ProposedAction)
    requires ActionRecords(a) == ActionRecords(b)
    ensures a.kind == b.kind && a.summary == b.summary
  {
    var s, t := ActionRecords(a), ActionRecords(b);
    assert s[0] == t[0] && s[1] == t[1];
    TextDecodes("proposedAction.kind", a.kind, b.kind);
    TextDecodes("proposedAction.summary", a.summary, b.summary);
  }

  // ---- The packet as a whole ----

  /** Agreement on everything whose order is never consulted. */
  predicate SameScalars(p: EvidencePacket, q: EvidencePacket) {
    && p.correlationId == q.correlationId
    && p.lane == q.lane
    && SameDecision(p.routingDecision, q.routingDecision)
    && p.proposedAction.kind == q.proposedAction.kind
    && p.proposedAction.summary == q.proposedAction.summary
    && p.unattributableClaims == q.unattributableClaims
  }

  /** Agreement once every collection is put in its canonical order. */
  predicate SameSorted(p: EvidencePacket, q: EvidencePacket) {
    && Sort(EntryLe, p.inputs) == Sort(EntryLe, q.inputs)
    && Sort(SourceLe, p.retrievedSources) == Sort(SourceLe, q.retrievedSources)
    && Sort(EntryLe, p.proposedAction.fields) == Sort(EntryLe, q.proposedAction.fields)
  }

  lemma RecordsDecode(p: EvidencePacket, q: EvidencePacket)
    requires Records(p) == Records(q)
    ensures SameScalars(p, q) && SameSorted(p, q)
  {
    var i, j := Sort(EntryLe, p.inputs), Sort(EntryLe, q.inputs);
    var s, t := Sort(SourceLe, p.retrievedSources), Sort(SourceLe, q.retrievedSources);
    var f, g := Sort(EntryLe, p.proposedAction.fields), Sort(EntryLe, q.proposedAction.fields);
    var p6, q6 := ClaimRecords(p.unattributableClaims), ClaimRecords(q.unattributableClaims);
    var p5, q5 := MapRecords("proposedAction.fields", f) + p6, MapRecords("proposedAction.fields", g) + q6;
    var p4, q4 := ActionRecords(p.proposedAction) + p5, ActionRecords(q.proposedAction) + q5;
    var p3, q3 := DecisionRecords(p.routingDecision) + p4, DecisionRecords(q.routingDecision) + q4;
    var p2, q2 := SourceRecords(s) + p3, SourceRecords(t) + q3;
    var p1, q1 := MapRecords("inputs", i) + p2, MapRecords("inputs", j) + q2;
    SplitEqual(HeaderRecords(p.correlationId, p.lane), p1, HeaderRecords(q.correlationId, q.lane), q1);
    HeaderRecordsDecode(p.correlationId, p.lane, q.correlationId, q.lane);
    MapRecordsDecode("inputs", i, p2, j, q2);
    SourceRecordsDecode(s, p3, t, q3);
    SplitEqual(DecisionRecords(p.routingDecision), p4, DecisionRecords(q.routingDecision), q4);
    DecisionRecordsDecide(p.routingDecision, q.routingDecision);
    SplitEqual(ActionRecords(p.proposedAction), p5, ActionRecords(q.proposedAction), q5);
    ActionRecordsDecode(p.proposedAction, q.proposedAction);
    MapRecordsDecode("proposedAction.fields", f, p6, g, q6);
    ClaimRecordsDecode(p.unattributableClaims, q.unattributableClaims);
  }

  /** Exactly what the canonical text says about a packet, for every pair of packets. */
  lemma CanonicalFormDecides(p: EvidencePacket, q: EvidencePacket)
    ensures CanonicalForm(p) == CanonicalForm(q) <==> SameScalars(p, q) && SameSorted(p, q)
  {
    if CanonicalForm(p) == CanonicalForm(q) {
      EmitAllInjective(Records(p), Records(q));
      RecordsDecode(p, q);
    }
    if SameScalars(p, q) && SameSorted(p, q) {
      DecisionRecordsDecide(p.routingDecision, q.routingDecision);
    }
  }

  /** The same evidence: dictionaries as maps, sources as a bag, the ceiling as an amount. */
  ghost predicate SameEvidence(p: EvidencePacket, q: EvidencePacket) {
    && SameScalars(p, q)
    && multiset(p.inputs) == multiset(q.inputs)
    && multiset(p.retrievedSources) == multiset(q.retrievedSources)
    && multiset(p.proposedAction.fields) == multiset(q.proposedAction.fields)
  }

  /** The canonical text determines the evidence: no material change keeps it. */
  lemma CanonicalFormDeterminesEvidence(p: EvidencePacket, q: EvidencePacket)
    requires CanonicalForm(p) == CanonicalForm(q)
    ensures SameEvidence(p, q)
  {
    CanonicalFormDecides(p, q);
    SortPermutes(EntryLe, p.inputs);
    SortPermutes(EntryLe, q.inputs);
    SortPermutes(SourceLe, p.retrievedSources);
    SortPermutes(SourceLe, q.retrievedSources);
    SortPermutes(EntryLe, p.proposedAction.fields);
    SortPermutes(EntryLe, q.proposedAction.fields);
  }

  lemma DictionaryOrderForgotten(d: Dictionary, e: Dictionary)
    requires UniqueKeys(d) && multiset(d) == multiset(e)
    ensures Sort(EntryLe, d) == Sort(EntryLe, e)
  {
    EntryOrder();
    assert NoTies(EntryLe, d);
    SortForgetsOrder(EntryLe, d, e);
  }

  /** Sources that share document, chunk and excerpt share a score too. */
  ghost predicate ScoreFollowsKey(sources: seq<EvidenceSource>) {
    forall a, b :: a in sources && b in sources && SameSourceKey(a, b) ==> a == b
  }

  /** With scores following keys, the text ignores exactly what is meant not to matter. */
  lemma CanonicalFormIsEvidence(p: EvidencePacket, q: EvidencePacket)
    requires WellFormed(p) && ScoreFollowsKey(p.retrievedSources)
    ensures CanonicalForm(p) == CanonicalForm(q) <==> SameEvidence(p, q)
  {
    if CanonicalForm(p) == CanonicalForm(q) {
      CanonicalFormDeterminesEvidence(p, q);
    }
    if SameEvidence(p, q) {
      DictionaryOrderForgotten(p.inputs, q.inputs);
      DictionaryOrderForgotten(p.proposedAction.fields, q.proposedAction.fields);
      SourceOrder();
      SortForgetsOrder(SourceLe, p.retrievedSources, q.retrievedSources);
      CanonicalFormDecides(p, q);
    }
  }

  // ---- The documented law "source order never matters", and exactly when it holds ----

  function SwapSources(p: EvidencePacket, i: nat, j: nat): EvidencePacket
    requires i < |p.retrievedSources| && j < |p.retrievedSources|
  {
    p.(retrievedSources := Swap(p.retrievedSources, i, j))
  }

  /**
   The form ignores the order of the sources precisely when scores follow keys: the sort key omits
   the score, so two sources differing only there are hashed in presentation order.
   */
  lemma SourceOrderIgnoredIff(p: EvidencePacket)
    ensures (forall i, j :: 0 <= i < j < |p.retrievedSources| ==>
                CanonicalForm(SwapSources(p, i, j)) == CanonicalForm(p))
       <==> ScoreFollowsKey(p.retrievedSources)
  {
    var s := p.retrievedSources;
    SourceOrder();
    SortForgetsSwapsIff(SourceLe, s);
    forall i, j | 0 <= i < j < |s|
      ensures CanonicalForm(SwapSources(p, i, j)) == CanonicalForm(p)
              <==> Sort(SourceLe, Swap(s, i, j)) == Sort(SourceLe, s)
    {
      CanonicalFormDecides(SwapSources(p, i, j), p);
    }
    assert NoTies(SourceLe, s) <==> ScoreFollowsKey(s);
  }

  /** Two sources differing only in score, presented the other way round, change the canonical text. */
  lemma ScoresShow(p: EvidencePacket)
    requires |p.retrievedSources| == 2 && p.retrievedSources[0] != p.retrievedSources[1]
    requires SameSourceKey(p.retrievedSources[0], p.retrievedSources[1])
    ensures CanonicalForm(SwapSources(p, 0, 1)) != CanonicalForm(p)
  {
    SourceOrder();
    SwapShows(SourceLe, p.retrievedSources, 0, 1);
    CanonicalFormDecides(SwapSources(p, 0, 1), p);
  }

  /** A packet on which presenting two sources the other way round changes the canonical text. */
  lemma SourceOrderCounterexample(p: EvidencePacket)
    requires p.retrievedSources
            == [EvidenceSource("d", "c", "x", Double("0.9")), EvidenceSource("d", "c", "x", Double("0.1"))]
    ensures CanonicalForm(SwapSources(p, 0, 1)) != CanonicalForm(p)
  {
    var s := p.retrievedSources;
    assert s[0].score.roundTrip[2] != s[1].score.roundTrip[2];
    ScoresShow(p);
  }
}
