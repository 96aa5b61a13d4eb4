/** The triage queue: ranking by deterministic code, an account of what is missing, and measured quality. */
module Triage {
  import opened Prelude
  import opened Sorting
  import opened Platform
  import opened Rounding
  import Ordinal

  datatype EvidenceItem = EvidenceItem(artefactId: string, excerpt: string)

  datatype Alert = Alert(
    alertId: string, timestamp: int, symbol: string, traderId: string, alertType: string,
    communicationIds: seq<string>, orderIds: seq<string>)

  datatype Assessment = Assessment(alertId: string, riskScore: real, rationale: string, evidence: seq<EvidenceItem>)

  datatype Deficiency = NotScored | MissingRationale | MissingEvidence

  datatype Gap = Gap(alertId: string, deficiency: Deficiency)

  datatype Scored = Scored(alert: Alert, assessment: Assessment)

  datatype RankedAlert = RankedAlert(rank: nat, alert: Alert, assessment: Assessment)

  datatype TriageBatch = TriageBatch(ranked: seq<RankedAlert>, gaps: seq<Gap>, submittedCount: nat) {
    predicate IsComplete() { gaps == [] && |ranked| == submittedCount }
  }

  // ---- The assessment in force ----

  /** The last assessment of an alert wins. */
  function Latest(assessments: seq<Assessment>, id: string): Option<Assessment> {
    if assessments == [] then None else
      var last := assessments[|assessments| - 1];
      if last.alertId == id then Some(last) else Latest(assessments[..|assessments| - 1], id)
  }

  type Lookup = string -> Option<Assessment>

  function LatestOf(assessments: seq<Assessment>): Lookup { (id: string) => Latest(assessments, id) }

  lemma {:induction false} LatestIsAmong(assessments: seq<Assessment>, id: string)
    ensures Latest(assessments, id).Some? <==> exists a :: a in assessments && a.alertId == id
    ensures Latest(assessments, id).Some? ==>
              Latest(assessments, id).value in assessments && Latest(assessments, id).value.alertId == id
  {
    if assessments != [] {
      var n := |assessments| - 1;
      LatestIsAmong(assessments[..n], id);
      assert assessments == assessments[..n] + [assessments[n]];
    }
  }

  /** Every assessment of an alert is the same one. */
  ghost predicate Unanimous(assessments: seq<Assessment>, id: string) {
    forall a, b :: a in assessments && b in assessments && a.alertId == id && b.alertId == id ==> a == b
  }

  lemma MoveLast(assessments: seq<Assessment>, a: Assessment) returns (other: seq<Assessment>)
    requires a in assessments
    ensures multiset(other) == multiset(assessments) && Latest(other, a.alertId) == Some(a)
  {
    var i :| 0 <= i < |assessments| && assessments[i] == a;
    var front, back := assessments[..i], assessments[i + 1..];
    assert assessments == front + ([a] + back);
    MultisetThree(front, a, back);
    other := front + back + [a];
  }

  /**
   The order of the assessments never matters to an alert exactly when all it has are equal; otherwise the last one
   wins.
   */
  lemma LatestIgnoresOrderIff(assessments: seq<Assessment>, id: string)
    ensures (forall other: seq<Assessment> :: multiset(other) == multiset(assessments) ==>
                Latest(other, id) == Latest(assessments, id))
       <==> Unanimous(assessments, id)
  {
    if Unanimous(assessments, id) {
      forall other: seq<Assessment> | multiset(other) == multiset(assessments) ensures Latest(other, id)
          == Latest(assessments, id) {
        PermutationElements(other, assessments);
        LatestIsAmong(other, id);
        LatestIsAmong(assessments, id);
      }
    } else {
      var a, b :| a in assessments && b in assessments && a.alertId == id && b.alertId == id && a != b;
      var lastA := MoveLast(assessments, a);
      var lastB := MoveLast(assessments, b);
      assert Latest(lastA, id) != Latest(lastB, id);
    }
  }

  // ---- What a batch should be ----

  /** An alert with its assessment, if it has one. */
  function ScoreOf(look: Lookup): Alert -> seq<Scored> {
    (a: Alert) => match look(a.alertId) case None => [] case Some(s) => [Scored(a, s)]
  }

  /** The alerts that have an assessment, each with it, in order. */
  function ScoredOf(look: Lookup, alerts: seq<Alert>): seq<Scored> { FlatMap(ScoreOf(look), alerts) }

  /** What one alert lacks. */
  function GapsOf(host: Host, look: Lookup, a: Alert): seq<Gap> {
    match look(a.alertId)
    case None => [Gap(a.alertId, NotScored)]
    case Some(s) =>
      (if IsBlank(host, s.rationale) then [Gap(a.alertId, MissingRationale)] else [])
      + if s.evidence == [] then [Gap(a.alertId, MissingEvidence)] else []
  }

  function GapsWith(host: Host, look: Lookup): Alert -> seq<Gap> { (a: Alert) => GapsOf(host, look, a) }

  function AllGaps(host: Host, look: Lookup, alerts: seq<Alert>): seq<Gap> { FlatMap(GapsWith(host, look), alerts) }

  /** Highest risk first, then by alert id. */
  predicate ScoredLe(x: Scored, y: Scored) {
    x.assessment.riskScore > y.assessment.riskScore
    || (x.assessment.riskScore == y.assessment.riskScore && Ordinal.Le(x.alert.alertId, y.alert.alertId))
  }

  function Order(d: Deficiency): nat {
    match d
    case NotScored => 0
    case MissingRationale => 1
    case MissingEvidence => 2
  }

  predicate GapLe(x: Gap, y: Gap) {
    Ordinal.Le(x.alertId, y.alertId) && (x.alertId == y.alertId ==> Order(x.deficiency) <= Order(y.deficiency))
  }

  /** Positions from one. */
  function Positioned(scored: seq<Scored>): (r: seq<RankedAlert>)
    ensures |r| == |scored|
    ensures forall i :: 0 <= i < |r| ==> r[i] == RankedAlert(i + 1, scored[i].alert, scored[i].assessment)
  {
    seq(|scored|, i requires 0 <= i < |scored| => RankedAlert(i + 1, scored[i].alert, scored[i].assessment))
  }

  function Ranking(host: Host, alerts: seq<Alert>, look: Lookup): TriageBatch {
    TriageBatch(Positioned(Sort(ScoredLe, ScoredOf(look, alerts))), Sort(GapLe, AllGaps(host, look, alerts)), |alerts|)
  }

  method Rank(host: Host, alerts: seq<Alert>, assessments: seq<Assessment>) returns (batch: TriageBatch)
    ensures batch == Ranking(host, alerts, LatestOf(assessments))
  {
    var byAlertId: map<string, Assessment> := map[];
    for k := 0 to |assessments|
      invariant forall id :: id in byAlertId <==> Latest(assessments[..k], id).Some?
      invariant forall id :: id in byAlertId ==> Latest(assessments[..k], id) == Some(byAlertId[id])
    {
      assert assessments[..k + 1][..k] == assessments[..k];
      byAlertId := byAlertId[assessments[k].alertId := assessments[k]];
    }
    assert assessments[..|assessments|] == assessments;
    var gaps, scored := [], [];
    ghost var look := LatestOf(assessments);
    for k := 0 to |alerts|
      invariant scored == ScoredOf(look, alerts[..k])
      invariant gaps == AllGaps(host, look, alerts[..k])
    {
      var alert := alerts[k];
      assert alerts[..k + 1] == alerts[..k] + [alert];
      FlatMapAppend(ScoreOf(look), alerts[..k], alert);
      FlatMapAppend(GapsWith(host, look), alerts[..k], alert);
      if alert.alertId !in byAlertId {
        gaps := gaps + [Gap(alert.alertId, NotScored)];
        continue;
      }
      var assessment := byAlertId[alert.alertId];
      scored := scored + [Scored(alert, assessment)];
      if IsBlank(host, assessment.rationale) {
        gaps := gaps + [Gap(alert.alertId, MissingRationale)];
      }
      if assessment.evidence == [] {
        gaps := gaps + [Gap(alert.alertId, MissingEvidence)];
      }
    }
    assert alerts[..|alerts|] == alerts;
    batch := TriageBatch(Positioned(Sort(ScoredLe, scored)), Sort(GapLe, gaps), |alerts|);
  }

  // ---- Nothing is lost ----

  function IsNotScored(): Gap -> bool { (g: Gap) => g.deficiency.NotScored? }

  lemma {:induction false} ScoredOrMissing(host: Host, look: Lookup, alerts: seq<Alert>)
    ensures |ScoredOf(look, alerts)| + |Filter(IsNotScored(), AllGaps(host, look, alerts))| == |alerts|
  {
    if alerts != [] {
      ScoredOrMissing(host, look, alerts[1..]);
      FilterConcat(IsNotScored(), GapsOf(host, look, alerts[0]), AllGaps(host, look, alerts[1..]));
      OneScoredOrMissing(host, look, alerts[0]);
    }
  }

  lemma FirstOf<T>(s: seq<T>) returns (x: T)
    requires s != []
    ensures x in s
  {
    x := s[0];
  }

  lemma OneScoredOrMissing(host: Host, look: Lookup, a: Alert)
    ensures |ScoreOf(look)(a)| + |Filter(IsNotScored(), GapsOf(host, look, a))| == 1
  {
    var g := GapsOf(host, look, a);
    if look(a.alertId).None? {
      assert g[1..] == [];
    } else {
      FilterMembers(IsNotScored(), g);
      if Filter(IsNotScored(), g) != [] {
        var x := FirstOf(Filter(IsNotScored(), g));
        assert false;
      }
    }
  }

  /** Ranked rows and not-scored gaps together are as many as the alerts submitted. */
  lemma RankAccountsForAll(host: Host, alerts: seq<Alert>, look: Lookup)
    ensures var batch := Ranking(host, alerts, look);
            |batch.ranked| + |Filter(IsNotScored(), batch.gaps)| == batch.submittedCount == |alerts|
  {
    ScoredOrMissing(host, look, alerts);
    SortPermutes(ScoredLe, ScoredOf(look, alerts));
    SortPermutes(GapLe, AllGaps(host, look, alerts));
    FilterPermutation(IsNotScored(), Sort(GapLe, AllGaps(host, look, alerts)), AllGaps(host, look, alerts));
    PermutationElements(Filter(IsNotScored(), Sort(GapLe, AllGaps(host, look, alerts))),
        Filter(IsNotScored(), AllGaps(host, look, alerts)));
  }

  /** An alert with an assessment that gives a reason and evidence. */
  predicate Answered(host: Host, look: Lookup, a: Alert) {
    look(a.alertId).Some? && !IsBlank(host, look(a.alertId).value.rationale) && look(a.alertId).value.evidence != []
  }

  lemma {:induction false} NoGapsIff(host: Host, look: Lookup, alerts: seq<Alert>)
    ensures AllGaps(host, look, alerts) == [] <==> forall a :: a in alerts ==> Answered(host, look, a)
    ensures AllGaps(host, look, alerts) == [] ==> |ScoredOf(look, alerts)| == |alerts|
  {
    if alerts != [] {
      NoGapsIff(host, look, alerts[1..]);
      assert GapsOf(host, look, alerts[0]) == [] <==> Answered(host, look, alerts[0]);
      assert forall a :: a in alerts <==> a in alerts[1..] || a == alerts[0] by {
        assert alerts == [alerts[0]] + alerts[1..];
      }
    }
  }

  /** A batch is complete exactly when every alert was answered. */
  lemma CompleteIff(host: Host, alerts: seq<Alert>, look: Lookup)
    ensures Ranking(host, alerts, look).IsComplete() <==> forall a :: a in alerts ==> Answered(host, look, a)
  {
    NoGapsIff(host, look, alerts);
    SortPermutes(ScoredLe, ScoredOf(look, alerts));
    SortPermutes(GapLe, AllGaps(host, look, alerts));
  }

  // ---- The order of the queue ----

  lemma ScoredOrder()
    ensures TotalPreorder(ScoredLe)
    ensures forall x, y :: ScoredLe(x, y) && ScoredLe(y, x) ==> x.alert.alertId == y.alert.alertId
  {
    Ordinal.TotalOrder();
  }

  lemma GapOrder()
    ensures TotalPreorder(GapLe)
    ensures forall s :: NoTies(GapLe, s)
  {
    Ordinal.TotalOrder();
  }

  lemma ScoredOfMembers(look: Lookup, alerts: seq<Alert>)
    ensures forall x ::
              x in ScoredOf(look, alerts) <==> x.alert in alerts && look(x.alert.alertId) == Some(x.assessment)
  {
    forall x ensures x in ScoredOf(look, alerts) <==> x.alert in alerts && look(x.alert.alertId) == Some(x.assessment) {
      FlatMapMembers(ScoreOf(look), alerts, x);
      assert x in ScoreOf(look)(x.alert) <==> look(x.alert.alertId) == Some(x.assessment);
      assert forall a :: x in ScoreOf(look)(a) ==> a == x.alert;
    }
  }

  /** The queue: positions count from one, risk never rises on the way down, ties stand in order of alert id. */
  lemma QueueIsOrdered(host: Host, alerts: seq<Alert>, look: Lookup)
    ensures var r := Ranking(host, alerts, look).ranked;
            && (forall i :: 0 <= i < |r| ==> r[i].rank == i + 1)
            && (forall i, j :: 0 <= i < j < |r| ==>
                  r[i].assessment.riskScore > r[j].assessment.riskScore
                  || (r[i].assessment.riskScore == r[j].assessment.riskScore
                      && Ordinal.Le(r[i].alert.alertId, r[j].alert.alertId)))
  {
    var t := Sort(ScoredLe, ScoredOf(look, alerts));
    ScoredOrder();
    SortSorted(ScoredLe, ScoredOf(look, alerts));
    forall i, j | 0 <= i < j < |t| ensures ScoredLe(t[i], t[j]) {}
  }

  /** The rows of the queue are the alerts that have an assessment, each with the one in force. */
  lemma QueueHoldsTheScored(host: Host, alerts: seq<Alert>, look: Lookup, a: Alert)
    ensures (exists r :: r in Ranking(host, alerts, look).ranked && r.alert == a)
            <==> a in alerts && look(a.alertId).Some?
    ensures forall r :: r in Ranking(host, alerts, look).ranked && r.alert == a ==>
            look(a.alertId) == Some(r.assessment)
  {
    var t := Sort(ScoredLe, ScoredOf(look, alerts));
    SortPermutes(ScoredLe, ScoredOf(look, alerts));
    ScoredOfMembers(look, alerts);
    PositionedMembers(t, a);
    if a in alerts && look(a.alertId).Some? {
      var s := Scored(a, look(a.alertId).value);
      assert s in t && s.alert == a;
    }
    forall r | r in Positioned(t) && r.alert == a ensures a in alerts && look(a.alertId) == Some(r.assessment) {
      assert Scored(r.alert, r.assessment) in ScoredOf(look, alerts);
    }
  }

  lemma PositionedMembers(t: seq<Scored>, a: Alert)
    ensures (exists r :: r in Positioned(t) && r.alert == a) <==> exists s :: s in t && s.alert == a
    ensures forall r :: r in Positioned(t) ==> Scored(r.alert, r.assessment) in t
  {
    forall s | s in t && s.alert == a ensures exists r :: r in Positioned(t) && r.alert == a {
      var i :| 0 <= i < |t| && t[i] == s;
      assert Positioned(t)[i] in Positioned(t);
    }
  }

  // ---- The gaps ----

  /** What each deficiency says of an alert and the assessment in force for it. */
  predicate Lacks(host: Host, look: Lookup, a: Alert, d: Deficiency) {
    match d
    case NotScored => look(a.alertId).None?
    case MissingRationale => look(a.alertId).Some? && IsBlank(host, look(a.alertId).value.rationale)
    case MissingEvidence => look(a.alertId).Some? && |look(a.alertId).value.evidence| == 0
  }

  lemma GapsOfSays(host: Host, look: Lookup, a: Alert, g: Gap)
    ensures g in GapsOf(host, look, a) <==> g.alertId == a.alertId && Lacks(host, look, a, g.deficiency)
  {
  }

  /** A gap is reported exactly when some submitted alert of that identifier lacks just that. */
  lemma GapReportedIff(host: Host, alerts: seq<Alert>, look: Lookup, id: string, d: Deficiency)
    ensures Gap(id, d) in Ranking(host, alerts, look).gaps
       <==> exists a :: a in alerts && a.alertId == id && Lacks(host, look, a, d)
  {
    SortPermutes(GapLe, AllGaps(host, look, alerts));
    FlatMapMembers(GapsWith(host, look), alerts, Gap(id, d));
    forall a: Alert
      ensures Gap(id, d) in GapsWith(host, look)(a) <==> a.alertId == id && Lacks(host, look, a, d)
    {
      GapsOfSays(host, look, a, Gap(id, d));
    }
  }

  /** Not scored comes before a missing rationale, and that before missing evidence. */
  predicate NoLater(d: Deficiency, e: Deficiency) { d == e || d.NotScored? || e.MissingEvidence? }

  /** Gaps stand in order of alert id, then deficiency. */
  lemma GapsAreOrdered(host: Host, alerts: seq<Alert>, look: Lookup)
    ensures var gaps := Ranking(host, alerts, look).gaps;
            forall i, j :: 0 <= i < j < |gaps| ==>
              && Ordinal.Le(gaps[i].alertId, gaps[j].alertId)
              && (gaps[i].alertId == gaps[j].alertId ==> NoLater(gaps[i].deficiency, gaps[j].deficiency))
  {
    GapOrder();
    SortSorted(GapLe, AllGaps(host, look, alerts));
    assert forall x, y :: GapLe(x, y) ==>
        Ordinal.Le(x.alertId, y.alertId) && (x.alertId == y.alertId ==> NoLater(x.deficiency, y.deficiency));
  }

  // ---- The queue does not depend on the order of results ----

  /** Alerts that are ranked and share an identifier are the same alert. */
  ghost predicate ScoredIdsTell(look: Lookup, alerts: seq<Alert>) {
    forall a, b :: a in alerts && b in alerts && a.alertId == b.alertId && look(a.alertId).Some? ==> a == b
  }

  lemma NoScoredTiesIff(look: Lookup, alerts: seq<Alert>)
    ensures NoTies(ScoredLe, ScoredOf(look, alerts)) <==> ScoredIdsTell(look, alerts)
  {
    var scored := ScoredOf(look, alerts);
    ScoredOfMembers(look, alerts);
    ScoredOrder();
    if NoTies(ScoredLe, scored) {
      forall a, b | a in alerts && b in alerts && a.alertId == b.alertId && look(a.alertId).Some? ensures a == b {
        var s := look(a.alertId).value;
        assert Scored(a, s) in scored && Scored(b, s) in scored;
        assert ScoredLe(Scored(a, s), Scored(b, s))
            && ScoredLe(Scored(b, s), Scored(a, s)) by { Ordinal.Total(a.alertId, a.alertId); }
      }
    }
  }

  /** Rearranging the alerts, and looking assessments up to the same effect, gives the same batch. */
  lemma RankIgnoresOrder(host: Host, alerts: seq<Alert>, others: seq<Alert>, look: Lookup)
    requires multiset(alerts) == multiset(others) && ScoredIdsTell(look, alerts)
    ensures Ranking(host, alerts, look) == Ranking(host, others, look)
  {
    FlatMapPermutation(ScoreOf(look), alerts, others);
    FlatMapPermutation(GapsWith(host, look), alerts, others);
    PermutationElements(alerts, others);
    NoScoredTiesIff(look, alerts);
    ScoredOrder();
    GapOrder();
    SortForgetsOrder(ScoredLe, ScoredOf(look, alerts), ScoredOf(look, others));
    SortForgetsOrder(GapLe, AllGaps(host, look, alerts), AllGaps(host, look, others));
  }

  lemma LookupDecides(host: Host, alerts: seq<Alert>, look: Lookup, other: Lookup)
    requires forall a :: a in alerts ==> look(a.alertId) == other(a.alertId)
    ensures ScoredOf(look, alerts) == ScoredOf(other, alerts)
    ensures AllGaps(host, look, alerts) == AllGaps(host, other, alerts)
  {
    if alerts != [] {
      assert alerts == [alerts[0]] + alerts[1..];
      LookupDecides(host, alerts[1..], look, other);
    }
  }

  /** With distinct alerts and unanimous assessments, the batch is the same whatever order either list arrives in. */
  lemma RankIgnoresArrival(
    host: Host, alerts: seq<Alert>, others: seq<Alert>, assessments: seq<Assessment>, arrivals: seq<Assessment>)
    requires multiset(alerts) == multiset(others) && multiset(assessments) == multiset(arrivals)
    requires ScoredIdsTell(LatestOf(assessments), alerts)
    requires forall a :: a in alerts ==> Unanimous(assessments, a.alertId)
    ensures Ranking(host, alerts, LatestOf(assessments)) == Ranking(host, others, LatestOf(arrivals))
  {
    AgreeingLookups(alerts, assessments, arrivals);
    LookupDecides(host, alerts, LatestOf(assessments), LatestOf(arrivals));
    RankIgnoresOrder(host, alerts, others, LatestOf(arrivals));
  }

  lemma AgreeingLookups(alerts: seq<Alert>, assessments: seq<Assessment>, arrivals: seq<Assessment>)
    requires multiset(assessments) == multiset(arrivals)
    requires forall a :: a in alerts ==> Unanimous(assessments, a.alertId)
    ensures forall a :: a in alerts ==> LatestOf(assessments)(a.alertId) == LatestOf(arrivals)(a.alertId)
  {
    forall a | a in alerts ensures LatestOf(assessments)(a.alertId) == LatestOf(arrivals)(a.alertId) {
      LatestIgnoresOrderIff(assessments, a.alertId);
      assert Latest(arrivals, a.alertId) == Latest(assessments, a.alertId);
    }
  }

  /** No arrangement of the assessments changes the batch. */
  ghost predicate ArrivalForgotten(host: Host, alerts: seq<Alert>, assessments: seq<Assessment>) {
    forall arrivals: seq<Assessment> :: multiset(arrivals) == multiset(assessments) ==>
      Ranking(host, alerts, LatestOf(arrivals)) == Ranking(host, alerts, LatestOf(assessments))
  }

  /** Two assessments of one submitted alert that differ show in the batch, in one arrangement or another. */
  lemma DissentShows(host: Host, alerts: seq<Alert>, assessments: seq<Assessment>, a: Alert)
    requires a in alerts && !Unanimous(assessments, a.alertId)
    ensures !ArrivalForgotten(host, alerts, assessments)
  {
    LatestIgnoresOrderIff(assessments, a.alertId);
    var other: seq<Assessment> :|
      multiset(other) == multiset(assessments) && Latest(other, a.alertId) != Latest(assessments, a.alertId);
    PermutationElements(other, assessments);
    LatestIsAmong(other, a.alertId);
    LatestIsAmong(assessments, a.alertId);
    QueueHoldsTheScored(host, alerts, LatestOf(other), a);
    QueueHoldsTheScored(host, alerts, LatestOf(assessments), a);
    var batch := Ranking(host, alerts, LatestOf(other));
    var r :| r in batch.ranked && r.alert == a;
    assert batch != Ranking(host, alerts, LatestOf(assessments));
  }

  /** The batch ignores the order the assessments arrive in exactly when those of every submitted alert agree. */
  lemma BatchIgnoresAssessmentOrderIff(host: Host, alerts: seq<Alert>, assessments: seq<Assessment>)
    ensures ArrivalForgotten(host, alerts, assessments) <==> forall a :: a in alerts ==>
                Unanimous(assessments, a.alertId)
  {
    if forall a :: a in alerts ==> Unanimous(assessments, a.alertId) {
      forall arrivals: seq<Assessment> | multiset(arrivals) == multiset(assessments)
        ensures Ranking(host, alerts, LatestOf(arrivals)) == Ranking(host, alerts, LatestOf(assessments))
      {
        AgreeingLookups(alerts, assessments, arrivals);
        LookupDecides(host, alerts, LatestOf(assessments), LatestOf(arrivals));
      }
    } else {
      var a :| a in alerts && !Unanimous(assessments, a.alertId);
      DissentShows(host, alerts, assessments, a);
    }
  }

  /** No arrangement of alerts and assessments together changes the batch. */
  ghost predicate OrderForgotten(host: Host, alerts: seq<Alert>, assessments: seq<Assessment>) {
    forall others: seq<Alert>, arrivals: seq<Assessment> ::
      multiset(others) == multiset(alerts) && multiset(arrivals) == multiset(assessments) ==>
        Ranking(host, others, LatestOf(arrivals)) == Ranking(host, alerts, LatestOf(assessments))
  }

  /**
   The documented immunity to arrival order, both lists together: it holds exactly when the assessments of every
   submitted alert agree and ranked alerts sharing an identifier are equal.
   */
  lemma RankIgnoresArrivalIff(host: Host, alerts: seq<Alert>, assessments: seq<Assessment>)
    ensures OrderForgotten(host, alerts, assessments) <==>
            && ScoredIdsTell(LatestOf(assessments), alerts)
            && forall a :: a in alerts ==> Unanimous(assessments, a.alertId)
  {
    if OrderForgotten(host, alerts, assessments) {
      assert ArrivalForgotten(host, alerts, assessments);
      BatchIgnoresAssessmentOrderIff(host, alerts, assessments);
      forall i, j | 0 <= i < j < |alerts|
        ensures Ranking(host, Swap(alerts, i, j), LatestOf(assessments)) == Ranking(host, alerts, LatestOf(assessments))
      {
        SwapPermutes(alerts, i, j);
        assert multiset(assessments) == multiset(assessments);
      }
      RankIgnoresSwapsIff(host, alerts, LatestOf(assessments));
    } else if ScoredIdsTell(LatestOf(assessments), alerts) && forall a :: a in alerts ==>
            Unanimous(assessments, a.alertId) {
      forall others: seq<Alert>, arrivals: seq<Assessment>
        | multiset(others) == multiset(alerts) && multiset(arrivals) == multiset(assessments)
        ensures Ranking(host, others, LatestOf(arrivals)) == Ranking(host, alerts, LatestOf(assessments))
      {
        RankIgnoresArrival(host, alerts, others, assessments, arrivals);
      }
    }
  }

  /** The scored list from a scored alert on. */
  lemma ScoredFrom(look: Lookup, alerts: seq<Alert>, i: nat, p: Scored -> bool)
    requires i < |alerts| && look(alerts[i].alertId).Some? && p(Scored(alerts[i], look(alerts[i].alertId).value))
    ensures var n := |Filter(p, ScoredOf(look, alerts[..i]))|;
            n < |Filter(p, ScoredOf(look, alerts))|
            && Filter(p, ScoredOf(look, alerts))[n] == Scored(alerts[i], look(alerts[i].alertId).value)
  {
    var head := Scored(alerts[i], look(alerts[i].alertId).value);
    var rest := ScoredOf(look, alerts[i + 1..]);
    assert alerts == alerts[..i] + ([alerts[i]] + alerts[i + 1..]);
    FlatMapConcat(ScoreOf(look), alerts[..i], [alerts[i]] + alerts[i + 1..]);
    FlatMapConcat(ScoreOf(look), [alerts[i]], alerts[i + 1..]);
    FlatMapOne(ScoreOf(look), alerts[i]);
    FilterConcat(p, ScoredOf(look, alerts[..i]), [head] + rest);
    assert ([head] + rest)[0] == head;
  }

  lemma SwapShowsInScores(look: Lookup, alerts: seq<Alert>, i: nat, j: nat, p: Scored -> bool)
    requires i < j < |alerts| && alerts[i].alertId == alerts[j].alertId && alerts[i] != alerts[j]
            && look(alerts[i].alertId).Some?
    requires p(Scored(alerts[i], look(alerts[i].alertId).value)) && p(Scored(alerts[j], look(alerts[i].alertId).value))
    ensures Filter(p, ScoredOf(look, Swap(alerts, i, j))) != Filter(p, ScoredOf(look, alerts))
  {
    ScoredFrom(look, alerts, i, p);
    ScoredFrom(look, Swap(alerts, i, j), i, p);
    assert Swap(alerts, i, j)[..i] == alerts[..i];
  }

  /** Exchanging two different alerts under one identifier shows in the queue. */
  lemma SwapShowsInQueue(host: Host, look: Lookup, alerts: seq<Alert>, i: nat, j: nat)
    requires i < j < |alerts| && alerts[i].alertId == alerts[j].alertId && alerts[i] != alerts[j]
            && look(alerts[i].alertId).Some?
    ensures Ranking(host, Swap(alerts, i, j), look) != Ranking(host, alerts, look)
  {
    var s := look(alerts[i].alertId).value;
    var a, b := Scored(alerts[i], s), Scored(alerts[j], s);
    var c := TieClass(ScoredLe, a);
    Ordinal.Total(alerts[i].alertId, alerts[i].alertId);
    assert ScoredLe(a, a) && ScoredLe(a, b) && ScoredLe(b, a);
    assert c(a) && c(b);
    SwapShowsInScores(look, alerts, i, j, c);
    ScoredOrder();
    assert forall x, y :: c(x) && c(y) ==> ScoredLe(x, a) && ScoredLe(a, y);
    assert forall x, y :: c(x) && c(y) ==> ScoredLe(x, y);
    SortsDiffer(ScoredOf(look, Swap(alerts, i, j)), ScoredOf(look, alerts), c);
  }

  lemma SortsDiffer(a: seq<Scored>, b: seq<Scored>, c: Scored -> bool)
    requires TotalPreorder(ScoredLe) && (forall x, y :: c(x) && c(y) ==> ScoredLe(x, y))
    requires Filter(c, a) != Filter(c, b)
    ensures Positioned(Sort(ScoredLe, a)) != Positioned(Sort(ScoredLe, b))
  {
    SortStable(ScoredLe, c, a);
    SortStable(ScoredLe, c, b);
    if Positioned(Sort(ScoredLe, a)) == Positioned(Sort(ScoredLe, b)) {
      PositionedInjective(Sort(ScoredLe, a), Sort(ScoredLe, b));
    }
  }

  lemma PositionedInjective(a: seq<Scored>, b: seq<Scored>)
    requires Positioned(a) == Positioned(b)
    ensures a == b
  {
    forall i | 0 <= i < |a| ensures a[i] == b[i] { assert Positioned(a)[i] == Positioned(b)[i]; }
  }

  /** The batch ignores the order of the alerts exactly when ranked alerts sharing an identifier are equal. */
  lemma RankIgnoresSwapsIff(host: Host, alerts: seq<Alert>, look: Lookup)
    ensures (forall i, j :: 0 <= i < j < |alerts| ==>
                Ranking(host, Swap(alerts, i, j), look) == Ranking(host, alerts, look))
       <==> ScoredIdsTell(look, alerts)
  {
    if ScoredIdsTell(look, alerts) {
      forall i, j | 0 <= i < j < |alerts| ensures Ranking(host, Swap(alerts, i, j), look)
          == Ranking(host, alerts, look) {
        SwapPermutes(alerts, i, j);
        RankIgnoresOrder(host, alerts, Swap(alerts, i, j), look);
      }
    } else {
      var a, b :| a in alerts && b in alerts && a.alertId == b.alertId && look(a.alertId).Some? && a != b;
      var m :| 0 <= m < |alerts| && alerts[m] == a;
      var n :| 0 <= n < |alerts| && alerts[n] == b;
      SwapShowsInQueue(host, look, alerts, if m < n then m else n, if m < n then n else m);
    }
  }

  // ---- Measured quality ----

  datatype QualityReport = QualityReport(reviewDepth: nat, examined: nat, truePositives: nat, concerningInBatch: nat) {
    function PrecisionPercent(): Option<real> {
      if examined == 0 then None else Some(TruncatedShare(truePositives, examined))
    }

    function RecallPercent(): Option<real> {
      if concerningInBatch == 0 then None else Some(TruncatedShare(truePositives, concerningInBatch))
    }
  }

  /** The identifiers a batch mentions. */
  function Submitted(batch: TriageBatch): set<string> {
    RankedIds(batch.ranked) + GapIds(batch.gaps)
  }

  function RankedIds(ranked: seq<RankedAlert>): set<string> { set r | r in ranked :: r.alert.alertId }

  function GapIds(gaps: seq<Gap>): set<string> { set g | g in gaps :: g.alertId }

  lemma OneMoreRanked(ranked: seq<RankedAlert>, k: nat)
    requires k < |ranked|
    ensures RankedIds(ranked[..k + 1]) == RankedIds(ranked[..k]) + {ranked[k].alert.alertId}
  {
    assert ranked[..k + 1] == ranked[..k] + [ranked[k]];
  }

  lemma OneMoreGap(gaps: seq<Gap>, k: nat)
    requires k < |gaps|
    ensures GapIds(gaps[..k + 1]) == GapIds(gaps[..k]) + {gaps[k].alertId}
  {
    assert gaps[..k + 1] == gaps[..k] + [gaps[k]];
  }

  /** How many of the first `n` rows are in the key. */
  function Caught(ranked: seq<RankedAlert>, key: set<string>, n: nat): nat
    requires n <= |ranked|
  {
    if n == 0 then 0 else Caught(ranked, key, n - 1) + if ranked[n - 1].alert.alertId in key then 1 else 0
  }

  function Examined(batch: TriageBatch, depth: nat): nat { if depth <= |batch.ranked| then depth else |batch.ranked| }

  function Quality(batch: TriageBatch, answers: seq<string>, depth: nat): QualityReport {
    var key := (set id | id in answers) * Submitted(batch);
    QualityReport(depth, Examined(batch, depth), Caught(batch.ranked, key, Examined(batch, depth)), |key|)
  }

  /** None stands for the exception on a negative depth. */
  method Measure(batch: TriageBatch, answers: seq<string>, reviewDepth: int) returns (report: Option<QualityReport>)
    ensures report == if reviewDepth < 0 then None else Some(Quality(batch, answers, reviewDepth))
  {
    if reviewDepth < 0 { return None; }
    var concerning := set id | id in answers;
    var submitted: set<string> := {};
    for k := 0 to |batch.ranked|
      invariant submitted == RankedIds(batch.ranked[..k])
    {
      OneMoreRanked(batch.ranked, k);
      submitted := submitted + {batch.ranked[k].alert.alertId};
    }
    assert batch.ranked[..|batch.ranked|] == batch.ranked;
    for k := 0 to |batch.gaps|
      invariant submitted == RankedIds(batch.ranked) + GapIds(batch.gaps[..k])
    {
      OneMoreGap(batch.gaps, k);
      submitted := submitted + {batch.gaps[k].alertId};
    }
    assert batch.gaps[..|batch.gaps|] == batch.gaps;
    concerning := concerning * submitted;
    var examined := if reviewDepth <= |batch.ranked| then reviewDepth else |batch.ranked|;
    var truePositives := 0;
    for i := 0 to examined
      invariant truePositives == Caught(batch.ranked, concerning, i)
    {
      if batch.ranked[i].alert.alertId in concerning {
        truePositives := truePositives + 1;
      }
    }
    report := Some(QualityReport(reviewDepth, examined, truePositives, |concerning|));
  }

  lemma GapsAreOfAlerts(host: Host, alerts: seq<Alert>, look: Lookup, g: Gap)
    requires g in Ranking(host, alerts, look).gaps
    ensures exists a :: a in alerts && a.alertId == g.alertId
  {
    SortPermutes(GapLe, AllGaps(host, look, alerts));
    FlatMapMembers(GapsWith(host, look), alerts, g);
    var a :| a in alerts && g in GapsWith(host, look)(a);
    GapsNameTheirAlert(host, look, a, g);
  }

  lemma GapsNameTheirAlert(host: Host, look: Lookup, a: Alert, g: Gap)
    requires g in GapsOf(host, look, a)
    ensures g.alertId == a.alertId
  {
  }

  lemma AlertsAreMentioned(host: Host, alerts: seq<Alert>, look: Lookup, a: Alert)
    requires a in alerts
    ensures a.alertId in Submitted(Ranking(host, alerts, look))
  {
    var batch := Ranking(host, alerts, look);
    if look(a.alertId).Some? {
      QueueHoldsTheScored(host, alerts, look, a);
    } else {
      var g := Gap(a.alertId, NotScored);
      SortPermutes(GapLe, AllGaps(host, look, alerts));
      assert g in GapsWith(host, look)(a);
      FlatMapMembers(GapsWith(host, look), alerts, g);
      assert g in batch.gaps;
    }
  }

  /**
   A ranking mentions exactly the alerts submitted, so an unscored concerning alert stays in the denominator of
   recall.
   */
  lemma SubmittedAreAlerts(host: Host, alerts: seq<Alert>, look: Lookup)
    ensures Submitted(Ranking(host, alerts, look)) == set a | a in alerts :: a.alertId
  {
    var batch := Ranking(host, alerts, look);
    forall a | a in alerts ensures a.alertId in Submitted(batch) { AlertsAreMentioned(host, alerts, look, a); }
    forall g | g in batch.gaps ensures exists a ::
        a in alerts && a.alertId == g.alertId { GapsAreOfAlerts(host, alerts, look, g); }
    forall r | r in batch.ranked ensures r.alert in alerts { RankedAreAlerts(host, alerts, look, r); }
  }

  lemma RankedAreAlerts(host: Host, alerts: seq<Alert>, look: Lookup, r: RankedAlert)
    requires r in Ranking(host, alerts, look).ranked
    ensures r.alert in alerts
  {
    QueueHoldsTheScored(host, alerts, look, r.alert);
  }

  /** The rows among the first `n` that the key names, by position. */
  function RowsNamed(ranked: seq<RankedAlert>, key: set<string>, n: nat): set<nat>
    requires n <= |ranked|
  {
    set i: nat | i < n && ranked[i].alert.alertId in key
  }

  lemma {:induction false} CaughtCounts(ranked: seq<RankedAlert>, key: set<string>, n: nat)
    requires n <= |ranked|
    ensures Caught(ranked, key, n) == |RowsNamed(ranked, key, n)|
  {
    if n > 0 {
      CaughtCounts(ranked, key, n - 1);
      var before, now := RowsNamed(ranked, key, n - 1), RowsNamed(ranked, key, n);
      if ranked[n - 1].alert.alertId in key {
        assert now == before + {n - 1};
      } else {
        assert now == before;
      }
    }
  }

  /**
   What is measured: the rows down to the depth or the end of the queue; among them, those whose alert the answers name;
   and the alerts of the batch, ranked or missing, that the answers name.
   */
  lemma QualityMeasures(batch: TriageBatch, answers: seq<string>, depth: nat)
    ensures var q := Quality(batch, answers, depth);
            && q.reviewDepth == depth
            && q.examined <= depth && q.examined <= |batch.ranked|
                && (q.examined == depth || q.examined == |batch.ranked|)
            && q.truePositives == |set i: nat | i < q.examined && batch.ranked[i].alert.alertId in answers|
            && q.concerningInBatch == |set id | id in answers
                && (id in RankedIds(batch.ranked) || id in GapIds(batch.gaps))|
            && (q.examined > 0 ==>
                  q.PrecisionPercent().Some?
                  && q.PrecisionPercent().value <= 100.0 * q.truePositives as real / q.examined as real)
  {
    var q := Quality(batch, answers, depth);
    var key := (set id | id in answers) * Submitted(batch);
    CaughtCounts(batch.ranked, key, q.examined);
    forall i: nat | i < q.examined
      ensures batch.ranked[i].alert.alertId in key <==> batch.ranked[i].alert.alertId in answers
    {
      assert batch.ranked[i] in batch.ranked;
    }
    assert RowsNamed(batch.ranked, key, q.examined)
        == set i: nat | i < q.examined && batch.ranked[i].alert.alertId in answers;
    assert key == set id | id in answers && (id in RankedIds(batch.ranked) || id in GapIds(batch.gaps));
    CaughtGrows(batch.ranked, key, 0, q.examined);
    if q.examined > 0 { TruncatedShareHonest(q.truePositives, q.examined); }
  }

  lemma {:induction false} CaughtGrows(ranked: seq<RankedAlert>, key: set<string>, m: nat, n: nat)
    requires m <= n <= |ranked|
    ensures Caught(ranked, key, m) <= Caught(ranked, key, n) <= Caught(ranked, key, m) + (n - m)
  {
    if m < n { CaughtGrows(ranked, key, m, n - 1); }
  }

  /** Looking deeper never catches fewer, and never more than is examined. */
  lemma DeeperCatchesMore(batch: TriageBatch, answers: seq<string>, depth: nat, deeper: nat)
    requires depth <= deeper
    ensures Quality(batch, answers, depth).truePositives <= Quality(batch, answers, deeper).truePositives
    ensures Quality(batch, answers, deeper).truePositives <= Quality(batch, answers, deeper).examined
    ensures Quality(batch, answers, depth).concerningInBatch == Quality(batch, answers, deeper).concerningInBatch
  {
    var key := (set id | id in answers) * Submitted(batch);
    CaughtGrows(batch.ranked, key, Examined(batch, depth), Examined(batch, deeper));
    CaughtGrows(batch.ranked, key, 0, Examined(batch, deeper));
  }

  /** No identifier is ranked twice. */
  ghost predicate RankedOnce(ranked: seq<RankedAlert>) {
    forall i, j :: 0 <= i < j < |ranked| ==> ranked[i].alert.alertId != ranked[j].alert.alertId
  }

  lemma {:induction false} CaughtIsASet(ranked: seq<RankedAlert>, key: set<string>, n: nat) returns (ids: set<string>)
    requires n <= |ranked| && RankedOnce(ranked)
    ensures |ids| == Caught(ranked, key, n) && ids <= key
    ensures forall id :: id in ids ==> exists i :: 0 <= i < n && ranked[i].alert.alertId == id
  {
    if n == 0 {
      ids := {};
    } else {
      var before := CaughtIsASet(ranked, key, n - 1);
      var id := ranked[n - 1].alert.alertId;
      assert id !in before;
      ids := if id in key then before + {id} else before;
    }
  }

  lemma SubsetSize<T>(a: set<T>, b: set<T>)
    requires a <= b
    ensures |a| <= |b|
  {
    assert b == a + (b - a);
  }

  /**
   What is caught never exceeds what is concerning, for every answer key and depth, exactly when no identifier is
   ranked twice.
   */
  lemma CaughtWithinConcerningIff(batch: TriageBatch)
    ensures (forall answers: seq<string>, depth: nat ::
               Quality(batch, answers, depth).truePositives <= Quality(batch, answers, depth).concerningInBatch)
       <==> RankedOnce(batch.ranked)
  {
    if RankedOnce(batch.ranked) {
      forall answers: seq<string>, depth: nat
        ensures Quality(batch, answers, depth).truePositives <= Quality(batch, answers, depth).concerningInBatch
      {
        var key := (set id | id in answers) * Submitted(batch);
        var ids := CaughtIsASet(batch.ranked, key, Examined(batch, depth));
        SubsetSize(ids, key);
      }
    } else {
      var i, j :| 0 <= i < j < |batch.ranked| && batch.ranked[i].alert.alertId == batch.ranked[j].alert.alertId;
      CountedTwice(batch, i, j);
    }
  }

  lemma CaughtTwice(ranked: seq<RankedAlert>, key: set<string>, i: nat, j: nat)
    requires i < j < |ranked| && ranked[i].alert.alertId in key && ranked[j].alert.alertId in key
    ensures Caught(ranked, key, j + 1) >= 2
  {
    CaughtGrows(ranked, key, 0, i);
    CaughtGrows(ranked, key, i + 1, j);
  }

  lemma OneAnswer(batch: TriageBatch, r: RankedAlert)
    requires r in batch.ranked
    ensures (set x | x in [r.alert.alertId]) * Submitted(batch) == {r.alert.alertId}
  {
    assert r.alert.alertId in RankedIds(batch.ranked);
  }

  lemma CountedTwice(batch: TriageBatch, i: nat, j: nat)
    requires i < j < |batch.ranked| && batch.ranked[i].alert.alertId == batch.ranked[j].alert.alertId
    ensures Quality(batch, [batch.ranked[i].alert.alertId], j + 1).truePositives
            > Quality(batch, [batch.ranked[i].alert.alertId], j + 1).concerningInBatch
  {
    OneAnswer(batch, batch.ranked[i]);
    CaughtTwice(batch.ranked, {batch.ranked[i].alert.alertId}, i, j);
  }

  /** What an honest share of a whole is: within bounds, never rounded up, and 100 only for the whole. */
  ghost predicate Honest(percent: Option<real>, part: nat, whole: nat) {
    && (percent.Some? <==> whole > 0)
    && (percent.Some? ==>
          && 0.0 <= percent.value <= Share(part, whole) <= 100.0 && Share(part, whole) < percent.value + 0.1
          && (percent.value == 100.0 <==> part == whole))
  }

  /**
   Precision is honest for every batch; recall is honest when no identifier is ranked twice. Precision is missing only
   when nothing was examined, recall only when nothing concerning was submitted.
   */
  lemma PercentagesHonest(batch: TriageBatch, answers: seq<string>, depth: nat)
    ensures var q := Quality(batch, answers, depth);
            && (q.examined == 0 <==> depth == 0 || batch.ranked == [])
            && Honest(q.PrecisionPercent(), q.truePositives, q.examined)
            && (RankedOnce(batch.ranked) ==> Honest(q.RecallPercent(), q.truePositives, q.concerningInBatch))
  {
    var q := Quality(batch, answers, depth);
    DeeperCatchesMore(batch, answers, depth, depth);
    CaughtWithinConcerningIff(batch);
    HonestShare(q.truePositives, q.examined);
    if RankedOnce(batch.ranked) { HonestShare(q.truePositives, q.concerningInBatch); }
  }

  lemma HonestShare(part: nat, whole: nat)
    requires part <= whole
    ensures Honest(if whole == 0 then None else Some(TruncatedShare(part, whole)), part, whole)
  {
    if whole > 0 {
      TruncatedShareHonest(part, whole);
      ShareBounds(part, whole);
    }
  }

  /** Recall never falls as review goes deeper. */
  lemma RecallGrows(batch: TriageBatch, answers: seq<string>, depth: nat, deeper: nat)
    requires depth <= deeper && Quality(batch, answers, depth).RecallPercent().Some?
    ensures Quality(batch, answers, deeper).RecallPercent().Some?
    ensures Quality(batch, answers, depth).RecallPercent().value <= Quality(batch, answers,
            deeper).RecallPercent().value
  {
    DeeperCatchesMore(batch, answers, depth, deeper);
    TruncatedShareMonotone(
      Quality(batch, answers, depth).truePositives, Quality(batch, answers, deeper).truePositives,
      Quality(batch, answers, depth).concerningInBatch);
  }

  /** A ranking of alerts with distinct identifiers ranks each once. */
  lemma DistinctAlertsRankedOnce(host: Host, alerts: seq<Alert>, look: Lookup)
    requires forall i, j :: 0 <= i < j < |alerts| ==> alerts[i].alertId != alerts[j].alertId
    ensures RankedOnce(Ranking(host, alerts, look).ranked)
  {
    var scored := ScoredOf(look, alerts);
    var t := Sort(ScoredLe, scored);
    SortPermutes(ScoredLe, scored);
    forall i, j | 0 <= i < j < |t| ensures t[i].alert.alertId != t[j].alert.alertId {
      ScoredAtMostOnce(look, alerts, t[i].alert.alertId);
      var p := Names(t[i].alert.alertId);
      FilterPermutation(p, t, scored);
      PermutationElements(Filter(p, t), Filter(p, scored));
      if t[i].alert.alertId == t[j].alert.alertId { TwiceCounted(t, t[i].alert.alertId, i, j); }
    }
  }

  function Names(id: string): Scored -> bool { (s: Scored) => s.alert.alertId == id }

  lemma {:induction false} ScoredAtMostOnce(look: Lookup, alerts: seq<Alert>, id: string)
    requires forall i, j :: 0 <= i < j < |alerts| ==> alerts[i].alertId != alerts[j].alertId
    ensures |Filter(Names(id), ScoredOf(look, alerts))| <= 1
    ensures (forall a :: a in alerts ==> a.alertId != id) ==> Filter(Names(id), ScoredOf(look, alerts)) == []
  {
    if alerts != [] {
      ScoredAtMostOnce(look, alerts[1..], id);
      FilterConcat(Names(id), ScoreOf(look)(alerts[0]), ScoredOf(look, alerts[1..]));
      FilterMembers(Names(id), ScoreOf(look)(alerts[0]));
      assert alerts == [alerts[0]] + alerts[1..];
      if alerts[0].alertId == id {
        forall a | a in alerts[1..] ensures a.alertId != id {
          var k :| 0 <= k < |alerts[1..]| && alerts[1..][k] == a;
          assert alerts[k + 1] == a;
        }
      } else {
        if Filter(Names(id), ScoreOf(look)(alerts[0])) != [] {
          var x := FirstOf(Filter(Names(id), ScoreOf(look)(alerts[0])));
          assert false;
        }
      }
    }
  }

  lemma TwiceCounted(t: seq<Scored>, id: string, i: nat, j: nat)
    requires i < j < |t| && t[i].alert.alertId == id && t[j].alert.alertId == id
    ensures |Filter(Names(id), t)| >= 2
  {
    var p := Names(id);
    assert t == t[..j] + t[j..] && t[..j] == t[..i] + t[i..j];
    FilterConcat(p, t[..j], t[j..]);
    FilterConcat(p, t[..i], t[i..j]);
    assert t[j..][0] == t[j] && t[i..j][0] == t[i];
  }

  /**
   End to end: over alerts with distinct identifiers, for every assessment list, answer key and depth, the measured true
   positives stay within the concerning alerts submitted, both percentages are honest, and the recall denominator counts
   exactly the submitted alerts that the key names.
   */
  lemma DistinctAlertsMeasureHonestly(
    host: Host, alerts: seq<Alert>, assessments: seq<Assessment>, answers: seq<string>, depth: nat)
    requires forall i, j :: 0 <= i < j < |alerts| ==> alerts[i].alertId != alerts[j].alertId
    ensures var q := Quality(Ranking(host, alerts, LatestOf(assessments)), answers, depth);
            && q.truePositives <= q.concerningInBatch
            && q.concerningInBatch == |set a | a in alerts && a.alertId in answers :: a.alertId|
            && Honest(q.PrecisionPercent(), q.truePositives, q.examined)
            && Honest(q.RecallPercent(), q.truePositives, q.concerningInBatch)
  {
    var batch := Ranking(host, alerts, LatestOf(assessments));
    DistinctAlertsRankedOnce(host, alerts, LatestOf(assessments));
    CaughtWithinConcerningIff(batch);
    PercentagesHonest(batch, answers, depth);
    SubmittedAreAlerts(host, alerts, LatestOf(assessments));
    assert (set id | id in answers) * Submitted(batch) == set a | a in alerts && a.alertId in answers :: a.alertId;
  }
}
