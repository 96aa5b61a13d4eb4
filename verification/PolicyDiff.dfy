/** Validation of policy sets, and the rendered difference between two of them. */
module PolicyDiff {
  import opened Prelude
  import opened PolicyGate
  import Ordinal

  // ---- Validation ----

  datatype ValidationFailure =
    ClassificationNamesUnapprovedVendor | ApprovedVendorHasNoClassification | RestrictedDataUnservable

  predicate CanServeRestricted(p: PolicySet) {
    exists v :: v in p.approvedVendors && v in p.maxClassification
        && p.maxClassification[v].Level() >= Restricted.Level()
  }

  /** The first rule a policy set breaks, in the order they are checked. */
  function Validate(p: PolicySet): Option<ValidationFailure> {
    if exists v :: v in p.maxClassification.Keys && v !in p.approvedVendors
        then Some(ClassificationNamesUnapprovedVendor)
    else if exists v :: v in p.approvedVendors && v !in p.maxClassification then Some(ApprovedVendorHasNoClassification)
    else if p.permitsRestrictedData && !CanServeRestricted(p) then Some(RestrictedDataUnservable)
    else None
  }

  predicate IsValid(p: PolicySet) { Validate(p).None? }

  /**
   What each failure says, in the order the rules are checked: a ceiling for a vendor not approved; else an approved
   vendor without a ceiling; else Restricted data promised and no approved vendor cleared for it.
   */
  lemma ValidateSays(p: PolicySet)
    ensures var unapproved := exists v :: v in p.maxClassification && v !in p.approvedVendors;
            var unclassified := exists v :: v in p.approvedVendors && v !in p.maxClassification;
            var served := exists v ::
                v in p.approvedVendors && v in p.maxClassification && p.maxClassification[v] == Restricted;
            && (Validate(p) == Some(ClassificationNamesUnapprovedVendor) <==> unapproved)
            && (Validate(p) == Some(ApprovedVendorHasNoClassification) <==> !unapproved && unclassified)
            && (Validate(p) == Some(RestrictedDataUnservable) <==>
                  !unapproved && !unclassified && p.permitsRestrictedData && !served)
            && (IsValid(p) <==> !unapproved && !unclassified && (p.permitsRestrictedData ==> served))
  {
    assert forall c: DataClassification :: c.Level() >= Restricted.Level() <==> c == Restricted;
  }

  /**
   In a valid set every approved vendor has a ceiling, and one of them serves Restricted data when that is promised.
   */
  lemma ValidSetsServeWhatTheyPromise(p: PolicySet)
    requires IsValid(p)
    ensures p.maxClassification.Keys == p.approvedVendors
    ensures p.permitsRestrictedData ==>
              exists v :: v in p.approvedVendors && ServesAnything(p, v)
  {
    if p.permitsRestrictedData {
      var v :| v in p.approvedVendors && v in p.maxClassification
          && p.maxClassification[v].Level() >= Restricted.Level();
      assert ServesAnything(p, v);
    }
  }

  /** Every affordable deployment of `v` is permitted for data of every classification. */
  ghost predicate ServesAnything(p: PolicySet, v: ModelVendor) {
    forall d: DataClassification, c: TierPricing ::
      c.vendor == v && c.costPerRequestUsd <= p.maxCostPerRequestUsd ==> Terms(p, d, None).Permits(c)
  }

  // ---- Names ----

  function VendorName(v: ModelVendor): string {
    match v
    case AzureOpenAI => "AzureOpenAI"
    case Anthropic => "Anthropic"
    case XAI => "XAI"
    case OpenWeight => "OpenWeight"
  }

  function ClassificationName(c: DataClassification): string {
    match c
    case Public => "Public"
    case Internal => "Internal"
    case Confidential => "Confidential"
    case Restricted => "Restricted"
  }

  // ---- Sorted names, joined ----

  function Join(names: seq<string>): string {
    if names == [] then "" else if |names| == 1 then names[0] else names[0] + ", " + Join(names[1..])
  }

  function Render(s: set<string>): string { Join(Ordinal.InOrder(s)) }

  /** A name that joining cannot blur: not empty, and without the separator inside. */
  predicate Plain(name: string) {
    name != "" && forall i :: 0 <= i < |name| - 1 ==> !(name[i] == ',' && name[i + 1] == ' ')
  }

  /** Where the first separator stands, or the length when there is none. */
  function FirstSeparator(s: string): (k: nat)
    ensures k <= |s|
  {
    if |s| < 2 then |s| else if s[0] == ',' && s[1] == ' ' then 0 else 1 + FirstSeparator(s[1..])
  }

  lemma {:induction false} SeparatorAfter(name: string, rest: string)
    requires forall i :: 0 <= i < |name| - 1 ==> !(name[i] == ',' && name[i + 1] == ' ')
    ensures FirstSeparator(name + ", " + rest) == |name|
  {
    if name == "" {
      assert name + ", " + rest == ", " + rest;
    } else {
      var s := name + ", " + rest;
      assert s[1..] == name[1..] + ", " + rest;
      assert s[1] == if |name| > 1 then name[1] else ',';
      SeparatorAfter(name[1..], rest);
    }
  }

  lemma {:induction false} NoSeparator(name: string)
    requires forall i :: 0 <= i < |name| - 1 ==> !(name[i] == ',' && name[i + 1] == ' ')
    ensures FirstSeparator(name) == |name|
  {
    if |name| >= 2 { NoSeparator(name[1..]); }
  }

  predicate AllPlain(names: seq<string>) { forall i :: 0 <= i < |names| ==> Plain(names[i]) }

  /** What the first separator of a joined list says. */
  lemma JoinHead(names: seq<string>)
    requires AllPlain(names) && names != []
    ensures Join(names) != "" && Join(names)[..FirstSeparator(Join(names))] == names[0]
    ensures |names| == 1 <==> FirstSeparator(Join(names)) == |Join(names)|
    ensures |names| > 1 ==>
              FirstSeparator(Join(names)) + 2 <= |Join(names)|
                  && Join(names)[FirstSeparator(Join(names)) + 2..] == Join(names[1..])
  {
    if |names| == 1 {
      NoSeparator(names[0]);
    } else {
      SeparatorAfter(names[0], Join(names[1..]));
    }
  }

  /** Plain names can be read back from their join. */
  lemma {:induction false} JoinInjective(a: seq<string>, b: seq<string>)
    requires AllPlain(a) && AllPlain(b) && Join(a) == Join(b)
    ensures a == b
  {
    if a != [] && b != [] {
      JoinHead(a);
      JoinHead(b);
      if |a| > 1 { JoinInjective(a[1..], b[1..]); }
      assert a == [a[0]] + a[1..] && b == [b[0]] + b[1..];
    } else {
      if a != [] { JoinHead(a); }
      if b != [] { JoinHead(b); }
    }
  }

  /** Two sets of plain names render alike exactly when they are the same set. */
  lemma RenderInjective(s: set<string>, t: set<string>)
    requires (forall x :: x in s ==> Plain(x)) && (forall x :: x in t ==> Plain(x))
    ensures Render(s) == Render(t) <==> s == t
  {
    if Render(s) == Render(t) {
      assert forall i :: 0 <= i < |Ordinal.InOrder(s)| ==> Ordinal.InOrder(s)[i] in s;
      assert forall i :: 0 <= i < |Ordinal.InOrder(t)| ==> Ordinal.InOrder(t)[i] in t;
      JoinInjective(Ordinal.InOrder(s), Ordinal.InOrder(t));
      assert forall x :: x in s <==> x in t;
    }
  }

  /** A separator at `i` with the part before it ordered strictly before the part after it. */
  predicate SplitsAscending(name: string, i: nat) {
    && i + 2 <= |name| && name[i..i + 2] == ", "
    && name[..i] != name[i + 2..] && Ordinal.Le(name[..i], name[i + 2..])
  }

  /** A name that no other set of names can be mistaken for. */
  predicate Unmistakable(name: string) { name != "" && forall i: nat :: i <= |name| ==> !SplitsAscending(name, i) }

  lemma ConcatSplits(a: string, b: string)
    requires a != b && Ordinal.Le(a, b)
    ensures SplitsAscending(a + ", " + b, |a|)
  {
    var joined := a + ", " + b;
    assert joined[..|a|] == a && joined[|a| + 2..] == b;
    assert joined[|a|..|a| + 2] == ", ";
  }

  lemma StrictlyBelowExtension(a: string, b: string, c: string)
    requires a != b && Ordinal.Le(a, b)
    ensures a != b + c && Ordinal.Le(a, b + c)
  {
    Ordinal.LeExtends(a, b, c);
    if a == b + c {
      Ordinal.Total(b, b);
      Ordinal.LeExtends(b, b, c);
      Ordinal.Antisymmetric(a, b);
    }
  }

  lemma JoinCons(m: string, rest: seq<string>)
    requires rest != []
    ensures Join([m] + rest) == m + ", " + Join(rest)
  {
    assert ([m] + rest)[1..] == rest;
  }

  lemma JoinBegins(names: seq<string>) returns (tail: string)
    requires names != []
    ensures Join(names) == names[0] + tail
  {
    tail := if |names| == 1 then "" else ", " + Join(names[1..]);
  }

  /** Joining after a smaller name puts a separator between ascending parts. */
  lemma JoinSplits(m: string, first: string, rest: seq<string>)
    requires rest != [] && rest[0] == first && Ordinal.Le(m, first) && m != first
    ensures SplitsAscending(Join([m] + rest), |m|)
  {
    JoinCons(m, rest);
    var tail := JoinBegins(rest);
    StrictlyBelowExtension(m, first, tail);
    ConcatSplits(m, first + tail);
  }

  /** Two or more rendered names read as one name that splits in ascending order. */
  lemma ManyNamesSplit(s: set<string>)
    requires |s| >= 2
    ensures SplitsAscending(Render(s), |Ordinal.InOrder(s)[0]|)
  {
    Ordinal.LeastExists(s);
    var m :| Ordinal.IsLeast(m, s);
    Ordinal.InOrderHead(s, m);
    var rest := Ordinal.InOrder(s - {m});
    assert rest[0] in s - {m};
    JoinSplits(m, rest[0], rest);
  }

  /**
   When a change of regions can go unnoticed: every other set renders differently exactly when the set is one name,
   not empty, without a separator between two ascending parts.
   */
  lemma RegionChangeAlwaysShowsIff(s: set<string>)
    ensures (forall t: set<string> :: Render(t) == Render(s) ==> t == s)
            <==> (|s| == 1 && forall name :: name in s ==> Unmistakable(name))
  {
    if |s| == 0 {
      Ordinal.InOrderOne("");
      assert Render({""}) == Render(s) && {""} != s;
    } else if |s| >= 2 {
      Ordinal.InOrderOne(Render(s));
      assert Render({Render(s)}) == Render(s);
    } else {
      var name :| name in s;
      assert s == {name} by { assert |s - {name}| == 0; }
      OneNameShowsIff(name);
    }
  }

  lemma OneNameShowsIff(name: string)
    ensures (forall t: set<string> :: Render(t) == Render({name}) ==> t == {name}) <==> Unmistakable(name)
  {
    Ordinal.InOrderOne(name);
    if Unmistakable(name) {
      forall t: set<string> | Render(t) == name ensures t == {name} {
        if |t| >= 2 {
          ManyNamesSplit(t);
        } else if |t| == 1 {
          var n :| n in t;
          assert t == {n} by { assert |t - {n}| == 0; }
          Ordinal.InOrderOne(n);
        }
      }
    } else if name == "" {
      assert Render({}) == Render({name});
    } else {
      var i: nat :| i <= |name| && SplitsAscending(name, i);
      var a, b := name[..i], name[i + 2..];
      assert name == a + ", " + b by { assert name == name[..i] + name[i..i + 2] + name[i + 2..]; }
      Ordinal.InOrderPair(a, b);
      JoinCons(a, [b]);
      assert [a, b] == [a] + [b] && Join([b]) == b;
      assert Render({a, b}) == Join([a, b]);
      assert Render({name}) == name;
      assert Render({a, b}) == Render({name});
      assert |{a, b}| == 2;
    }
  }

  // ---- The five governed fields ----

  function VendorNames(vendors: set<ModelVendor>): set<string> { set v | v in vendors :: VendorName(v) }

  function RenderVendors(vendors: set<ModelVendor>): string { Render(VendorNames(vendors)) }

  function Entry(v: ModelVendor, c: DataClassification): string { VendorName(v) + "=" + ClassificationName(c) }

  /** The vendor a name belongs to. */
  function VendorNamed(name: string): ModelVendor {
    if name == "AzureOpenAI" then AzureOpenAI else if name == "Anthropic" then Anthropic else if name == "XAI" then XAI
        else OpenWeight
  }

  lemma VendorNamedBack(v: ModelVendor)
    ensures VendorNamed(VendorName(v)) == v
  {
    assert "AzureOpenAI"[1] == 'z' && "Anthropic"[1] == 'n' && "XAI"[1] == 'A' && "OpenWeight"[1] == 'p';
  }

  /** How the classification of a vendor, given by name, is shown. */
  function EntryNamed(m: map<ModelVendor, DataClassification>): string -> string {
    (name: string) => if VendorNamed(name) in m then Entry(VendorNamed(name), m[VendorNamed(name)]) else name
  }

  /** The entries of a map, in the ordinal order of the vendors' names. */
  function Entries(m: map<ModelVendor, DataClassification>): seq<string> {
    Map(EntryNamed(m), Ordinal.InOrder(VendorNames(m.Keys)))
  }

  function RenderClassifications(m: map<ModelVendor, DataClassification>): string { Join(Entries(m)) }

  lemma NamesPlain(v: ModelVendor, c: DataClassification)
    ensures ',' !in VendorName(v) && ',' !in ClassificationName(c)
    ensures Plain(VendorName(v)) && Plain(Entry(v, c))
  {
    NoComma(VendorName(v));
    NoComma(Entry(v, c));
  }

  lemma NoComma(s: string)
    requires ',' !in s && s != ""
    ensures Plain(s)
  {
    forall i | 0 <= i < |s| - 1 ensures s[i] != ',' { assert s[i] in s; }
  }

  lemma VendorNameInjective(v: ModelVendor, w: ModelVendor)
    ensures VendorName(v)[..2] == VendorName(w)[..2] ==> v == w
  {
    assert VendorName(v)[..2][1] == VendorName(v)[1] && VendorName(w)[..2][1] == VendorName(w)[1];
    assert VendorName(v)[..2][0] == VendorName(v)[0] && VendorName(w)[..2][0] == VendorName(w)[0];
  }

  lemma VendorsRenderInjective(s: set<ModelVendor>, t: set<ModelVendor>)
    ensures RenderVendors(s) == RenderVendors(t) <==> s == t
  {
    forall v: ModelVendor ensures Plain(VendorName(v)) { NamesPlain(v, Public); }
    RenderInjective(VendorNames(s), VendorNames(t));
    if VendorNames(s) == VendorNames(t) {
      forall v ensures v in s <==> v in t {
        forall w ensures VendorName(v) == VendorName(w) ==> v == w { VendorNameInjective(v, w); }
        assert v in s ==> VendorName(v) in VendorNames(t);
        assert v in t ==> VendorName(v) in VendorNames(s);
      }
    }
  }

  lemma EntryTells(v: ModelVendor, c: DataClassification, w: ModelVendor, d: DataClassification)
    requires Entry(v, c) == Entry(w, d)
    ensures v == w && c == d
  {
    assert Entry(v, c)[..2] == VendorName(v)[..2] && Entry(w, d)[..2] == VendorName(w)[..2];
    VendorNameInjective(v, w);
    var k := |VendorName(v)| + 1;
    assert Entry(v, c)[k] == ClassificationName(c)[0] && Entry(w, d)[k] == ClassificationName(d)[0];
  }

  lemma NamedEntry(m: map<ModelVendor, DataClassification>, v: ModelVendor)
    requires v in m
    ensures EntryNamed(m)(VendorName(v)) == Entry(v, m[v])
  {
    VendorNamedBack(v);
  }

  lemma EntryStands(m: map<ModelVendor, DataClassification>, v: ModelVendor)
    requires v in m
    ensures Entry(v, m[v]) in Entries(m)
  {
    var names := Ordinal.InOrder(VendorNames(m.Keys));
    assert VendorName(v) in names;
    NamedEntry(m, v);
    MapMembers(EntryNamed(m), names);
  }

  lemma EntryComesFrom(m: map<ModelVendor, DataClassification>, e: string) returns (v: ModelVendor)
    requires e in Entries(m)
    ensures v in m && e == Entry(v, m[v])
  {
    var names := Ordinal.InOrder(VendorNames(m.Keys));
    MapMembers(EntryNamed(m), names);
    var name :| name in names && e == EntryNamed(m)(name);
    v :| v in m.Keys && VendorName(v) == name;
    NamedEntry(m, v);
  }

  lemma EntriesPlain(m: map<ModelVendor, DataClassification>)
    ensures AllPlain(Entries(m))
  {
    forall i | 0 <= i < |Entries(m)| ensures Plain(Entries(m)[i]) {
      assert Entries(m)[i] in Entries(m);
      var v := EntryComesFrom(m, Entries(m)[i]);
      NamesPlain(v, m[v]);
    }
  }

  /** The rendered list holds exactly the pairs of the map. */
  lemma EntryListedIff(m: map<ModelVendor, DataClassification>, v: ModelVendor, c: DataClassification)
    ensures Entry(v, c) in Entries(m) <==> v in m && m[v] == c
  {
    if v in m { EntryStands(m, v); }
    if Entry(v, c) in Entries(m) {
      var w := EntryComesFrom(m, Entry(v, c));
      EntryTells(v, c, w, m[w]);
    }
  }

  lemma ClassificationsRenderInjective(m: map<ModelVendor, DataClassification>, k: map<ModelVendor, DataClassification>)
    ensures RenderClassifications(m) == RenderClassifications(k) <==> m == k
  {
    if RenderClassifications(m) == RenderClassifications(k) {
      EntriesPlain(m);
      EntriesPlain(k);
      JoinInjective(Entries(m), Entries(k));
      SameEntriesSameMap(m, k);
    }
  }

  lemma SameEntriesSameMap(m: map<ModelVendor, DataClassification>, k: map<ModelVendor, DataClassification>)
    requires Entries(m) == Entries(k)
    ensures m == k
  {
    forall v: ModelVendor ensures (v in m <==> v in k) && (v in m && v in k ==> m[v] == k[v]) {
      if v in m {
        EntryListedIff(m, v, m[v]);
        EntryListedIff(k, v, m[v]);
      }
      if v in k {
        EntryListedIff(m, v, k[v]);
        EntryListedIff(k, v, k[v]);
      }
    }
  }

  // ---- The difference ----

  datatype Field = ApprovedVendors | MaxClassification | AllowedRegions | MaxCostPerRequestUsd | PermitsRestrictedData

  /** A field as shown: names as text, a cost to three places, a flag. */
  datatype Shown = Names(text: string) | Thousandths(amount: int) | Flag(on: bool)

  datatype FieldChange = FieldChange(field: Field, before: Shown, after: Shown)

  /** The format "0.###": thousandths, half away from zero. */
  function ShownCost(usd: real): Shown {
    Thousandths(if usd >= 0.0 then (usd * 1000.0 + 0.5).Floor else -((-usd * 1000.0 + 0.5).Floor))
  }

  /** What is shown is within half a thousandth of the cost. */
  lemma ShownCostNear(usd: real)
    ensures ShownCost(usd).Thousandths?
    ensures usd - 0.0005 <= ShownCost(usd).amount as real / 1000.0 <= usd + 0.0005
  {
  }

  function ShowField(p: PolicySet, f: Field): Shown {
    match f
    case ApprovedVendors => Names(RenderVendors(p.approvedVendors))
    case MaxClassification => Names(RenderClassifications(p.maxClassification))
    case AllowedRegions => Names(Render(p.allowedRegions))
    case MaxCostPerRequestUsd => ShownCost(p.maxCostPerRequestUsd)
    case PermitsRestrictedData => Flag(p.permitsRestrictedData)
  }

  /** The field holds the same value in both sets. */
  predicate Unchanged(p: PolicySet, q: PolicySet, f: Field) {
    match f
    case ApprovedVendors => p.approvedVendors == q.approvedVendors
    case MaxClassification => p.maxClassification == q.maxClassification
    case AllowedRegions => p.allowedRegions == q.allowedRegions
    case MaxCostPerRequestUsd => p.maxCostPerRequestUsd == q.maxCostPerRequestUsd
    case PermitsRestrictedData => p.permitsRestrictedData == q.permitsRestrictedData
  }

  predicate PlainRegions(p: PolicySet) { forall r :: r in p.allowedRegions ==> Plain(r) }

  predicate Mentions(changes: seq<FieldChange>, f: Field) { exists c :: c in changes && c.field == f }

  /** One entry for every changed field and no other, each once, showing both values. */
  ghost predicate Reports(changes: seq<FieldChange>, before: PolicySet, after: PolicySet) {
    && (forall f: Field :: Mentions(changes, f) <==> !Unchanged(before, after, f))
    && (forall c :: c in changes ==> c == FieldChange(c.field, ShowField(before, c.field), ShowField(after, c.field)))
    && (forall i, j :: 0 <= i < j < |changes| ==> changes[i].field != changes[j].field)
  }

  function ChangeOf(before: PolicySet, after: PolicySet, f: Field): seq<FieldChange> {
    if (if f.MaxCostPerRequestUsd? then Unchanged(before, after, f) else ShowField(before, f) == ShowField(after, f))
        then []
    else [FieldChange(f, ShowField(before, f), ShowField(after, f))]
  }

  /** The governed fields, in the order they are compared. */
  const FIELDS := [ApprovedVendors, MaxClassification, AllowedRegions, MaxCostPerRequestUsd, PermitsRestrictedData]

  /** What is listed for each of `fields`, in order. */
  function Collect(listed: Field -> seq<FieldChange>, fields: seq<Field>): seq<FieldChange> {
    if fields == [] then [] else Collect(listed, fields[..|fields| - 1]) + listed(fields[|fields| - 1])
  }

  lemma CollectNext(listed: Field -> seq<FieldChange>, fields: seq<Field>, f: Field)
    ensures Collect(listed, fields + [f]) == Collect(listed, fields) + listed(f)
  {
    assert (fields + [f])[..|fields|] == fields;
  }

  function Listing(before: PolicySet, after: PolicySet): Field -> seq<FieldChange> {
    (f: Field) => ChangeOf(before, after, f)
  }

  function Changes(before: PolicySet, after: PolicySet): seq<FieldChange> { Collect(Listing(before, after), FIELDS) }

  lemma CollectInFull(listed: Field -> seq<FieldChange>)
    ensures Collect(listed, FIELDS) ==
            [] + listed(ApprovedVendors) + listed(MaxClassification) + listed(AllowedRegions)
            + listed(MaxCostPerRequestUsd) + listed(PermitsRestrictedData)
  {
    CollectNext(listed, [], ApprovedVendors);
    CollectNext(listed, [ApprovedVendors], MaxClassification);
    CollectNext(listed, [ApprovedVendors, MaxClassification], AllowedRegions);
    CollectNext(listed, [ApprovedVendors, MaxClassification, AllowedRegions], MaxCostPerRequestUsd);
    CollectNext(listed, [ApprovedVendors, MaxClassification, AllowedRegions, MaxCostPerRequestUsd],
        PermitsRestrictedData);
    assert [] + [ApprovedVendors] == [ApprovedVendors];
    assert [ApprovedVendors] + [MaxClassification] == [ApprovedVendors, MaxClassification];
    assert [ApprovedVendors, MaxClassification] + [AllowedRegions]
        == [ApprovedVendors, MaxClassification, AllowedRegions];
    assert [ApprovedVendors, MaxClassification, AllowedRegions] + [MaxCostPerRequestUsd]
        == [ApprovedVendors, MaxClassification, AllowedRegions, MaxCostPerRequestUsd];
    assert [ApprovedVendors, MaxClassification, AllowedRegions, MaxCostPerRequestUsd] + [PermitsRestrictedData]
        == FIELDS;
    assert Collect(listed, []) == [];
  }

  /** What a comparison of two texts adds. */
  function TextChange(f: Field, before: string, after: string): seq<FieldChange> {
    if before == after then [] else [FieldChange(f, Names(before), Names(after))]
  }

  lemma VendorsListed(before: PolicySet, after: PolicySet)
    ensures ChangeOf(before, after, ApprovedVendors) ==
            TextChange(ApprovedVendors, RenderVendors(before.approvedVendors), RenderVendors(after.approvedVendors))
  {
  }

  lemma ClassificationsListed(before: PolicySet, after: PolicySet)
    ensures ChangeOf(before, after, MaxClassification) ==
            TextChange(MaxClassification, RenderClassifications(before.maxClassification),
                RenderClassifications(after.maxClassification))
  {
  }

  lemma RegionsListed(before: PolicySet, after: PolicySet)
    ensures ChangeOf(before, after, AllowedRegions)
            == TextChange(AllowedRegions, Render(before.allowedRegions), Render(after.allowedRegions))
  {
  }

  lemma ValueListed(before: PolicySet, after: PolicySet)
    ensures ChangeOf(before, after, MaxCostPerRequestUsd) ==
            var b, a := before.maxCostPerRequestUsd, after.maxCostPerRequestUsd;
            if b == a then [] else [FieldChange(MaxCostPerRequestUsd, ShownCost(b), ShownCost(a))]
    ensures ChangeOf(before, after, PermitsRestrictedData) ==
            var b, a := before.permitsRestrictedData, after.permitsRestrictedData;
            if b == a then [] else [FieldChange(PermitsRestrictedData, Flag(b), Flag(a))]
  {
  }

  /** The five comparisons and the entry each adds. */
  lemma WhatIsListed(before: PolicySet, after: PolicySet) returns (listed: Field -> seq<FieldChange>)
    ensures Changes(before, after) ==
            [] + listed(ApprovedVendors) + listed(MaxClassification) + listed(AllowedRegions)
            + listed(MaxCostPerRequestUsd) + listed(PermitsRestrictedData)
    ensures forall f :: listed(f) == ChangeOf(before, after, f)
  {
    listed := Listing(before, after);
    CollectInFull(listed);
  }

  method Diff(before: PolicySet, after: PolicySet) returns (changes: seq<FieldChange>)
    ensures changes == Changes(before, after)
  {
    changes := [];
    ghost var listed := WhatIsListed(before, after);
    VendorsListed(before, after);
    ClassificationsListed(before, after);
    RegionsListed(before, after);
    ValueListed(before, after);
    var beforeVendors, afterVendors := RenderVendors(before.approvedVendors), RenderVendors(after.approvedVendors);
    if beforeVendors != afterVendors {
      changes := changes + [FieldChange(ApprovedVendors, Names(beforeVendors), Names(afterVendors))];
    }
    ghost var with1 := changes;
    assert with1 == [] + listed(ApprovedVendors);
    var beforeClass, afterClass := RenderClassifications(before.maxClassification),
        RenderClassifications(after.maxClassification);
    if beforeClass != afterClass {
      changes := changes + [FieldChange(MaxClassification, Names(beforeClass), Names(afterClass))];
    }
    ghost var with2 := changes;
    assert with2 == with1 + listed(MaxClassification);
    var beforeRegions, afterRegions := Render(before.allowedRegions), Render(after.allowedRegions);
    if beforeRegions != afterRegions {
      changes := changes + [FieldChange(AllowedRegions, Names(beforeRegions), Names(afterRegions))];
    }
    ghost var with3 := changes;
    assert with3 == with2 + listed(AllowedRegions);
    if before.maxCostPerRequestUsd != after.maxCostPerRequestUsd {
      changes := changes
        + [FieldChange(MaxCostPerRequestUsd, ShownCost(before.maxCostPerRequestUsd),
            ShownCost(after.maxCostPerRequestUsd))];
    }
    ghost var with4 := changes;
    assert with4 == with3 + listed(MaxCostPerRequestUsd);
    if before.permitsRestrictedData != after.permitsRestrictedData {
      changes := changes + [FieldChange(PermitsRestrictedData, Flag(before.permitsRestrictedData),
          Flag(after.permitsRestrictedData))];
    }
    assert changes == with4 + listed(PermitsRestrictedData);
  }

  /** A change is listed exactly when the field changed. */
  lemma ChangeListedIff(before: PolicySet, after: PolicySet, f: Field)
    requires PlainRegions(before) && PlainRegions(after)
    ensures ChangeOf(before, after, f) == [] <==> Unchanged(before, after, f)
  {
    match f
    case ApprovedVendors => VendorsRenderInjective(before.approvedVendors, after.approvedVendors);
    case MaxClassification => ClassificationsRenderInjective(before.maxClassification, after.maxClassification);
    case AllowedRegions => RenderInjective(before.allowedRegions, after.allowedRegions);
    case MaxCostPerRequestUsd =>
    case PermitsRestrictedData =>
  }

  /** At most one entry for a field, and it names that field. */
  ghost predicate EntryPerField(listed: Field -> seq<FieldChange>) {
    forall f: Field :: |listed(f)| <= 1 && forall c :: c in listed(f) ==> c.field == f
  }

  /** `changes` holds what is listed for `fields`, once each. */
  ghost predicate Tells(changes: seq<FieldChange>, listed: Field -> seq<FieldChange>, fields: seq<Field>) {
    && (forall c :: c in changes ==> c.field in fields && c in listed(c.field))
    && (forall f :: f in fields && listed(f) != [] ==> Mentions(changes, f))
    && (forall i, j :: 0 <= i < j < |changes| ==> changes[i].field != changes[j].field)
  }

  lemma TellsMore(prior: seq<FieldChange>, listed: Field -> seq<FieldChange>, fields: seq<Field>, f: Field)
    requires EntryPerField(listed) && Tells(prior, listed, fields) && f !in fields
    ensures Tells(prior + listed(f), listed, fields + [f])
  {
    var one := listed(f);
    forall g | g in fields + [f] && listed(g) != [] ensures Mentions(prior + one, g) {
      if g == f {
        assert one[0] in prior + one;
      } else {
        var c :| c in prior && c.field == g;
        assert c in prior + one;
      }
    }
    forall i, j | 0 <= i < j < |prior + one| ensures (prior + one)[i].field != (prior + one)[j].field {
      assert (prior + one)[i] in prior;
    }
  }

  lemma {:induction false} CollectTells(listed: Field -> seq<FieldChange>, fields: seq<Field>)
    requires EntryPerField(listed) && Distinct(fields)
    ensures Tells(Collect(listed, fields), listed, fields)
  {
    if fields != [] {
      var k := |fields| - 1;
      CollectTells(listed, fields[..k]);
      TellsMore(Collect(listed, fields[..k]), listed, fields[..k], fields[k]);
      assert fields == fields[..k] + [fields[k]];
    }
  }

  lemma ChangesAre(before: PolicySet, after: PolicySet)
    ensures EntryPerField(Listing(before, after))
    ensures Tells(Changes(before, after), Listing(before, after), FIELDS)
  {
    CollectTells(Listing(before, after), FIELDS);
  }

  /** The difference mentions a field exactly when it shows a change. */
  lemma MentionedIff(before: PolicySet, after: PolicySet, f: Field)
    ensures Mentions(Changes(before, after), f) <==> ChangeOf(before, after, f) != []
    ensures Mentions(Changes(before, after), f) ==> Changes(before, after) != []
  {
    ChangesAre(before, after);
  }

  /** The difference lists what changed, all of it and nothing else. */
  lemma ChangesReport(before: PolicySet, after: PolicySet)
    requires PlainRegions(before) && PlainRegions(after)
    ensures Reports(Changes(before, after), before, after)
  {
    ChangesAre(before, after);
    forall f: Field ensures Mentions(Changes(before, after), f) <==> !Unchanged(before, after, f) {
      ChangeListedIff(before, after, f);
      MentionedIff(before, after, f);
    }
  }

  /** An empty difference means the five governed fields are the same, and conversely. */
  lemma EmptyDifferenceIff(before: PolicySet, after: PolicySet)
    requires PlainRegions(before) && PlainRegions(after)
    ensures Changes(before, after) == [] <==> forall f: Field :: Unchanged(before, after, f)
  {
    ChangesReport(before, after);
    NothingMentioned(Changes(before, after));
  }

  /** Without plain names an empty difference can hide a change of regions, and nothing but that. */
  lemma EmptyDifferenceHidesOnlyRegions(before: PolicySet, after: PolicySet)
    ensures Changes(before, after) == [] <==>
            (forall f: Field :: f != AllowedRegions ==> Unchanged(before, after, f))
                && Render(before.allowedRegions) == Render(after.allowedRegions)
  {
    forall f: Field ensures f != AllowedRegions ==>
        (Unchanged(before, after, f) <==> ChangeOf(before, after, f) == []) {
      if f != AllowedRegions { ChangeListedIff(before.(allowedRegions := {}), after.(allowedRegions := {}), f); }
    }
    forall f: Field ensures Mentions(Changes(before, after), f)
        <==> ChangeOf(before, after, f) != [] { MentionedIff(before, after, f); }
    NothingMentioned(Changes(before, after));
    assert ChangeOf(before, after, AllowedRegions) == []
        <==> Render(before.allowedRegions) == Render(after.allowedRegions);
  }

  lemma NothingMentioned(changes: seq<FieldChange>)
    ensures changes == [] <==> forall f: Field :: !Mentions(changes, f)
  {
    if changes != [] { assert Mentions(changes, changes[0].field); }
  }
}
