/**
 What the .NET platform supplies: a digest of packets, letter case and white space, as functions held by a Host.
 Every result that takes a Host holds for every Host.
 */
module Platform {
  import opened Prelude
  import E = Evidence

  datatype Host = Host(digest: E.EvidencePacket -> string, upper: char -> char, isSpace: char -> bool)

  /** The platform whose digest of a packet is the hexadecimal hash of its canonical text. */
  function Hashing(sha256Hex: string -> string, upper: char -> char, isSpace: char -> bool): Host {
    Host((packet: E.EvidencePacket) => sha256Hex(E.CanonicalForm(packet)), upper, isSpace)
  }

  /** StringComparison.OrdinalIgnoreCase. */
  predicate EqualsIgnoreCase(host: Host, a: string, b: string) {
    |a| == |b| && forall i :: 0 <= i < |a| ==> host.upper(a[i]) == host.upper(b[i])
  }

  /** string.IsNullOrWhiteSpace on a non-null string. */
  predicate IsBlank(host: Host, s: string) { forall i :: 0 <= i < |s| ==> host.isSpace(s[i]) }

  predicate IsBlankOrNull(host: Host, s: Option<string>) { s.None? || IsBlank(host, s.value) }

  function Trim(host: Host, s: string): string {
    if s != "" && host.isSpace(s[0]) then Trim(host, s[1..])
    else if s != "" && host.isSpace(s[|s| - 1]) then Trim(host, s[..|s| - 1])
    else s
  }

  predicate IsSameIdentity(host: Host, left: string, right: string) {
    EqualsIgnoreCase(host, Trim(host, left), Trim(host, right))
  }

  lemma Padded(x: string, before: string, middle: string, after: string, y: string)
    ensures x + (before + middle + after) + y == (x + before) + middle + (after + y)
  {
  }

  /** Trimming removes the white space at both ends and nothing else. */
  lemma {:induction false} TrimRemovesPadding(host: Host, s: string) returns (before: string, after: string)
    ensures s == before + Trim(host, s) + after && IsBlank(host, before) && IsBlank(host, after)
    ensures Trim(host, s) != "" ==>
              !host.isSpace(Trim(host, s)[0]) && !host.isSpace(Trim(host, s)[|Trim(host, s)| - 1])
    decreases |s|
  {
    before, after := "", "";
    if s != "" && host.isSpace(s[0]) {
      var b, a := TrimRemovesPadding(host, s[1..]);
      before, after := [s[0]] + b, a;
      Padded([s[0]], b, Trim(host, s[1..]), a, "");
      assert s == [s[0]] + s[1..] + "";
    } else if s != "" && host.isSpace(s[|s| - 1]) {
      var b, a := TrimRemovesPadding(host, s[..|s| - 1]);
      before, after := b, a + [s[|s| - 1]];
      Padded("", b, Trim(host, s[..|s| - 1]), a, [s[|s| - 1]]);
      assert s == "" + s[..|s| - 1] + [s[|s| - 1]];
    }
  }

  lemma {:induction false} BlankIff(host: Host, s: string)
    ensures IsBlank(host, s) <==> Trim(host, s) == ""
    ensures IsBlank(host, s) <==> forall c :: c in s ==> host.isSpace(c)
  {
    var before, after := TrimRemovesPadding(host, s);
    var t := Trim(host, s);
    if t != "" { assert t[0] == s[|before|]; }
    if t == "" { assert s == before + after; }
  }

  /** Identities are the same exactly when, without padding, they agree letter for letter but for case. */
  lemma SameIdentityIff(host: Host, left: string, right: string)
    ensures IsSameIdentity(host, left, right) <==>
            && |Trim(host, left)| == |Trim(host, right)|
            && forall i :: 0 <= i < |Trim(host, left)| ==>
                host.upper(Trim(host, left)[i]) == host.upper(Trim(host, right)[i])
  {
  }

  /**
   A platform on which every packet has one digest, letters are their own capitals, and only the blank is white space.
   */
  function PlainHost(): Host { Host((packet: E.EvidencePacket) => "00", (c: char) => c, (c: char) => c == ' ') }
}
