/**
 The canonical form of an evidence packet as text: a run of length-prefixed records
 `len:label=len:value\n`. A parser recovers the exact records, and accepts nothing else.
 */
module CanonicalText {
  import opened Prelude
  import opened Numerals

  /** One labelled, typed value. */
  datatype Record = Record(name: string, typed: string)

  function Sized(s: string): string { Digits(|s|) + ":" + s }

  function Emit(r: Record): string {
    Sized(r.name) + "=" + Sized(r.typed) + "\n"
  }

  function EmitAll(rs: seq<Record>): string {
    if rs == [] then "" else Emit(rs[0]) + EmitAll(rs[1..])
  }

  lemma EmitAllCons(r: Record, rs: seq<Record>)
    ensures EmitAll([r] + rs) == Emit(r) + EmitAll(rs)
  {
    assert ([r] + rs)[1..] == rs;
  }

  /** Emitting records one run after another is emitting them all. */
  lemma {:induction false} EmitAllConcat(a: seq<Record>, b: seq<Record>)
    ensures EmitAll(a + b) == EmitAll(a) + EmitAll(b)
  {
    if a == [] {
      assert a + b == b;
    } else {
      var rest := a[1..] + b;
      assert a + b == [a[0]] + rest && a == [a[0]] + a[1..];
      EmitAllCons(a[0], rest);
      EmitAllCons(a[0], a[1..]);
      EmitAllConcat(a[1..], b);
      Associate(Emit(a[0]), EmitAll(a[1..]), EmitAll(b));
    }
  }

  // ---- The parser ----

  /** Reads `len:body` and returns the body and what follows it. */
  function ParseSized(s: string): Option<(string, string)> {
    var k := LeadingDigits(s);
    if k == 0 || k == |s| || s[k] != ':' || Digits(Value(s[..k])) != s[..k] then None else
      var n := Value(s[..k]);
      var body := s[k + 1..];
      if n > |body| then None else Some((body[..n], body[n..]))
  }

  /** Consumes one expected character. */
  function Expect(c: char, s: string): Option<string> {
    if s == "" || s[0] != c then None else Some(s[1..])
  }

  function ParseRecord(s: string): Option<(Record, string)> {
    match ParseSized(s)
    case None => None
    case Some((name, afterLabel)) =>
      match Expect('=', afterLabel)
      case None => None
      case Some(value) =>
        match ParseSized(value)
        case None => None
        case Some((typed, afterValue)) =>
          match Expect('\n', afterValue)
          case None => None
          case Some(rest) => Some((Record(name, typed), rest))
  }

  lemma SizedParses(body: string, rest: string)
    ensures ParseSized(Sized(body) + rest) == Some((body, rest))
  {
    var d := Digits(|body|);
    var s := Sized(body) + rest;
    ValueOfDigits(|body|);
    assert s == d + (":" + body + rest);
    LeadingDigitsOf(d, ":" + body + rest);
    assert s[..|d|] == d && s[|d| + 1..] == body + rest;
  }

  lemma ParsedSized(s: string)
    requires ParseSized(s).Some?
    ensures var (body, rest) := ParseSized(s).value; s == Sized(body) + rest
  {
    var k := LeadingDigits(s);
    var (body, rest) := ParseSized(s).value;
    assert |body| == Value(s[..k]);
    assert s == s[..k] + ":" + s[k + 1..];
    assert s[k + 1..] == body + rest;
  }

  /** The four pieces of a record, however they are grouped. */
  lemma Grouped(a: string, b: string, rest: string)
    ensures (a + "=" + b + "\n") + rest == a + ("=" + (b + ("\n" + rest)))
  {
  }

  lemma ExpectHead(c: char, s: string)
    requires Expect(c, s).Some?
    ensures s == [c] + Expect(c, s).value
  {
  }

  lemma RecordParses(r: Record, rest: string)
    ensures ParseRecord(Emit(r) + rest) == Some((r, rest))
  {
    Grouped(Sized(r.name), Sized(r.typed), rest);
    var afterValue := "\n" + rest;
    var value := Sized(r.typed) + afterValue;
    var afterLabel := "=" + value;
    SizedParses(r.name, afterLabel);
    assert Expect('=', afterLabel) == Some(value);
    SizedParses(r.typed, afterValue);
    assert Expect('\n', afterValue) == Some(rest);
  }

  lemma ParsedRecord(s: string)
    requires ParseRecord(s).Some?
    ensures var (r, rest) := ParseRecord(s).value; s == Emit(r) + rest && |rest| < |s|
  {
    var (r, rest) := ParseRecord(s).value;
    ParsedSized(s);
    var afterLabel := ParseSized(s).value.1;
    ExpectHead('=', afterLabel);
    var value := Expect('=', afterLabel).value;
    ParsedSized(value);
    var afterValue := ParseSized(value).value.1;
    ExpectHead('\n', afterValue);
    Assembled(s, Sized(r.name), afterLabel, value, Sized(r.typed), afterValue, rest);
  }

  lemma Assembled(s: string, a: string, afterLabel: string, value: string, b: string, afterValue: string, rest: string)
    requires s == a + afterLabel && afterLabel == "=" + value && value == b + afterValue && afterValue == "\n" + rest
    ensures s == (a + "=" + b + "\n") + rest && |rest| < |s|
  {
    Grouped(a, b, rest);
  }

  function Parse(s: string): Option<seq<Record>>
    decreases |s|
  {
    if s == "" then Some([]) else
      match ParseRecord(s)
      case None => None
      case Some((r, rest)) =>
        ParsedRecord(s);
        match Parse(rest)
        case None => None
        case Some(rs) => Some([r] + rs)
  }

  lemma ParseNext(s: string, r: Record, rest: string)
    requires ParseRecord(s) == Some((r, rest)) && Parse(rest).Some?
    ensures Parse(s) == Some([r] + Parse(rest).value)
  {
  }

  /** The parser undoes the printer on every record list. */
  lemma {:induction false} ParseUndoesEmit(rs: seq<Record>)
    ensures Parse(EmitAll(rs)) == Some(rs)
  {
    if rs != [] {
      RecordParses(rs[0], EmitAll(rs[1..]));
      ParseUndoesEmit(rs[1..]);
      ParseNext(EmitAll(rs), rs[0], EmitAll(rs[1..]));
      assert rs == [rs[0]] + rs[1..];
    }
  }

  /** The parser accepts only text the printer produces. */
  lemma {:induction false} EmitUndoesParse(s: string)
    requires Parse(s).Some?
    ensures EmitAll(Parse(s).value) == s
    decreases |s|
  {
    if s != "" {
      ParsedRecord(s);
      EmitUndoesParse(ParseRecord(s).value.1);
      assert Parse(s).value[1..] == Parse(ParseRecord(s).value.1).value;
    }
  }

  /** Equal text means equal records. */
  lemma EmitAllInjective(a: seq<Record>, b: seq<Record>)
    requires EmitAll(a) == EmitAll(b)
    ensures a == b
  {
    ParseUndoesEmit(a);
    ParseUndoesEmit(b);
  }

  /** One record as text: lengths of label and typed value before each, and a line end. */
  lemma EmitExample()
    ensures Emit(Record("a", "str:b")) == "1:a=5:str:b\n"
    ensures Emit(Record("ceiling", "null:")) == "7:ceiling=5:null:\n"
  {
    assert Digits(1) == "1" && Digits(5) == "5" && Digits(7) == "7";
  }
}
