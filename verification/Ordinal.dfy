/** StringComparer.Ordinal: strings compared character by character. */
module Ordinal {

  predicate Le(a: string, b: string) {
    a == "" || (b != "" && (a[0] < b[0] || (a[0] == b[0] && Le(a[1..], b[1..]))))
  }

  lemma {:induction false} Total(a: string, b: string)
    ensures Le(a, b) || Le(b, a)
  {
    if a != "" && b != "" && a[0] == b[0] { Total(a[1..], b[1..]); }
  }

  lemma {:induction false} Transitive(a: string, b: string, c: string)
    requires Le(a, b) && Le(b, c)
    ensures Le(a, c)
  {
    if a != "" && a[0] == b[0] == c[0] { Transitive(a[1..], b[1..], c[1..]); }
  }

  lemma {:induction false} Antisymmetric(a: string, b: string)
    requires Le(a, b) && Le(b, a)
    ensures a == b
  {
    if a != "" && b != "" {
      Antisymmetric(a[1..], b[1..]);
      assert a == [a[0]] + a[1..] && b == [b[0]] + b[1..];
    }
  }

  /** Ordinal comparison is a total order on strings. */
  lemma TotalOrder()
    ensures forall a, b :: Le(a, b) || Le(b, a)
    ensures forall a, b, c :: Le(a, b) && Le(b, c) ==> Le(a, c)
    ensures forall a, b :: Le(a, b) && Le(b, a) ==> a == b
  {
    forall a, b ensures Le(a, b) || Le(b, a) { Total(a, b); }
    forall a, b, c | Le(a, b) && Le(b, c) ensures Le(a, c) { Transitive(a, b, c); }
    forall a, b | Le(a, b) && Le(b, a) ensures a == b { Antisymmetric(a, b); }
  }

  predicate IsLeast(m: string, s: set<string>) { m in s && forall x :: x in s ==> Le(m, x) }

  lemma {:induction false} LeastExists(s: set<string>)
    requires s != {}
    ensures exists m :: IsLeast(m, s)
    ensures forall m, n :: IsLeast(m, s) && IsLeast(n, s) ==> m == n
  {
    TotalOrder();
    var y :| y in s;
    var rest := s - {y};
    if rest == {} {
      assert s == {y};
      assert IsLeast(y, s);
    } else {
      LeastExists(rest);
      var m :| IsLeast(m, rest);
      assert IsLeast(if Le(m, y) then m else y, s);
    }
  }

  /** The elements of a set of names in ordinal order. */
  function InOrder(s: set<string>): (r: seq<string>)
    ensures |r| == |s| && forall x :: x in r <==> x in s
  {
    if s == {} then [] else
      LeastExists(s);
      var m :| IsLeast(m, s);
      [m] + InOrder(s - {m})
  }

  /** The first of the ordered names is the least, and the others follow in order. */
  lemma InOrderHead(s: set<string>, m: string)
    requires IsLeast(m, s)
    ensures InOrder(s) == [m] + InOrder(s - {m})
  {
    LeastExists(s);
  }

  ghost predicate Rising(r: seq<string>) { forall i, j :: 0 <= i < j < |r| ==> r[i] != r[j] && Le(r[i], r[j]) }

  lemma {:induction false} InOrderRises(s: set<string>)
    ensures Rising(InOrder(s))
    decreases |s|
  {
    if s != {} {
      LeastExists(s);
      var m :| IsLeast(m, s);
      InOrderHead(s, m);
      InOrderRises(s - {m});
      var rest := InOrder(s - {m});
      forall j | 0 <= j < |rest| ensures rest[j] != m && Le(m, rest[j]) { assert rest[j] in s - {m}; }
    }
  }

  lemma InOrderOne(a: string)
    ensures InOrder({a}) == [a]
  {
    TotalOrder();
    InOrderHead({a}, a);
    assert {a} - {a} == {};
  }

  lemma InOrderPair(a: string, b: string)
    requires a != b && Le(a, b)
    ensures InOrder({a, b}) == [a, b]
  {
    TotalOrder();
    InOrderHead({a, b}, a);
    assert {a, b} - {a} == {b};
    InOrderOne(b);
  }

  lemma {:induction false} LeExtends(a: string, b: string, c: string)
    requires Le(a, b)
    ensures Le(a, b + c)
  {
    if a != "" && a[0] == b[0] {
      LeExtends(a[1..], b[1..], c);
      assert (b + c)[1..] == b[1..] + c;
    }
  }
}
