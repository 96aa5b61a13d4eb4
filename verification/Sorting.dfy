/** LINQ's OrderBy/ThenBy: a stable sort, and what makes its result independent of input order. */
module Sorting {
  import opened Prelude

  ghost predicate TotalPreorder<T(!new)>(le: (T, T) -> bool) {
    && (forall a, b :: le(a, b) || le(b, a))
    && (forall a, b, c :: le(a, b) && le(b, c) ==> le(a, c))
  }

  /** No two different elements of `s` tie. */
  ghost predicate NoTies<T(!new)>(le: (T, T) -> bool, s: seq<T>) {
    forall x, y :: x in s && y in s && le(x, y) && le(y, x) ==> x == y
  }

  ghost predicate Sorted<T>(le: (T, T) -> bool, s: seq<T>) {
    forall i, j :: 0 <= i < j < |s| ==> le(s[i], s[j])
  }

  function Insert<T>(le: (T, T) -> bool, x: T, s: seq<T>): seq<T> {
    if s == [] || le(x, s[0]) then [x] + s else [s[0]] + Insert(le, x, s[1..])
  }

  function Sort<T>(le: (T, T) -> bool, s: seq<T>): seq<T> {
    if s == [] then [] else Insert(le, s[0], Sort(le, s[1..]))
  }

  lemma {:induction false} InsertPermutes<T>(le: (T, T) -> bool, x: T, s: seq<T>)
    ensures multiset(Insert(le, x, s)) == multiset(s) + multiset{x}
  {
    if s != [] && !le(x, s[0]) {
      InsertPermutes(le, x, s[1..]);
      assert s == [s[0]] + s[1..];
    }
  }

  lemma {:induction false} SortPermutes<T>(le: (T, T) -> bool, s: seq<T>)
    ensures multiset(Sort(le, s)) == multiset(s)
    ensures |Sort(le, s)| == |s|
    ensures forall x :: x in Sort(le, s) <==> x in s
  {
    if s != [] {
      SortPermutes(le, s[1..]);
      InsertPermutes(le, s[0], Sort(le, s[1..]));
      assert s == [s[0]] + s[1..];
    }
    PermutationElements(Sort(le, s), s);
  }

  lemma {:induction false} InsertSorted<T(!new)>(le: (T, T) -> bool, x: T, s: seq<T>)
    requires TotalPreorder(le) && Sorted(le, s)
    ensures Sorted(le, Insert(le, x, s))
  {
    if s != [] && !le(x, s[0]) {
      var rest := Insert(le, x, s[1..]);
      InsertSorted(le, x, s[1..]);
      InsertPermutes(le, x, s[1..]);
      forall y | y in rest ensures le(s[0], y) {
        assert y in multiset(rest);
        assert y == x || y in multiset(s[1..]);
      }
      assert forall j :: 0 <= j < |rest| ==> rest[j] in rest;
    }
  }

  lemma {:induction false} SortSorted<T(!new)>(le: (T, T) -> bool, s: seq<T>)
    requires TotalPreorder(le)
    ensures Sorted(le, Sort(le, s))
  {
    if s != [] {
      SortSorted(le, s[1..]);
      InsertSorted(le, s[0], Sort(le, s[1..]));
    }
  }

  lemma SortedHeadsAgree<T(!new)>(le: (T, T) -> bool, a: seq<T>, b: seq<T>)
    requires Sorted(le, a) && Sorted(le, b) && NoTies(le, a)
    requires multiset(a) == multiset(b) && a != []
    ensures b != [] && a[0] == b[0]
  {
    PermutationElements(a, b);
    assert a[0] in b && b[0] in a;
    var i :| 0 <= i < |b| && b[i] == a[0];
    var j :| 0 <= j < |a| && a[j] == b[0];
    assert i == 0 || j == 0 || (le(a[0], a[j]) && le(b[0], b[i]));
  }

  lemma TailsAgree<T>(a: seq<T>, b: seq<T>)
    requires a != [] && b != [] && a[0] == b[0] && multiset(a) == multiset(b)
    ensures multiset(a[1..]) == multiset(b[1..])
  {
    MultisetTail(a);
    MultisetTail(b);
    var x, s, t := multiset{a[0]}, multiset(a[1..]), multiset(b[1..]);
    assert s == (x + s) - x && t == (x + t) - x;
  }

  /** A sorted arrangement without ties is the only one. */
  lemma {:induction false} SortedUnique<T(!new)>(le: (T, T) -> bool, a: seq<T>, b: seq<T>)
    requires Sorted(le, a) && Sorted(le, b) && NoTies(le, a)
    requires multiset(a) == multiset(b)
    ensures a == b
  {
    if a == [] {
      PermutationElements(a, b);
    } else {
      SortedHeadsAgree(le, a, b);
      var s, t := a[1..], b[1..];
      TailsAgree(a, b);
      assert forall x :: x in s ==> x in a;
      SortedUnique(le, s, t);
      assert a == [a[0]] + s && b == [b[0]] + t;
    }
  }

  /** Sorting forgets the input order when no two different elements tie. */
  lemma SortForgetsOrder<T(!new)>(le: (T, T) -> bool, a: seq<T>, b: seq<T>)
    requires TotalPreorder(le) && NoTies(le, a) && multiset(a) == multiset(b)
    ensures Sort(le, a) == Sort(le, b)
  {
    SortPermutes(le, a);
    SortPermutes(le, b);
    SortSorted(le, a);
    SortSorted(le, b);
    SortedUnique(le, Sort(le, a), Sort(le, b));
  }

  lemma {:induction false} InsertStable<T(!new)>(le: (T, T) -> bool, p: T -> bool, x: T, s: seq<T>)
    requires TotalPreorder(le)
    requires forall a, b :: p(a) && p(b) ==> le(a, b)
    ensures Filter(p, Insert(le, x, s)) == Filter(p, [x] + s)
  {
    if s != [] && !le(x, s[0]) {
      InsertStable(le, p, x, s[1..]);
      assert ([x] + s)[1..] == s && ([x] + s[1..])[1..] == s[1..];
      assert ([s[0]] + Insert(le, x, s[1..]))[1..] == Insert(le, x, s[1..]);
    }
  }

  /** Stability: elements that tie with each other keep their input order. */
  lemma {:induction false} SortStable<T(!new)>(le: (T, T) -> bool, p: T -> bool, s: seq<T>)
    requires TotalPreorder(le)
    requires forall a, b :: p(a) && p(b) ==> le(a, b)
    ensures Filter(p, Sort(le, s)) == Filter(p, s)
  {
    if s != [] {
      SortStable(le, p, s[1..]);
      InsertStable(le, p, s[0], Sort(le, s[1..]));
      assert ([s[0]] + Sort(le, s[1..]))[1..] == Sort(le, s[1..]);
    }
  }

  /** The first element of a sort is below every element. */
  lemma SortHead<T(!new)>(le: (T, T) -> bool, s: seq<T>)
    requires TotalPreorder(le) && s != []
    ensures Sort(le, s) != [] && Sort(le, s)[0] in s
    ensures forall x :: x in s ==> le(Sort(le, s)[0], x)
  {
    SortPermutes(le, s);
    SortSorted(le, s);
    var t := Sort(le, s);
    assert t[0] in t;
    forall x | x in s ensures le(t[0], x) {
      assert x in t;
      var i :| 0 <= i < |t| && t[i] == x;
    }
  }

  /** Everything that ties with `x`. */
  function TieClass<T>(le: (T, T) -> bool, x: T): T -> bool { y => le(x, y) && le(y, x) }

  function Swap<T>(s: seq<T>, i: nat, j: nat): seq<T>
    requires i < |s| && j < |s|
  {
    s[i := s[j]][j := s[i]]
  }

  lemma SwapPermutes<T>(s: seq<T>, i: nat, j: nat)
    requires i < |s| && j < |s|
    ensures multiset(Swap(s, i, j)) == multiset(s)
  {
  }

  lemma SwapChangesClass<T>(p: T -> bool, s: seq<T>, i: nat, j: nat)
    requires i < j < |s| && p(s[i]) && p(s[j]) && s[i] != s[j]
    ensures Filter(p, Swap(s, i, j)) != Filter(p, s)
  {
    var t := Swap(s, i, j);
    assert s == s[..i] + s[i..] && t == s[..i] + t[i..];
    FilterConcat(p, s[..i], s[i..]);
    FilterConcat(p, s[..i], t[i..]);
    var n := |Filter(p, s[..i])|;
    assert s[i..][0] == s[i] && t[i..][0] == s[j];
    assert Filter(p, s)[n] == s[i] && Filter(p, t)[n] == s[j];
  }

  /** Exchanging two different elements that tie shows in the sorted result. */
  lemma SwapShows<T(!new)>(le: (T, T) -> bool, s: seq<T>, i: nat, j: nat)
    requires TotalPreorder(le)
    requires i < j < |s| && le(s[i], s[j]) && le(s[j], s[i]) && s[i] != s[j]
    ensures Sort(le, Swap(s, i, j)) != Sort(le, s)
  {
    var c := TieClass(le, s[i]);
    SwapChangesClass(c, s, i, j);
    SortStable(le, c, s);
    SortStable(le, c, Swap(s, i, j));
  }

  /** Sorting forgets every exchange of two elements exactly when no two different elements tie. */
  lemma SortForgetsSwapsIff<T(!new)>(le: (T, T) -> bool, s: seq<T>)
    requires TotalPreorder(le)
    ensures (forall i, j :: 0 <= i < j < |s| ==> Sort(le, Swap(s, i, j)) == Sort(le, s)) <==> NoTies(le, s)
  {
    if NoTies(le, s) {
      forall i, j | 0 <= i < j < |s| ensures Sort(le, Swap(s, i, j)) == Sort(le, s) {
        SwapPermutes(s, i, j);
        SortForgetsOrder(le, s, Swap(s, i, j));
      }
    } else {
      var x, y :| x in s && y in s && le(x, y) && le(y, x) && x != y;
      var m :| 0 <= m < |s| && s[m] == x;
      var n :| 0 <= n < |s| && s[n] == y;
      SwapShows(le, s, if m < n then m else n, if m < n then n else m);
    }
  }
}
