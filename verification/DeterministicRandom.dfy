/** The seeded generator behind the demonstration data: xorshift64* over named streams. */
module DeterministicRandom {
  // ---- One step, and its inverse ----

  function ShiftRight12(x: bv64): bv64 { x ^ (x >> 12) }
  function ShiftLeft25(x: bv64): bv64 { x ^ (x << 25) }
  function ShiftRight27(x: bv64): bv64 { x ^ (x >> 27) }

  /** The state after one draw. */
  function Step(x: bv64): bv64 { ShiftRight27(ShiftLeft25(ShiftRight12(x))) }

  /** The raw value a state puts out. */
  function Output(x: bv64): bv64 { x * 0x2545_F491_4F6C_DD1D }

  function UnRight12(y: bv64): bv64 { y ^ (y >> 12) ^ (y >> 24) ^ (y >> 36) ^ (y >> 48) ^ (y >> 60) }
  function UnLeft25(y: bv64): bv64 { y ^ (y << 25) ^ (y << 50) }
  function UnRight27(y: bv64): bv64 { y ^ (y >> 27) ^ (y >> 54) }

  /** The state before a draw. */
  function Unstep(y: bv64): bv64 { UnRight12(UnLeft25(UnRight27(y))) }

  /** The state a raw value came from. */
  function Unoutput(y: bv64): bv64 { y * 0x5907_1D96_D81E_CD35 }

  // Each inverse is proved on the bare expression first, then carried to the named functions.

  lemma Right12Bits(x: bv64)
    ensures (x ^ (x >> 12)) ^ ((x ^ (x >> 12)) >> 12) ^ ((x ^ (x >> 12)) >> 24) ^ ((x ^ (x >> 12)) >> 36)
            ^ ((x ^ (x >> 12)) >> 48) ^ ((x ^ (x >> 12)) >> 60) == x
  {
  }

  lemma Right12At(x: bv64, y: bv64)
    requires y == x ^ (x >> 12)
    ensures UnRight12(y) == x
  {
    Right12Bits(x);
  }

  lemma Right12Inverse(x: bv64)
    ensures UnRight12(ShiftRight12(x)) == x
  {
    Right12At(x, ShiftRight12(x));
  }

  lemma Left25Bits(x: bv64)
    ensures (x ^ (x << 25)) ^ ((x ^ (x << 25)) << 25) ^ ((x ^ (x << 25)) << 50) == x
  {
  }

  lemma Left25At(x: bv64, y: bv64)
    requires y == x ^ (x << 25)
    ensures UnLeft25(y) == x
  {
    Left25Bits(x);
  }

  lemma Left25Inverse(x: bv64)
    ensures UnLeft25(ShiftLeft25(x)) == x
  {
    Left25At(x, ShiftLeft25(x));
  }

  lemma Right27Bits(x: bv64)
    ensures (x ^ (x >> 27)) ^ ((x ^ (x >> 27)) >> 27) ^ ((x ^ (x >> 27)) >> 54) == x
  {
  }

  lemma Right27At(x: bv64, y: bv64)
    requires y == x ^ (x >> 27)
    ensures UnRight27(y) == x
  {
    Right27Bits(x);
  }

  lemma Right27Inverse(x: bv64)
    ensures UnRight27(ShiftRight27(x)) == x
  {
    Right27At(x, ShiftRight27(x));
  }

  lemma Right12BackBits(y: bv64)
    ensures (y ^ (y >> 12) ^ (y >> 24) ^ (y >> 36) ^ (y >> 48) ^ (y >> 60))
            ^ ((y ^ (y >> 12) ^ (y >> 24) ^ (y >> 36) ^ (y >> 48) ^ (y >> 60)) >> 12) == y
  {
  }

  lemma Right12BackAt(y: bv64, x: bv64)
    requires x == y ^ (y >> 12) ^ (y >> 24) ^ (y >> 36) ^ (y >> 48) ^ (y >> 60)
    ensures ShiftRight12(x) == y
  {
    Right12BackBits(y);
  }

  lemma Right12Back(y: bv64)
    ensures ShiftRight12(UnRight12(y)) == y
  {
    Right12BackAt(y, UnRight12(y));
  }

  lemma Left25BackBits(y: bv64)
    ensures (y ^ (y << 25) ^ (y << 50)) ^ ((y ^ (y << 25) ^ (y << 50)) << 25) == y
  {
  }

  lemma Left25BackAt(y: bv64, x: bv64)
    requires x == y ^ (y << 25) ^ (y << 50)
    ensures ShiftLeft25(x) == y
  {
    Left25BackBits(y);
  }

  lemma Left25Back(y: bv64)
    ensures ShiftLeft25(UnLeft25(y)) == y
  {
    Left25BackAt(y, UnLeft25(y));
  }

  lemma Right27BackBits(y: bv64)
    ensures (y ^ (y >> 27) ^ (y >> 54)) ^ ((y ^ (y >> 27) ^ (y >> 54)) >> 27) == y
  {
  }

  lemma Right27BackAt(y: bv64, x: bv64)
    requires x == y ^ (y >> 27) ^ (y >> 54)
    ensures ShiftRight27(x) == y
  {
    Right27BackBits(y);
  }

  lemma Right27Back(y: bv64)
    ensures ShiftRight27(UnRight27(y)) == y
  {
    Right27BackAt(y, UnRight27(y));
  }

  lemma OutputBits(x: bv64)
    ensures (x * 0x2545_F491_4F6C_DD1D) * 0x5907_1D96_D81E_CD35 == x
    ensures (x * 0x5907_1D96_D81E_CD35) * 0x2545_F491_4F6C_DD1D == x
  {
  }

  lemma OutputAt(x: bv64, y: bv64)
    requires y == x * 0x2545_F491_4F6C_DD1D
    ensures Unoutput(y) == x
  {
    OutputBits(x);
  }

  lemma UnoutputAt(x: bv64, y: bv64)
    requires y == x * 0x5907_1D96_D81E_CD35
    ensures Output(y) == x
  {
    OutputBits(x);
  }

  /** Output is a bijection on 64-bit values. */
  lemma OutputInverse(x: bv64)
    ensures Unoutput(Output(x)) == x
    ensures Output(Unoutput(x)) == x
  {
    OutputAt(x, Output(x));
    UnoutputAt(x, Unoutput(x));
  }

  /** Step is a bijection on 64-bit values. */
  lemma StepInverse(x: bv64)
    ensures Unstep(Step(x)) == x
    ensures Step(Unstep(x)) == x
  {
    Right12Inverse(x);
    Left25Inverse(ShiftRight12(x));
    Right27Inverse(ShiftLeft25(ShiftRight12(x)));
    StepBack(x);
  }

  lemma StepBack(y: bv64)
    ensures Step(Unstep(y)) == y
  {
    Right27Back(y);
    Left25Back(UnRight27(y));
    Right12Back(UnLeft25(UnRight27(y)));
  }

  lemma StepInjective(x: bv64, y: bv64)
    requires Step(x) == Step(y)
    ensures x == y
  {
    StepInverse(x);
    StepInverse(y);
  }

  lemma OutputInjective(x: bv64, y: bv64)
    requires Output(x) == Output(y)
    ensures x == y
  {
    OutputInverse(x);
    OutputInverse(y);
  }

  lemma StepOfZero()
    ensures Step(0) == 0 && Output(0) == 0
  {
  }

  /** Zero is its own successor and nothing else's, and only zero puts out zero. */
  lemma ZeroIsIsolated(x: bv64)
    ensures Step(x) == 0 <==> x == 0
    ensures Output(x) == 0 <==> x == 0
  {
    StepOfZero();
    if Step(x) == 0 { StepInjective(x, 0); }
    if Output(x) == 0 { OutputInjective(x, 0); }
  }

  // ---- Streams ----

  const DISPLACED: bv64 := 0x9E37_79B9_7F4A_7C15

  /** The first state: a zero seed is displaced. */
  function Start(seed: bv64): bv64 { if seed == 0 then DISPLACED else seed }

  /** The state after `k` draws. */
  function Advance(state: bv64, k: nat): bv64 { if k == 0 then state else Step(Advance(state, k - 1)) }

  /** The draw numbered `k`, from zero. */
  function Draw(seed: bv64, k: nat): bv64 { Output(Advance(Start(seed), k + 1)) }

  lemma {:induction false} AdvanceInjective(x: bv64, y: bv64, k: nat)
    requires Advance(x, k) == Advance(y, k)
    ensures x == y
  {
    if k > 0 {
      StepInjective(Advance(x, k - 1), Advance(y, k - 1));
      AdvanceInjective(x, y, k - 1);
    }
  }

  lemma {:induction false} AdvanceNeverZero(x: bv64, k: nat)
    requires x != 0
    ensures Advance(x, k) != 0
  {
    if k > 0 {
      AdvanceNeverZero(x, k - 1);
      ZeroIsIsolated(Advance(x, k - 1));
    }
  }

  /** No state a generator passes through and no value it puts out is zero. */
  lemma NothingIsZero(seed: bv64, k: nat)
    ensures Advance(Start(seed), k) != 0 && Draw(seed, k) != 0
  {
    AdvanceNeverZero(Start(seed), k);
    AdvanceNeverZero(Start(seed), k + 1);
    ZeroIsIsolated(Advance(Start(seed), k + 1));
  }

  /** The two seeds that share a start: zero and the constant that displaces it. */
  predicate Displaces(a: bv64, b: bv64) { (a == 0 && b == DISPLACED) || (a == DISPLACED && b == 0) }

  /**
   Two generators agree at one draw only if they agree at all of them, and that only with the same or displaced seeds.
   */
  lemma DrawsAgreeIff(a: bv64, b: bv64, k: nat)
    ensures Draw(a, k) == Draw(b, k) <==> a == b || Displaces(a, b)
  {
    if Draw(a, k) == Draw(b, k) {
      OutputInjective(Advance(Start(a), k + 1), Advance(Start(b), k + 1));
      AdvanceInjective(Start(a), Start(b), k + 1);
    }
  }

  // ---- Named streams ----

  /** FNV-1a over UTF-16 code units, continued from `hash`. */
  function Fnv(hash: bv64, name: seq<bv16>): bv64 {
    if name == [] then hash else Mix(Fnv(hash, name[..|name| - 1]), name[|name| - 1])
  }

  function Xor(a: bv64, b: bv64): bv64 { a ^ b }

  function TimesPrime(x: bv64): bv64 { x * 0x100_0000_01B3 }

  function Widen(unit: bv16): bv64 { unit as bv64 }

  function Mix(hash: bv64, unit: bv16): bv64 { TimesPrime(Xor(hash, Widen(unit))) }

  const BASIS: bv64 := 0xCBF2_9CE4_8422_2325

  function StreamSeed(seed: bv64, name: seq<bv16>): bv64 { Xor(seed, Fnv(BASIS, name)) }

  function OverPrime(x: bv64): bv64 { x * 0xCE96_5057_AFF6_957B }

  lemma PrimeBits(x: bv64)
    ensures (x * 0x100_0000_01B3) * 0xCE96_5057_AFF6_957B == x
  {
  }

  lemma TimesPrimeAt(x: bv64, y: bv64)
    requires y == x * 0x100_0000_01B3
    ensures OverPrime(y) == x
  {
    PrimeBits(x);
  }

  lemma TimesPrimeInverse(x: bv64)
    ensures OverPrime(TimesPrime(x)) == x
  {
    TimesPrimeAt(x, TimesPrime(x));
  }

  lemma XorBits(a: bv64, b: bv64)
    ensures (a ^ b) ^ a == b && (a ^ b) ^ b == a
  {
  }

  lemma XorAt(a: bv64, b: bv64, z: bv64)
    requires z == a ^ b
    ensures Xor(z, a) == b && Xor(z, b) == a
  {
    XorBits(a, b);
  }

  lemma XorInverse(a: bv64, b: bv64)
    ensures Xor(Xor(a, b), a) == b && Xor(Xor(a, b), b) == a
  {
    XorAt(a, b, Xor(a, b));
  }

  /** Of two equal exclusive-ors, the left sides agree exactly when the right sides do. */
  lemma XorCancels(a: bv64, b: bv64, c: bv64, d: bv64)
    requires Xor(a, b) == Xor(c, d)
    ensures a == c <==> b == d
  {
    XorInverse(a, b);
    XorInverse(c, d);
  }

  lemma WidenInjective(c: bv16, d: bv16)
    requires Widen(c) == Widen(d)
    ensures c == d
  {
  }

  lemma TimesPrimeInjective(x: bv64, y: bv64)
    requires TimesPrime(x) == TimesPrime(y)
    ensures x == y
  {
    TimesPrimeInverse(x);
    TimesPrimeInverse(y);
  }

  /**
   Mixing the same unit keeps different hashes apart, and mixing different units into the same hash tells them apart.
   */
  lemma MixInjective(h: bv64, g: bv64, c: bv16, d: bv16)
    requires Mix(h, c) == Mix(g, d)
    ensures h == g <==> c == d
  {
    TimesPrimeInjective(Xor(h, Widen(c)), Xor(g, Widen(d)));
    XorCancels(h, Widen(c), g, Widen(d));
    if Widen(c) == Widen(d) { WidenInjective(c, d); }
  }

  /** The two names have one length and differ at one place. */
  ghost predicate DifferAtOne(p: seq<bv16>, q: seq<bv16>, i: nat) {
    |p| == |q| && i < |p| && p[i] != q[i] && forall k :: 0 <= k < |p| && k != i ==> p[k] == q[k]
  }

  lemma {:induction false} FnvTellsApart(hash: bv64, p: seq<bv16>, q: seq<bv16>, i: nat)
    requires DifferAtOne(p, q, i)
    ensures Fnv(hash, p) != Fnv(hash, q)
  {
    var n := |p| - 1;
    if i == n {
      assert p[..n] == q[..n];
    } else {
      FnvTellsApart(hash, p[..n], q[..n], i);
    }
    if Fnv(hash, p) == Fnv(hash, q) {
      MixInjective(Fnv(hash, p[..n]), Fnv(hash, q[..n]), p[n], q[n]);
    }
  }

  lemma SeedsApart(seed: bv64, h: bv64, g: bv64)
    requires h != g
    ensures Xor(seed, h) != Xor(seed, g)
  {
    if Xor(seed, h) == Xor(seed, g) { XorCancels(seed, h, seed, g); }
  }

  /**
   Names one character apart give streams that differ at every draw, unless one seed displaces the other; then they
   never differ.
   */
  lemma StreamsApartIff(seed: bv64, p: seq<bv16>, q: seq<bv16>, i: nat, k: nat)
    requires DifferAtOne(p, q, i)
    ensures Draw(StreamSeed(seed, p), k) != Draw(StreamSeed(seed, q), k)
            <==> !Displaces(StreamSeed(seed, p), StreamSeed(seed, q))
  {
    FnvTellsApart(BASIS, p, q, i);
    SeedsApart(seed, Fnv(BASIS, p), Fnv(BASIS, q));
    DrawsAgreeIff(StreamSeed(seed, p), StreamSeed(seed, q), k);
  }

  // ---- What a draw yields ----

  datatype Drawn<+T> = Drawn(value: T, state: bv64)

  /** Uniform in [0, max). */
  function Below(state: bv64, max: int): (d: Drawn<int>)
    requires max > 0
    ensures 0 <= d.value < max
  {
    Drawn((Output(Step(state)) as int) % max, Step(state))
  }

  /** The top fifty-three bits of a raw value (a shift by eleven), as a fraction. */
  function Fraction(raw: bv64): (x: real)
    ensures 0.0 <= x < 1.0
  {
    (raw as int / 2048) as real / 9007199254740992.0
  }

  /** Uniform in [0, 1). */
  function Unit(state: bv64): (d: Drawn<real>)
    ensures 0.0 <= d.value < 1.0
  {
    Drawn(Fraction(Output(Step(state))), Step(state))
  }

  /** Uniform in [low, high). */
  function Between(state: bv64, low: int, high: int): (d: Drawn<int>)
    requires low < high
    ensures low <= d.value < high
  {
    var d := Below(state, high - low);
    Drawn(low + d.value, d.state)
  }

  function Chance(state: bv64, probability: real): Drawn<bool> {
    var d := Unit(state);
    Drawn(d.value < probability, d.state)
  }

  function Pick<T>(state: bv64, items: seq<T>): (d: Drawn<T>)
    requires items != []
    ensures d.value in items
  {
    var d := Below(state, |items|);
    Drawn(items[d.value], d.state)
  }

  lemma Remainder(x: int, m: int) returns (times: int)
    requires m > 0
    ensures x == times * m + x % m
  {
    times := x / m;
  }

  /** A bounded draw is the next value less a multiple of the bound. */
  lemma BelowIsRemainder(state: bv64, max: int) returns (times: int)
    requires max > 0
    ensures Output(Step(state)) as int == times * max + Below(state, max).value
  {
    times := Remainder(Output(Step(state)) as int, max);
  }

  /** A fraction tells the place of the next value among all values to within one part in 2 to the 53. */
  lemma FractionTells(raw: bv64)
    ensures Fraction(raw) <= raw as int as real / 18446744073709551616.0 < Fraction(raw) + 1.0 / 9007199254740992.0
  {
    var top := raw as int / 2048;
    assert top * 2048 <= raw as int < (top + 1) * 2048;
  }

  lemma IsShiftRight12(x: bv64, y: bv64)
    requires y == x ^ (x >> 12)
    ensures y == ShiftRight12(x)
  {
  }

  lemma IsShiftLeft25(x: bv64, y: bv64)
    requires y == x ^ (x << 25)
    ensures y == ShiftLeft25(x)
  {
  }

  lemma IsShiftRight27(x: bv64, y: bv64)
    requires y == x ^ (x >> 27)
    ensures y == ShiftRight27(x)
  {
  }

  lemma IsXor(a: bv64, b: bv64, z: bv64)
    requires z == a ^ b
    ensures z == Xor(a, b)
  {
  }

  lemma IsTimesPrime(x: bv64, y: bv64)
    requires y == x * 0x100_0000_01B3
    ensures y == TimesPrime(x)
  {
  }

  /** The three shifts, in place. */
  method Xorshift(state: bv64) returns (x: bv64)
    ensures x == Step(state)
  {
    x := state;
    x := x ^ (x >> 12);
    ghost var x1 := x;
    IsShiftRight12(state, x1);
    x := x ^ (x << 25);
    ghost var x2 := x;
    IsShiftLeft25(x1, x2);
    x := x ^ (x >> 27);
    IsShiftRight27(x2, x);
  }

  class Generator {
    var state: bv64

    constructor (seed: bv64)
      ensures state == Start(seed)
    {
      state := if seed == 0 then DISPLACED else seed;
    }

    method NextUInt64() returns (r: bv64)
      modifies this
      ensures state == Step(old(state)) && r == Output(state)
    {
      state := Xorshift(state);
      r := Output(state);
    }

    method Next(max: int) returns (r: int)
      requires max > 0
      modifies this
      ensures Drawn(r, state) == Below(old(state), max)
    {
      var raw := NextUInt64();
      r := raw as int % max;
    }

    method NextBetween(low: int, high: int) returns (r: int)
      requires low < high
      modifies this
      ensures Drawn(r, state) == Between(old(state), low, high)
    {
      r := Next(high - low);
      r := low + r;
    }

    method NextBool(probability: real) returns (r: bool)
      modifies this
      ensures Drawn(r, state) == Chance(old(state), probability)
    {
      var d := NextDouble();
      r := d < probability;
    }

    method PickFrom<T>(items: seq<T>) returns (r: T)
      requires items != []
      modifies this
      ensures Drawn(r, state) == Pick(old(state), items)
    {
      var k := Next(|items|);
      r := items[k];
    }

    method NextDouble() returns (r: real)
      modifies this
      ensures Drawn(r, state) == Unit(old(state))
    {
      var raw := NextUInt64();
      r := Fraction(raw);
    }
  }

  /** The generator of a named stream. */
  method ForStream(seed: bv64, name: seq<bv16>) returns (g: Generator)
    ensures fresh(g) && g.state == Start(StreamSeed(seed, name))
  {
    var hash := BASIS;
    for k := 0 to |name|
      invariant hash == Fnv(BASIS, name[..k])
    {
      assert name[..k + 1][..k] == name[..k];
      ghost var before := hash;
      hash := hash ^ (name[k] as bv64);
      ghost var mixed := hash;
      IsXor(before, Widen(name[k]), mixed);
      hash := hash * 0x100_0000_01B3;
      IsTimesPrime(mixed, hash);
    }
    assert name[..|name|] == name;
    var derived := seed ^ hash;
    IsXor(seed, hash, derived);
    g := new Generator(derived);
  }

  // ---- Published values ----

  /** FNV-1a of the empty name, of "a" and of "ab". */
  lemma FnvVectors()
    ensures Fnv(BASIS, []) == 0xCBF2_9CE4_8422_2325
    ensures Fnv(BASIS, [0x61]) == 0xAF63_DC4C_8601_EC8C
    ensures Fnv(BASIS, [0x61, 0x62]) == 0x089C_4407_B545_986A
  {
    assert Mix(0xCBF2_9CE4_8422_2325, 0x61) == 0xAF63_DC4C_8601_EC8C;
    assert Mix(0xAF63_DC4C_8601_EC8C, 0x62) == 0x089C_4407_B545_986A;
    assert [0x61 as bv16][..0] == [] && [0x61 as bv16, 0x62][..1] == [0x61];
  }

  /** The first two states and values from the seed one. */
  lemma DrawVectors()
    ensures Step(1) == 0x200_0001 && Output(0x200_0001) == 0x47E4_CE4B_896C_DD1D && Draw(1, 0) == 0x47E4_CE4B_896C_DD1D
    ensures Step(0x200_0001) == 0x4_0040_0080_2801 && Draw(1, 1) == 0xABCF_A6A8_E079_651D
  {
  }
}
