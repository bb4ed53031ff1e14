/**
 * RandomSimple: a xorshift generator over one 64-bit word.
 *
 * The Java `long` state is its 64-bit pattern, a `bv64`; Java's `<<` and `>>>`
 * on longs are `<<` and `>>` on bv64, and `^` is `^`. `nextLong` returns
 * the pattern; the Java caller reads it as a signed long.
 */
module Xorshift {

  /** One `nextLong` step: `x ^= x << 21; x ^= x >>> 35; x ^= x << 4`. */
  function Step(x: bv64): bv64 {
    var a := x ^ (x << 21);
    var b := a ^ (a >> 35);
    b ^ (b << 4)
  }

  /**
   * The three stages of `Step`, one per `^=` assignment, and their inverses.
   * `y ^ (y << k)` is undone by xor-ing in `y << k`, `y << 2k`, `y << 4k`, ...
   * by repeated doubling until the shift passes 63; `y ^ (y >>> 35)` undoes itself.
   */
  function MixLeft21(x: bv64): bv64 { x ^ (x << 21) }
  function MixRight35(x: bv64): bv64 { x ^ (x >> 35) }
  function MixLeft4(x: bv64): bv64 { x ^ (x << 4) }

  function UnmixLeft21(y: bv64): bv64 {
    var u := y ^ (y << 21);
    u ^ (u << 42)
  }

  function UnmixLeft4(y: bv64): bv64 {
    var t1 := y ^ (y << 4);
    var t2 := t1 ^ (t1 << 8);
    var t3 := t2 ^ (t2 << 16);
    t3 ^ (t3 << 32)
  }

  /** The inverse of `Step`: its stages undone in reverse order. */
  function Unstep(y: bv64): bv64 {
    UnmixLeft21(MixRight35(UnmixLeft4(y)))
  }

  /*
   * Each stage identity is proved by unfolding the two stage functions with the
   * lemmas below, the outer one at the inner one's body written out, so that the
   * solver meets one closed expression over a single word and simplifies it.
   */
  lemma MixLeft21Def(x: bv64)
    ensures MixLeft21(x) == x ^ (x << 21)
  {
  }

  lemma MixRight35Def(x: bv64)
    ensures MixRight35(x) == x ^ (x >> 35)
  {
  }

  lemma MixLeft4Def(x: bv64)
    ensures MixLeft4(x) == x ^ (x << 4)
  {
  }

  lemma UnmixLeft21Def(y: bv64)
    ensures UnmixLeft21(y) == (var u := y ^ (y << 21); u ^ (u << 42))
  {
  }

  lemma UnmixLeft4Def(y: bv64)
    ensures UnmixLeft4(y) ==
      (var t1 := y ^ (y << 4); var t2 := t1 ^ (t1 << 8); var t3 := t2 ^ (t2 << 16); t3 ^ (t3 << 32))
  {
  }

  /** `Step` is its three stages in order. */
  lemma StepDef(x: bv64)
    ensures Step(x) == MixLeft4(MixRight35(MixLeft21(x)))
  {
    calc {
      MixLeft4(MixRight35(MixLeft21(x)));
    ==
      MixLeft4(MixRight35(x ^ (x << 21)));
    ==
      MixLeft4((x ^ (x << 21)) ^ ((x ^ (x << 21)) >> 35));
    ==
      (var b := (x ^ (x << 21)) ^ ((x ^ (x << 21)) >> 35); b ^ (b << 4));
    ==
      Step(x);
    }
  }

  /** The first stage is a bijection: `UnmixLeft21` undoes it, and it undoes `UnmixLeft21`. */
  lemma UnmixMixLeft21(x: bv64)
    ensures UnmixLeft21(MixLeft21(x)) == x
  {
    MixLeft21Def(x);
    UnmixLeft21Def(x ^ (x << 21));
  }

  lemma MixUnmixLeft21(y: bv64)
    ensures MixLeft21(UnmixLeft21(y)) == y
  {
    UnmixLeft21Def(y);
    MixLeft21Def(var u := y ^ (y << 21); u ^ (u << 42));
  }

  /** The second stage undoes itself. */
  lemma MixRight35Involution(x: bv64)
    ensures MixRight35(MixRight35(x)) == x
  {
    MixRight35Def(x);
    MixRight35Def(x ^ (x >> 35));
  }

  /** The third stage is a bijection: `UnmixLeft4` undoes it, and it undoes `UnmixLeft4`. */
  lemma UnmixMixLeft4(x: bv64)
    ensures UnmixLeft4(MixLeft4(x)) == x
  {
    MixLeft4Def(x);
    UnmixLeft4Def(x ^ (x << 4));
  }

  lemma MixUnmixLeft4(y: bv64)
    ensures MixLeft4(UnmixLeft4(y)) == y
  {
    UnmixLeft4Def(y);
    MixLeft4Def(var t1 := y ^ (y << 4); var t2 := t1 ^ (t1 << 8); var t3 := t2 ^ (t2 << 16); t3 ^ (t3 << 32));
  }

  /** `Step` is a bijection on 64-bit words: `Unstep` undoes it... */
  lemma UnstepStep(x: bv64)
    ensures Unstep(Step(x)) == x
  {
    StepDef(x);
    var a := MixLeft21(x);
    UnmixMixLeft4(MixRight35(a));
    MixRight35Involution(a);
    UnmixMixLeft21(x);
  }

  /** ... and `Step` undoes `Unstep`. */
  lemma StepUnstep(y: bv64)
    ensures Step(Unstep(y)) == y
  {
    var c := UnmixLeft4(y);
    var b := MixRight35(c);
    StepDef(Unstep(y));
    MixUnmixLeft21(b);
    MixRight35Involution(c);
    MixUnmixLeft4(y);
  }

  /** Zero is the only fixed point of interest: a step maps 0 to 0 and nothing else to 0. */
  lemma StepZero(x: bv64)
    ensures Step(x) == 0 <==> x == 0
  {
    UnstepStep(x);
    assert Unstep(0) == 0;
  }

  /** The state after `k` calls of `nextLong` from state `s`. */
  function Iterate(s: bv64, k: nat): bv64 {
    if k == 0 then s else Step(Iterate(s, k - 1))
  }

  /** From state 0 the generator stays at 0; from any other state it never reaches 0. */
  lemma {:induction false} IterateZero(s: bv64, k: nat)
    ensures Iterate(s, k) == 0 <==> s == 0
  {
    if k > 0 {
      IterateZero(s, k - 1);
      StepZero(Iterate(s, k - 1));
    }
  }

  /** The values `k` calls of `nextLong` return after seeding with `s`, in order. */
  function Outputs(s: bv64, k: nat): (r: seq<bv64>)
    ensures |r| == k
    ensures forall i :: 0 <= i < k ==> r[i] == Iterate(s, i + 1)
  {
    if k == 0 then [] else Outputs(s, k - 1) + [Iterate(s, k)]
  }

  /** Seed 0 yields nothing but 0; every other seed yields no 0 at all. */
  lemma OutputsZero(s: bv64, k: nat)
    ensures s == 0 ==> forall i :: 0 <= i < k ==> Outputs(s, k)[i] == 0
    ensures s != 0 ==> forall i :: 0 <= i < k ==> Outputs(s, k)[i] != 0
  {
    forall i | 0 <= i < k
      ensures Outputs(s, k)[i] == 0 <==> s == 0
    {
      IterateZero(s, i + 1);
    }
  }

  /** The pattern read as an unsigned number, the reading `>>>` works on. */
  function Unsigned(x: bv64): (r: int)
    ensures 0 <= r < 0x1_0000_0000_0000_0000
  {
    x as int
  }

  function Pow2(n: nat): (r: int)
    ensures r >= 1
  {
    if n == 0 then 1 else 2 * Pow2(n - 1)
  }

  lemma {:induction false} Pow2Add(a: nat, b: nat)
    ensures Pow2(a + b) == Pow2(a) * Pow2(b)
  {
    if a > 0 {
      Pow2Add(a - 1, b);
    }
  }

  lemma {:induction false} Pow2Monotone(a: nat, b: nat)
    requires a <= b
    ensures Pow2(a) <= Pow2(b)
  {
    if a < b {
      Pow2Monotone(a, b - 1);
    }
  }

  lemma Pow2Values()
    ensures Pow2(31) == 0x8000_0000 && Pow2(64) == 0x1_0000_0000_0000_0000
  {
    assert Pow2(3) == 8 && Pow2(4) == 16;
    Pow2Add(4, 3);
    assert Pow2(7) == 0x80;
    Pow2Add(4, 4);
    assert Pow2(8) == 0x100;
    Pow2Add(8, 7);
    assert Pow2(15) == 0x8000;
    Pow2Add(8, 8);
    assert Pow2(16) == 0x1_0000;
    Pow2Add(16, 15);
    Pow2Add(16, 16);
    assert Pow2(32) == 0x1_0000_0000;
    Pow2Add(32, 32);
  }

  /** The Java `(int)` cast of a `long`: the low 32 bits, read as a signed int. */
  function IntCast(n: int): (r: int)
    ensures -0x8000_0000 <= r < 0x8000_0000
    ensures (r - n) % 0x1_0000_0000 == 0
  {
    var low := n % 0x1_0000_0000;
    if low >= 0x8000_0000 then low - 0x1_0000_0000 else low
  }

  /**
   * `(int) (x >>> (64 - bits))`. Java uses only the low six bits of a long
   * shift distance, so the distance is `(64 - bits) mod 64` for every `bits`.
   */
  function TopBits(x: bv64, bits: int): int {
    IntCast(Unsigned(x) / Pow2((64 - bits) % 64))
  }

  lemma DivBelow(u: int, d: int, b: int)
    requires 0 <= u < d * b && d >= 1
    ensures 0 <= u / d < b
  {
    var q := u / d;
    assert d * q <= u;
    assert d * q < d * b;
  }

  /** The cast leaves every value of `int` range unchanged. */
  lemma IntCastInRange(n: int)
    requires 0 <= n < 0x8000_0000
    ensures IntCast(n) == n
  {
  }

  /** The two powers a shift by `64 - bits` splits 2^64 into. */
  lemma ShiftPowers(bits: int)
    requires 1 <= bits <= 31
    ensures Pow2(64 - bits) * Pow2(bits) == 0x1_0000_0000_0000_0000
    ensures Pow2(bits) <= 0x8000_0000
  {
    Pow2Add(64 - bits, bits);
    Pow2Monotone(bits, 31);
    Pow2Values();
  }

  /**
   * For `1 <= bits <= 31`, `next(bits)` is the top `bits` bits of the state read
   * as a number, so it lies in `[0, 2^bits)`.
   */
  lemma TopBitsRange(x: bv64, bits: int)
    requires 1 <= bits <= 31
    ensures TopBits(x, bits) == Unsigned(x) / Pow2(64 - bits)
    ensures 0 <= TopBits(x, bits) < Pow2(bits)
  {
    var d := Pow2(64 - bits);
    assert (64 - bits) % 64 == 64 - bits;
    ShiftPowers(bits);
    DivBelow(Unsigned(x), d, Pow2(bits));
    IntCastInRange(Unsigned(x) / d);
  }

  class RandomSimple {
    /** The state word `x`. */
    var x: bv64
    /** The seed last given, by the constructor or by `setSeed`. */
    ghost var seed: bv64
    /** The values `nextLong` has returned since then, in order. */
    ghost var drawn: seq<bv64>

    /**
     * Determinism: the state and everything drawn since the last seeding are a
     * function of that seed and of the number of draws alone.
     */
    ghost predicate Valid()
      reads this
    {
      x == Iterate(seed, |drawn|) && drawn == Outputs(seed, |drawn|)
    }

    /** `new RandomSimple(seed)`: the state is the seed. */
    constructor(s: bv64)
      ensures Valid()
      ensures x == s && seed == s && drawn == []
    {
      x := s;
      seed := s;
      drawn := [];
    }

    /** `nextLong()`: one step of the state, which is also the result. */
    method NextLong() returns (r: bv64)
      requires Valid()
      modifies this
      ensures Valid()
      ensures r == Step(old(x)) && x == r
      ensures seed == old(seed) && drawn == old(drawn) + [r]
    {
      x := Step(x);  // the three `^=` assignments, in order
      r := x;
      drawn := drawn + [r];
    }

    /** `next(bits)`: exactly one `nextLong`, then the top bits of the new state. */
    method Next(bits: int) returns (r: int)
      requires Valid()
      modifies this
      ensures Valid()
      ensures x == Step(old(x)) && r == TopBits(x, bits)
      ensures seed == old(seed) && drawn == old(drawn) + [x]
    {
      var l := NextLong();
      r := TopBits(l, bits);
    }

    /** `setSeed(s)`: the state becomes `s`, whatever came before. */
    method SetSeed(s: bv64)
      modifies this
      ensures Valid()
      ensures x == s && seed == s && drawn == []
    {
      x := s;
      seed := s;
      drawn := [];
    }
  }
}
