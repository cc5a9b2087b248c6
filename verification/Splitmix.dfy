/** The seedable generator of traces: splitmix64, whose outputs never collide. */
module Splitmix {

  const WORDS: nat := 0x1_0000_0000_0000_0000

  function Step(state: bv64): bv64 { state + 0x9E37_79B9_7F4A_7C15 }

  function Mul1(z: bv64): bv64 { z * 0xBF58_476D_1CE4_E5B9 }

  function Mul2(z: bv64): bv64 { z * 0x94D0_49BB_1331_11EB }

  function Xor30(z: bv64): bv64 { z ^ (z >> 30) }

  function Xor27(z: bv64): bv64 { z ^ (z >> 27) }

  function Xor31(z: bv64): bv64 { z ^ (z >> 31) }

  /** The finalizer: what one state is turned into. */
  function Mix(state: bv64): bv64 {
    Xor31(Mul2(Xor27(Mul1(Xor30(state)))))
  }

  /** The generator. `seed` and `drawn` say which output of which seed comes next. */
  class Rng {
    var state: bv64
    ghost const seed: bv64
    ghost var drawn: nat

    ghost predicate Valid()
      reads this
    {
      state == StateAfter(seed, drawn)
    }

    constructor (seed: bv64)
      ensures Valid() && state == seed && this.seed == seed && drawn == 0
    {
      state, drawn := seed, 0;
      this.seed := seed;
    }

    method NextU64() returns (r: bv64)
      requires Valid()
      modifies this
      ensures Valid() && drawn == old(drawn) + 1 && r == Output(seed, drawn)
    {
      hide Step, Mul1, Mul2, Xor30, Xor27, Xor31;
      drawn := drawn + 1;
      state := Step(state);
      var z := state;
      z := Mul1(Xor30(z));
      z := Mul2(Xor27(z));
      r := Xor31(z);
    }
  }

  function StateAfter(seed: bv64, k: nat): bv64 {
    if k == 0 then seed else Step(StateAfter(seed, k - 1))
  }

  /** The `k`-th output of a generator seeded with `seed`. */
  function Output(seed: bv64, k: nat): bv64 {
    Mix(StateAfter(seed, k))
  }

  /** The generator's published outputs for seed 0. */
  lemma FirstOutputs()
    ensures Output(0, 1) == 0xE220_A839_7B1D_CDAF && Output(0, 2) == 0x6E78_9E6A_A1B9_65F4
  {
    assert StateAfter(0, 1) == 0x9E37_79B9_7F4A_7C15;
    assert StateAfter(0, 2) == 0x3C6E_F372_FE94_F82A;
  }

  // ---------------------------------------------------------------------------------------
  // The finalizer is a bijection
  // ---------------------------------------------------------------------------------------

  function Unmul1(z: bv64): bv64 { z * 0x96DE_1B17_3F11_9089 }

  function Unmul2(z: bv64): bv64 { z * 0x3196_42B2_D24D_8EC3 }

  function Unxor30(y: bv64): bv64 { y ^ (y >> 30) ^ (y >> 60) }

  function Unxor27(y: bv64): bv64 { y ^ (y >> 27) ^ (y >> 54) }

  function Unxor31(y: bv64): bv64 { y ^ (y >> 31) ^ (y >> 62) }

  function Unmix(out: bv64): bv64 {
    Unxor30(Unmul1(Unxor27(Unmul2(Unxor31(out)))))
  }

  /** The xorshift stages undo, and are undone by, their inverses. */
  lemma ShiftStages(x: bv64)
    ensures Unxor30(Xor30(x)) == x && Xor30(Unxor30(x)) == x
    ensures Unxor27(Xor27(x)) == x && Xor27(Unxor27(x)) == x
    ensures Unxor31(Xor31(x)) == x && Xor31(Unxor31(x)) == x
  {
    hide Xor30, Xor27, Xor31, Unxor30, Unxor27, Unxor31;
    Stage30(x);
    Unstage30(x);
    Stage27(x);
    Unstage27(x);
    Stage31(x);
    Unstage31(x);
  }

  lemma Shifts30(x: bv64)
    ensures Unxor30(x ^ (x >> 30)) == x && Xor30(x ^ (x >> 30) ^ (x >> 60)) == x
  {
  }

  lemma Stage30(x: bv64)
    ensures Unxor30(Xor30(x)) == x
  {
    hide Unxor30;
    Shifts30(x);
  }

  lemma Unstage30(x: bv64)
    ensures Xor30(Unxor30(x)) == x
  {
    hide Xor30;
    Shifts30(x);
  }

  lemma Shifts27(x: bv64)
    ensures Unxor27(x ^ (x >> 27)) == x && Xor27(x ^ (x >> 27) ^ (x >> 54)) == x
  {
  }

  lemma Stage27(x: bv64)
    ensures Unxor27(Xor27(x)) == x
  {
    hide Unxor27;
    Shifts27(x);
  }

  lemma Unstage27(x: bv64)
    ensures Xor27(Unxor27(x)) == x
  {
    hide Xor27;
    Shifts27(x);
  }

  lemma Shifts31(x: bv64)
    ensures Unxor31(x ^ (x >> 31)) == x && Xor31(x ^ (x >> 31) ^ (x >> 62)) == x
  {
  }

  lemma Stage31(x: bv64)
    ensures Unxor31(Xor31(x)) == x
  {
    hide Unxor31;
    Shifts31(x);
  }

  lemma Unstage31(x: bv64)
    ensures Xor31(Unxor31(x)) == x
  {
    hide Xor31;
    Shifts31(x);
  }

  lemma Products(x: bv64)
    ensures Unmul1(x * 0xBF58_476D_1CE4_E5B9) == x && Mul1(x * 0x96DE_1B17_3F11_9089) == x
    ensures Unmul2(x * 0x94D0_49BB_1331_11EB) == x && Mul2(x * 0x3196_42B2_D24D_8EC3) == x
  {
  }

  /** So do the multiplications: the multipliers are odd. */
  lemma Mul1Stage(x: bv64)
    ensures Unmul1(Mul1(x)) == x
  {
    hide Unmul1, Mul2, Unmul2;
    Products(x);
  }

  lemma Unmul1Stage(x: bv64)
    ensures Mul1(Unmul1(x)) == x
  {
    hide Mul1, Mul2, Unmul2;
    Products(x);
  }

  lemma Mul2Stage(x: bv64)
    ensures Unmul2(Mul2(x)) == x
  {
    hide Unmul2, Mul1, Unmul1;
    Products(x);
  }

  lemma Unmul2Stage(x: bv64)
    ensures Mul2(Unmul2(x)) == x
  {
    hide Mul2, Mul1, Unmul1;
    Products(x);
  }

  /** The finalizer loses nothing: every word has one state that mixes to it. */
  lemma MixIsBijective(x: bv64)
    ensures Unmix(Mix(x)) == x && Mix(Unmix(x)) == x
  {
    hide Mul1, Mul2, Xor30, Xor27, Xor31, Unmul1, Unmul2, Unxor30, Unxor27, Unxor31;
    ShiftStages(x);
    Mul1Stage(Xor30(x));
    ShiftStages(Mul1(Xor30(x)));
    Mul2Stage(Xor27(Mul1(Xor30(x))));
    ShiftStages(Mul2(Xor27(Mul1(Xor30(x)))));
    Unmul2Stage(Unxor31(x));
    ShiftStages(Unmul2(Unxor31(x)));
    Unmul1Stage(Unxor27(Unmul2(Unxor31(x))));
    ShiftStages(Unmul1(Unxor27(Unmul2(Unxor31(x)))));
  }

  // ---------------------------------------------------------------------------------------
  // No collisions
  // ---------------------------------------------------------------------------------------

  /** `k` as a 64-bit word, wrapping. */
  function Word(k: nat): bv64 {
    if k == 0 then 0 else Next(Word(k - 1))
  }

  function Next(w: bv64): bv64 { w + 1 }

  /** The 16 bits of `w` from bit `at` up. */
  function Limb(w: bv64, at: nat): bv16
    requires at <= 48
  {
    ((w >> at) & 0xFFFF) as bv16
  }

  function Lo(b: bv16): bv8 { (b & 0xFF) as bv8 }

  function Hi(b: bv16): bv8 { (b >> 8) as bv8 }

  function Value16(b: bv16): nat { Lo(b) as nat + 0x100 * (Hi(b) as nat) }

  /** The number a word stands for. */
  function Value(w: bv64): nat {
    Value16(Limb(w, 0)) + 0x1_0000 * (Value16(Limb(w, 16)) + 0x1_0000 * (Value16(Limb(w, 32)) + 0x1_0000 * Value16(Limb(w, 48))))
  }

  lemma ByteSuccessor(b: bv8)
    ensures (b + 1) as nat == if b == 0xFF then 0 else b as nat + 1
    ensures b as nat <= 0xFF && (b != 0xFF ==> b as nat < 0xFF)
  {
  }

  lemma HalfCarry(b: bv16)
    ensures Lo(b + 1) == Lo(b) + 1
    ensures Hi(b + 1) == if Lo(b) == 0xFF then Hi(b) + 1 else Hi(b)
    ensures b == 0xFFFF <==> Lo(b) == 0xFF && Hi(b) == 0xFF
  {
  }

  lemma LimbSuccessor(b: bv16)
    ensures Value16(b + 1) == if b == 0xFFFF then 0 else Value16(b) + 1
    ensures Value16(b) <= 0xFFFF && (b != 0xFFFF ==> Value16(b) < 0xFFFF) && (b == 0xFFFF ==> Value16(b) == 0xFFFF)
  {
    HalfCarry(b);
    ByteSuccessor(Lo(b));
    ByteSuccessor(Hi(b));
    hide Lo, Hi;
  }

  lemma LimbCarry(w: bv64)
    ensures Limb(w + 1, 0) == Limb(w, 0) + 1
    ensures Limb(w + 1, 16) == if Limb(w, 0) == 0xFFFF then Limb(w, 16) + 1 else Limb(w, 16)
    ensures Limb(w + 1, 32) == if Limb(w, 0) == 0xFFFF && Limb(w, 16) == 0xFFFF then Limb(w, 32) + 1 else Limb(w, 32)
    ensures Limb(w + 1, 48)
         == if Limb(w, 0) == 0xFFFF && Limb(w, 16) == 0xFFFF && Limb(w, 32) == 0xFFFF then Limb(w, 48) + 1 else Limb(w, 48)
  {
  }

  /** Counting up by one counts the value up by one, wrapping. */
  lemma Successor(w: bv64)
    ensures Value(Next(w)) == if Value(w) == WORDS - 1 then 0 else Value(w) + 1
    ensures Value(w) < WORDS
  {
    hide Limb, Value16;
    LimbCarry(w);
    LimbSuccessor(Limb(w, 0));
    LimbSuccessor(Limb(w, 16));
    LimbSuccessor(Limb(w, 32));
    LimbSuccessor(Limb(w, 48));
  }

  lemma {:induction false} WordValue(k: nat)
    ensures Value(Word(k)) == k % WORDS
  {
    hide Value, Next;
    if k == 0 {
      Zero();
    } else {
      WordValue(k - 1);
      Successor(Word(k - 1));
    }
  }

  lemma Zero()
    ensures Value(0) == 0
  {
  }

  /** `seed` plus `w` increments. */
  function Offset(seed: bv64, w: bv64): bv64 { seed + w * 0x9E37_79B9_7F4A_7C15 }

  lemma OffsetNext(seed: bv64, w: bv64)
    ensures Offset(seed, Next(w)) == Step(Offset(seed, w))
  {
    hide Offset, Step;
    OffsetSum(seed, w);
    assert Offset(seed, w) == seed + w * 0x9E37_79B9_7F4A_7C15 by { OffsetIs(seed, w); }
  }

  lemma OffsetIs(seed: bv64, w: bv64)
    ensures Offset(seed, w) == seed + w * 0x9E37_79B9_7F4A_7C15
  {
  }

  lemma OffsetSum(seed: bv64, w: bv64)
    ensures Offset(seed, w + 1) == Step(seed + w * 0x9E37_79B9_7F4A_7C15)
  {
  }

  lemma OffsetZero(seed: bv64)
    ensures Offset(seed, 0) == seed
  {
  }

  /** After `k` draws the state is the seed plus `k` times the increment, all modulo 2^64. */
  lemma {:induction false} StateIsLinear(seed: bv64, k: nat)
    ensures StateAfter(seed, k) == Offset(seed, Word(k))
  {
    hide Step, Offset, Next;
    if k == 0 {
      OffsetZero(seed);
    } else {
      StateIsLinear(seed, k - 1);
      OffsetNext(seed, Word(k - 1));
    }
  }

  function SeedOf(state: bv64, w: bv64): bv64 { state - w * 0x9E37_79B9_7F4A_7C15 }

  function CountOf(state: bv64, seed: bv64): bv64 { (state - seed) * 0xF1DE_83E1_9937_733D }

  lemma OffsetInverses(seed: bv64, w: bv64)
    ensures SeedOf(Offset(seed, w), w) == seed
    ensures CountOf(Offset(seed, w), seed) == w
  {
    hide SeedOf, CountOf;
    RawInverses(seed, w);
  }

  lemma RawInverses(seed: bv64, w: bv64)
    ensures SeedOf(seed + w * 0x9E37_79B9_7F4A_7C15, w) == seed
    ensures CountOf(seed + w * 0x9E37_79B9_7F4A_7C15, seed) == w
  {
  }

  /** Two different seeds differ in every output. */
  lemma SeedsNeverCollide(a: bv64, b: bv64, k: nat)
    requires a != b
    ensures Output(a, k) != Output(b, k)
  {
    hide Mix, Unmix, StateAfter, Offset, SeedOf, CountOf, Word;
    StateIsLinear(a, k);
    StateIsLinear(b, k);
    MixIsBijective(StateAfter(a, k));
    MixIsBijective(StateAfter(b, k));
    OffsetInverses(a, Word(k));
    OffsetInverses(b, Word(k));
  }

  /** One generator repeats an output exactly when its period, the whole word range, has gone by. */
  lemma FullPeriod(seed: bv64, j: nat, k: nat)
    ensures Output(seed, j) == Output(seed, k) <==> j % WORDS == k % WORDS
  {
    hide Mix, Unmix, StateAfter, Value, Offset, SeedOf, CountOf, Word;
    StateIsLinear(seed, j);
    StateIsLinear(seed, k);
    MixIsBijective(StateAfter(seed, j));
    MixIsBijective(StateAfter(seed, k));
    OffsetInverses(seed, Word(j));
    OffsetInverses(seed, Word(k));
    WordValue(j);
    WordValue(k);
    if j % WORDS == k % WORDS {
      ValueInjective(Word(j), Word(k));
    }
  }

  lemma ByteInjective(a: bv8, b: bv8)
    requires a as nat == b as nat
    ensures a == b
  {
    assert a == (a as nat) as bv8 && b == (b as nat) as bv8;
  }

  /** Two digits are told apart by the number they make. */
  lemma Digits(base: nat, la: nat, lb: nat, ha: nat, hb: nat)
    requires base == 0x100 || base == 0x1_0000
    requires la < base && lb < base && la + base * ha == lb + base * hb
    ensures la == lb && ha == hb
  {
  }

  lemma HalfInjective(a: bv16, b: bv16)
    requires Value16(a) == Value16(b)
    ensures a == b
  {
    ByteSuccessor(Lo(a));
    ByteSuccessor(Lo(b));
    Digits(0x100, Lo(a) as nat, Lo(b) as nat, Hi(a) as nat, Hi(b) as nat);
    ByteInjective(Lo(a), Lo(b));
    ByteInjective(Hi(a), Hi(b));
    BothHalves(a, b);
  }

  lemma BothHalves(a: bv16, b: bv16)
    requires Lo(a) == Lo(b) && Hi(a) == Hi(b)
    ensures a == b
  {
  }

  function V(w: bv64, at: nat): nat
    requires at <= 48
  {
    Value16(Limb(w, at))
  }

  lemma SmallLimb(w: bv64, at: nat)
    requires at <= 48
    ensures V(w, at) < 0x1_0000
  {
    LimbSuccessor(Limb(w, at));
  }

  lemma ValueDigits(a: bv64, b: bv64)
    requires Value(a) == Value(b)
    ensures V(a, 0) == V(b, 0) && V(a, 16) == V(b, 16) && V(a, 32) == V(b, 32) && V(a, 48) == V(b, 48)
  {
    hide Limb, Value16;
    SmallLimb(a, 0);
    SmallLimb(b, 0);
    SmallLimb(a, 16);
    SmallLimb(b, 16);
    SmallLimb(a, 32);
    SmallLimb(b, 32);
    Upper(a, b);
    Digits(0x1_0000, V(a, 32), V(b, 32), V(a, 48), V(b, 48));
  }

  lemma Upper(a: bv64, b: bv64)
    requires Value(a) == Value(b)
    ensures V(a, 0) == V(b, 0) && V(a, 16) == V(b, 16)
    ensures V(a, 32) + 0x1_0000 * V(a, 48) == V(b, 32) + 0x1_0000 * V(b, 48)
  {
    hide Limb, Value16;
    SmallLimb(a, 0);
    SmallLimb(b, 0);
    SmallLimb(a, 16);
    SmallLimb(b, 16);
    var ha, hb := V(a, 32) + 0x1_0000 * V(a, 48), V(b, 32) + 0x1_0000 * V(b, 48);
    Digits(0x1_0000, V(a, 0), V(b, 0), V(a, 16) + 0x1_0000 * ha, V(b, 16) + 0x1_0000 * hb);
    Digits(0x1_0000, V(a, 16), V(b, 16), ha, hb);
  }

  /** A word is its value. */
  lemma ValueInjective(a: bv64, b: bv64)
    requires Value(a) == Value(b)
    ensures a == b
  {
    ValueDigits(a, b);
    hide Limb, Value16, Value;
    HalfInjective(Limb(a, 0), Limb(b, 0));
    HalfInjective(Limb(a, 16), Limb(b, 16));
    HalfInjective(Limb(a, 32), Limb(b, 32));
    HalfInjective(Limb(a, 48), Limb(b, 48));
    AllLimbs(a, b);
  }

  lemma AllLimbs(a: bv64, b: bv64)
    requires Limb(a, 0) == Limb(b, 0) && Limb(a, 16) == Limb(b, 16) && Limb(a, 32) == Limb(b, 32) && Limb(a, 48) == Limb(b, 48)
    ensures a == b
  {
  }
}
