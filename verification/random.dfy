/** The engine's pseudo-random generator: xoroshiro128+ over two 64-bit
    words, seeded with a multiplier from L'Ecuyer's tables, with bounded
    draws taken from the high bits of each output.  The generator is a value;
    every draw returns the number drawn and the state that follows. */
module Xoroshiro {

  /** Multiplier of the linear congruential seeding (L'Ecuyer). */
  const Multiplier: bv64 := 1181783497276652981

  const Two16: nat := 0x1_0000
  const Two24: nat := 0x100_0000
  const Two32: nat := 0x1_0000_0000
  const Two40: nat := 0x100_0000_0000
  const Two48: nat := 0x1_0000_0000_0000
  const Two64: nat := 0x1_0000_0000_0000_0000

  /** The generator state: two 64-bit words. */
  datatype Rng = Rng(s0: bv64, s1: bv64)

  const Zero := Rng(0, 0)

  /** A value drawn from the generator and the state after the draw. */
  datatype Draw<T> = Draw(value: T, next: Rng)

  /** The state transition of xoroshiro128+: left rotations by 55 and 36
      bits and a left shift by 14.  The all-zero state is the only state
      that steps to the all-zero state. */
  function Step(r: Rng): (n: Rng)
    ensures n == Zero <==> r == Zero
  {
    var t := r.s0 ^ r.s1;
    RotlZero36(t);
    RotlZero55(r.s0);
    Rng(r.s0.RotateLeft(55) ^ t ^ (t << 14), t.RotateLeft(36))
  }

  /** One 64-bit output: the wrapping sum of the two words before the step,
      and the state after the step.  The all-zero state outputs zero. */
  function Gen(r: Rng): Draw<bv64> {
    Draw(r.s0 + r.s1, Step(r))
  }

  /** The state after n outputs. */
  function Iterate(r: Rng, n: nat): Rng
    decreases n
  {
    if n == 0 then r else Iterate(Step(r), n - 1)
  }

  /** Seeding: the first word is the seed times the multiplier and the
      second is the first word times the multiplier, both modulo 2^64. */
  function Seed(seed: bv64): (r: Rng)
    ensures r == Zero <==> seed == 0
    ensures seed != 0 ==> r.s0 != 0 && r.s1 != 0
  {
    var s0 := Multiplier * seed;
    MultiplierKeepsNonZero(seed);
    MultiplierKeepsNonZero(s0);
    Rng(s0, Multiplier * s0)
  }

  /** The multiplier is odd, so multiplying by it modulo 2^64 maps only
      zero to zero. */
  lemma MultiplierKeepsNonZero(x: bv64)
    ensures Multiplier * x == 0 <==> x == 0
  {
  }

  /** The top 32 bits of one output. */
  function RandUint32(r: Rng): (d: Draw<bv32>)
    ensures (d.value as bv64) << 32 == Gen(r).value & 0xFFFF_FFFF_0000_0000
    ensures d.next == Step(r)
  {
    var g := Gen(r);
    Draw((g.value >> 32) as bv32, g.next)
  }

  /** The 32-bit draw at position k of the stream that starts at r. */
  function Word(r: Rng, k: nat): bv32 {
    RandUint32(Iterate(r, k)).value
  }

  /** Unsigned 64-bit multiplication: the product modulo 2^64. */
  function Mul64(a: nat, b: nat): nat {
    (a * b) % Two64
  }

  /** A draw below max from the top 16 bits of one output, scaled by
      multiplication and truncated to 16 bits. */
  function RandUint16(r: Rng, max: nat): (d: Draw<nat>)
    requires max < Two16
    ensures d.next == Step(r)
    ensures max > 0 ==> d.value < max
    ensures max == 0 ==> d.value == 0
  {
    var g := Gen(r);
    var high := g.value as int / Two48;
    ScaledBelow(high, max, Two16);
    NoWrap(high, max, Two16, Two16);
    Draw((Mul64(high, max) / Two16) % Two16, g.next)
  }

  /** A draw below max from the top 32 bits of one output, scaled by a
      64-bit multiplication. */
  function RandUint32Below(r: Rng, max: nat): (d: Draw<nat>)
    requires max < Two32
    ensures d.next == Step(r)
    ensures max > 0 ==> d.value < max
    ensures max == 0 ==> d.value == 0
  {
    var g := Gen(r);
    var high := g.value as int / Two32;
    ScaledBelow(high, max, Two32);
    NoWrap(high, max, Two32, Two32);
    Draw((Mul64(high, max) / Two32) % Two32, g.next)
  }

  /** The integer behind a float draw: the top 24 bits of one output. */
  function FloatNumerator(r: Rng): (d: Draw<nat>)
    ensures d.value < Two24
    ensures d.next == Step(r)
  {
    var g := Gen(r);
    Draw(g.value as int / Two40, g.next)
  }

  /** Scaling a value below m by max and dividing by m lands below max. */
  lemma ScaledBelow(high: nat, max: nat, m: nat)
    requires high < m
    ensures max > 0 ==> high * max / m < max
    ensures max == 0 ==> high * max / m == 0
  {
    if max > 0 {
      assert high * max < m * max;
    }
  }

  /** A product of two factors below 2^32 does not wrap in 64 bits. */
  lemma NoWrap(a: nat, b: nat, ma: nat, mb: nat)
    requires a < ma && b < mb && ma * mb <= Two64
    ensures Mul64(a, b) == a * b
  {
    assert a * b <= a * mb;
    assert a * mb < ma * mb;
  }

  lemma RotlZero36(x: bv64)
    ensures x.RotateLeft(36) == 0 <==> x == 0
  {
  }

  lemma RotlZero55(x: bv64)
    ensures x.RotateLeft(55) == 0 <==> x == 0
  {
  }

  /** The all-zero state is a fixed point that only outputs zero. */
  lemma ZeroFixpoint()
    ensures Gen(Zero) == Draw(0, Zero)
  {
  }

  /** Only the all-zero state steps to the all-zero state, so a non-zero
      state never degenerates. */
  lemma StepNonZero(r: Rng)
    requires r != Zero
    ensures Step(r) != Zero
  {
    var t := r.s0 ^ r.s1;
    RotlZero36(t);
    RotlZero55(r.s0);
  }

  lemma {:induction false} IterateNonZero(r: Rng, n: nat)
    requires r != Zero
    ensures Iterate(r, n) != Zero
    decreases n
  {
    if n > 0 {
      StepNonZero(r);
      IterateNonZero(Step(r), n - 1);
    }
  }

  /** Seed zero is the degenerate all-zero state; every other seed gives a
      state whose two words are both non-zero, and so never degenerates. */
  lemma SeedZero(seed: bv64)
    ensures Seed(seed) == Zero <==> seed == 0
    ensures seed != 0 ==> Seed(seed).s0 != 0 && Seed(seed).s1 != 0
  {
  }

  /** Running m steps and then n more is running m + n steps. */
  lemma {:induction false} IterateAdd(r: Rng, m: nat, n: nat)
    ensures Iterate(Iterate(r, m), n) == Iterate(r, m + n)
    decreases m
  {
    if m > 0 {
      IterateAdd(Step(r), m - 1, n);
    }
  }

  /** The draw at position k of the stream that starts m steps later is the
      draw at position m + k of the original stream. */
  lemma WordShift(r: Rng, m: nat, k: nat)
    ensures Word(Iterate(r, m), k) == Word(r, m + k)
  {
    IterateAdd(r, m, k);
  }
}
