/** The pseudo-random generator of `src/random/mod.rs`: a SplitMix64-style
    seeder and a xoshiro256**-style step, both on 128-bit registers. The
    source keeps SEED and X0..X4 in thread-local cells; here they are the
    fields of one generator object. `u128` arithmetic is `bv128`, whose
    `+` and `*` wrap like `overflowing_add`/`overflowing_mul`. */
module Random {
  import opened Strings

  /** The SplitMix64 increment. */
  const Golden: bv128 := 0x9e3779b97f4a7c15

  /** 2^128, one more than the largest `u128`. */
  const Modulus: int := 0x1_0000_0000_0000_0000_0000_0000_0000_0000

  /** 2^64, one more than the largest `usize` on a 64-bit target. */
  const UsizeModulus: int := 0x1_0000_0000_0000_0000

  /** The mixing half of `split`: xor-shifts and wrapping multiplies. */
  function Mix(s: bv128): bv128
  {
    var a := (s ^ (s >> 30)) * 0xbf58476d1ce4e5b9;
    var b := (a ^ (a >> 27)) * 0x94d049bb133111eb;
    b ^ (b >> 31)
  }

  /** The seed a `split` of `s` stores: `s` plus the increment, wrapping. */
  function Advance(s: bv128): bv128
  {
    s + Golden
  }

  /** The seed after four `split`s, each from the seed the last one stored. */
  function AdvanceFour(s: bv128): bv128
  {
    Advance(Advance(Advance(Advance(s))))
  }

  /** `rotate`: `rotate_left` by the rotation cast to `u32`. The `i32`
      rotation is given by its 32 bits, which is all the cast keeps; the
      rotation then counts modulo 128. */
  function Rotate(number: bv128, rotation: bv32): bv128
  {
    var k := (rotation % 128) as bv128;
    if k == 0 then number else (number << k) | (number >> (128 - k))
  }

  /** test_rotate: one rotated left by one is two. */
  lemma RotateOne()
    ensures Rotate(1, 1) == 2
  {
  }

  /** The rotation `randomize` uses, and a negative rotation (-1 as `u32`)
      turning right. */
  lemma RotateCases(n: bv128)
    ensures Rotate(n, 7) == n.RotateLeft(7)
    ensures Rotate(n, 0xffff_ffff) == n.RotateRight(1)
  {
  }

  /** The four registers X0..X3 of xoshiro256**. */
  datatype Registers = Registers(x0: bv128, x1: bv128, x2: bv128, x3: bv128)

  const Zero: Registers := Registers(0, 0, 0, 0)

  /** The state transition of `randomize`. */
  function Next(r: Registers): Registers
  {
    var t := r.x1 << 17;
    var s2 := r.x2 ^ r.x0;
    var s3 := r.x3 ^ r.x1;
    var s1 := r.x1 ^ s2;
    var s0 := r.x0 ^ s3;
    Registers(s0, s1, s2 ^ t, s3.RotateLeft(45))
  }

  /** The all-zero state is a fixed point of the step, which is why the
      registers must be seeded so that they are not everywhere zero. */
  lemma ZeroStaysZero()
    ensures Next(Zero) == Zero
  {
  }

  /** The output scrambler of xoshiro256**, with wrapping multiplies. */
  function StarStar(x1: bv128): bv128
  {
    Rotate(x1 * 5, 7) * 9
  }

  /** The cast of a `u128` to a 64-bit `usize`: its low 64 bits. */
  function Low64(x: bv128): bv64
  {
    (x & 0xffff_ffff_ffff_ffff) as bv64
  }

  /** What `randomize(bits)` returns: the scrambled value shifted right by
      `64 - bits` and cast to `usize`. The `u8` subtraction needs `bits`
      to be at most 64. */
  function Output(x1: bv128, bits: bv8): bv64
    requires bits <= 64
  {
    Low64(StarStar(x1) >> (64 - bits) as bv128)
  }

  /** With 64 bits the output is the low half of the scrambled value; with
      fewer, the cast keeps 64 bits of the shifted value all the same, so
      `bits` does not bound the result. */
  lemma OutputWidth(x1: bv128)
    ensures Output(x1, 64) == Low64(StarStar(x1))
    ensures Output(x1, 8) == Low64(StarStar(x1) >> 56)
  {
  }

  /** The registers `reset` means to produce: four successive `split`s. */
  function Seeded(s: bv128): Registers
  {
    var s1 := Advance(s);
    var s2 := Advance(s1);
    var s3 := Advance(s2);
    Registers(Mix(s1), Mix(s2), Mix(s3), Mix(Advance(s3)))
  }

  /** The generator state: SEED, the registers X0..X3 and X4. */
  class Rng {
    var seed: bv128
    var regs: Registers
    var x4: bv128

    /** The thread-local cells start at zero. */
    constructor()
      ensures seed == 0 && regs == Zero && x4 == 0
    {
      seed, regs, x4 := 0, Zero, 0;
    }

    /** `put`: the four values become X0..X3. */
    method Put(seeds: Registers)
      modifies this
      ensures regs == seeds
      ensures seed == old(seed) && x4 == old(x4)
    {
      regs := seeds;
    }

    /** `split`: advances SEED from `s` and returns the mix of the result. */
    method Split(s: bv128) returns (r: bv128)
      modifies this
      ensures seed == Advance(s) && r == Mix(Advance(s))
      ensures regs == old(regs) && x4 == old(x4)
    {
      seed := Advance(s);
      r := Mix(seed);
    }

    /** `reset` as written: every `split` starts from the same saved seed,
        so the four registers are equal. */
    method ResetAsWritten()
      modifies this
      ensures seed == Advance(old(seed))
      ensures regs == Identical(old(seed))
      ensures x4 == old(x4)
    {
      var s := seed;
      var a := Split(s);
      var b := Split(s);
      var c := Split(s);
      var d := Split(s);
      Put(Registers(a, b, c, d));
    }

    /** `reset` as meant: each `split` starts from the current seed, so the
        registers are four successive SplitMix outputs. */
    method Reset()
      modifies this
      ensures seed == AdvanceFour(old(seed))
      ensures regs == Seeded(old(seed))
      ensures x4 == old(x4)
    {
      var a := Split(seed);
      var b := Split(seed);
      var c := Split(seed);
      var d := Split(seed);
      Put(Registers(a, b, c, d));
    }

    /** `set_seed` as written: it calls `reset` as written, so any seed but
        zero fills X0..X3 with four copies of one value. */
    method SetSeedAsWritten(s: bv128)
      modifies this
      ensures s == 0 ==> seed == old(seed) && regs == old(regs)
      ensures s != 0 ==> seed == Advance(s) && regs == Identical(s)
      ensures x4 == old(x4)
    {
      if s == 0 {
        return;
      }
      seed := s;
      ResetAsWritten();
    }

    /** `set_seed` with `reset` as meant: zero leaves everything as it was;
        any other seed replaces SEED and reseeds X0..X3 with four successive
        SplitMix outputs. */
    method SetSeed(s: bv128)
      modifies this
      ensures s == 0 ==> seed == old(seed) && regs == old(regs)
      ensures s != 0 ==> seed == AdvanceFour(s) && regs == Seeded(s)
      ensures x4 == old(x4)
    {
      if s == 0 {
        return;
      }
      seed := s;
      Reset();
    }

    /** `randomize`: the output comes from X1 before the step; the step
        (the in-place updates of the local copy, as `Next`) is put back. */
    method Randomize(bits: bv8) returns (r: bv64)
      requires bits <= 64
      modifies this
      ensures r == Output(old(regs).x1, bits)
      ensures regs == Next(old(regs))
      ensures seed == old(seed) && x4 == old(x4)
    {
      r := Output(regs.x1, bits);
      Put(Next(regs));
    }

    /** `rand`: a value between the bounds, both included. The source
        needs `min <= max` (the subtraction would underflow) and a range
        that is not all of `usize` (the `1 +` would overflow). */
    method Rand(minValue: nat, maxValue: nat) returns (r: nat)
      requires minValue <= maxValue < UsizeModulus && maxValue - minValue < UsizeModulus - 1
      modifies this
      ensures minValue <= r <= maxValue
      ensures r == (Output(old(regs).x1, 8) as int) % (1 + (maxValue - minValue)) + minValue
      ensures regs == Next(old(regs))
      ensures seed == old(seed) && x4 == old(x4)
    {
      var v := Randomize(8);
      r := (v as int) % (1 + (maxValue - minValue)) + minValue;
    }
  }

  /** The registers `reset` produces as written. */
  function Identical(s: bv128): Registers
  {
    var m := Mix(Advance(s));
    Registers(m, m, m, m)
  }

  /** The seed of the source's test of `randomize`. */
  const TestSeed: bv128 := 123456789

  /** As written, seeding with the test seed fills all four registers with
      one value; the successive splits give four different ones. */
  lemma TestSeedRegisters()
    ensures var r := Identical(TestSeed); r.x0 == r.x1 && r.x1 == r.x2 && r.x2 == r.x3
    ensures var r := Seeded(TestSeed);
            r.x0 != r.x1 && r.x0 != r.x2 && r.x0 != r.x3 && r.x1 != r.x2 && r.x1 != r.x3 && r.x2 != r.x3
  {
    assert Mix(Advance(TestSeed)) == 0x330607435f1d4de755ac721b368e7679;
  }

  /** `x * 5` leaves the `u128` range exactly when `x` is above this. */
  const MaxTimesFive: bv128 := 0x33333333333333333333333333333333

  /** `x * 9` leaves the `u128` range exactly when `x` is above this. */
  const MaxTimesNine: bv128 := 0x1c71c71c71c71c71c71c71c71c71c71c

  /** The two bounds are the largest values whose product stays below 2^128. */
  lemma OverflowBounds()
    ensures (MaxTimesFive as int) * 5 < Modulus <= (MaxTimesFive as int + 1) * 5
    ensures (MaxTimesNine as int) * 9 < Modulus <= (MaxTimesNine as int + 1) * 9
  {
  }

  /** The scrambler as written: `*` on `u128` panics on overflow in a debug
      build, which is `None` here. */
  function StarStarChecked(x1: bv128): Option<bv128>
  {
    if x1 > MaxTimesFive || Rotate(x1 * 5, 7) > MaxTimesNine then None else Some(StarStar(x1))
  }

  /** After `set_seed(123456789)`, the multiplications of `randomize`
      overflow: with `reset` as written the `* 9` does, with four successive
      splits already the `* 5`. Either way the test of `randomize` panics in
      a debug build. */
  lemma TestSeedOverflows()
    ensures StarStarChecked(Identical(TestSeed).x1).None?
    ensures StarStarChecked(Seeded(TestSeed).x1).None?
  {
    var x1 := Mix(Advance(TestSeed));
    assert x1 == 0x330607435f1d4de755ac721b368e7679;
    assert Rotate(x1 * 5, 7) > MaxTimesNine;
    assert Mix(Advance(Advance(TestSeed))) > MaxTimesFive;
  }

  /** test_split and test_randomize: the first split of the test seed is not
      zero, and neither is the first 64-bit output after seeding with it,
      whether `reset` runs as written or as meant (wrapping multiplies). */
  lemma TestSeedNonZero()
    ensures Mix(Advance(TestSeed)) != 0
    ensures Output(Identical(TestSeed).x1, 64) != 0
    ensures Output(Seeded(TestSeed).x1, 64) != 0
  {
    assert Mix(Advance(TestSeed)) == 0x330607435f1d4de755ac721b368e7679;
  }
}
