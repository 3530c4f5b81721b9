/** The generation epoch of the PerfMark library (io.perfmark.impl.Generator).

    A generation value is a `long` whose low GEN_OFFSET bits are reserved; the
    bits above them form the generation id, and an odd id means the library is
    enabled, an even one that it is disabled. */
module Generators {
  import opened JavaBase

  /** The number of reserved bits at the bottom of every generation value. */
  const GEN_OFFSET: Int := 8

  /** The sentinel for a failed set or an overflowed generation count:
      `-2L << GEN_OFFSET`. */
  const FAILURE: Long := LongShiftLeft(-2, GEN_OFFSET)

  /** The generation value that stands for generation id `id`: `id << GEN_OFFSET`.
      The low eight bits come out zero and bit 8 keeps the parity of the id,
      even when the shift overflows; without overflow it is `256 * id`. */
  function ToGeneration(id: Long): (r: Long)
    ensures r % 256 == 0
    ensures (r / 256) % 2 == id % 2
    ensures ShiftFits(id) ==> r == 256 * id
  {
    Pow2Of8();
    WrappedTimes256(id);
    assert GEN_OFFSET % 64 == 8;
    LongShiftLeft(id, GEN_OFFSET)
  }

  /** The generation id held in a generation value: `generation >> GEN_OFFSET`,
      the largest id that, shifted back, does not exceed the value. */
  function GenerationId(generation: Long): (r: Long)
    ensures 256 * r <= generation < 256 * r + 256
  {
    Pow2Of8();
    assert GEN_OFFSET % 64 == 8;
    LongShiftRight(generation, GEN_OFFSET)
  }

  /** An odd generation id means the library is enabled: bit 8 of the
      two's-complement value is set. */
  predicate IsEnabled(generation: Long): (enabled: bool)
    ensures enabled <==> generation % 512 >= 256
  {
    BitEight(generation, GenerationId(generation));
    GenerationId(generation) % 2 == 1
  }

  /** For the floor quotient `q` of `x` by 256, `q` is odd exactly when bit 8
      of `x` is set. */
  lemma BitEight(x: int, q: int)
    requires 256 * q <= x < 256 * q + 256
    ensures q % 2 == 1 <==> x % 512 >= 256
  {
    var p, b := q / 2, q % 2;
    assert q == 2 * p + b;
    assert x - 512 * p == 256 * b + (x - 256 * q);
    assert x % 512 == 256 * b + (x - 256 * q);
  }

  /** The low GEN_OFFSET bits of a generation value are all zero. */
  predicate ReservedBitsClear(generation: Long)
  {
    generation % Pow2(GEN_OFFSET) == 0
  }

  /** The ids whose shift by GEN_OFFSET stays inside the `long` range. */
  predicate ShiftFits(id: Long)
  {
    -0x80_0000_0000_0000 <= id < 0x80_0000_0000_0000
  }

  /** With the distance GEN_OFFSET, the shifts are a wrapped multiplication
      by 256 and a floor division by 256. */
  lemma ShiftsByOffset(x: Long)
    ensures ToGeneration(x) == WrapLong(x * 256)
    ensures GenerationId(x) == x / 256
    ensures ReservedBitsClear(x) <==> x % 256 == 0
  {
    Pow2Of8();
    assert GEN_OFFSET % 64 == 8;
  }

  /** FAILURE is -512: its reserved bits are clear and its id, -2, is even, so
      a reader that sees it treats the library as disabled. */
  lemma FailureValue()
    ensures FAILURE == -512
    ensures ReservedBitsClear(FAILURE)
    ensures GenerationId(FAILURE) == -2
    ensures !IsEnabled(FAILURE)
  {
    ShiftsByOffset(-2);
    assert FAILURE == WrapLong(-512);
    ShiftsByOffset(FAILURE);
  }

  /** Multiplying by 256 and wrapping to 64 bits gives a multiple of 256
      whose quotient by 256 has the parity of the factor. */
  lemma WrappedTimes256(id: Long)
    ensures WrapLong(id * 256) % 256 == 0
    ensures (WrapLong(id * 256) / 256) % 2 == id % 2
  {
    var y := id * 256;
    var q := (y - LONG_MIN) / LONG_MODULUS;
    var k := id - q * 0x100_0000_0000_0000;
    assert y - LONG_MIN == LONG_MODULUS * q + (y - LONG_MIN) % LONG_MODULUS;
    assert WrapLong(y) == 256 * k;
    assert (256 * k) / 256 == k;
    assert k == id - 2 * (q * 0x80_0000_0000_0000);
  }

  /** The parity of the id survives the shift, overflow included: an odd id
      gives an enabled generation value and an even id a disabled one. */
  lemma ShiftKeepsParity(id: Long)
    ensures IsEnabled(ToGeneration(id)) <==> id % 2 == 1
  {
    ShiftsByOffset(id);
    ShiftsByOffset(ToGeneration(id));
    WrappedTimes256(id);
  }

  /** When the shift does not overflow, shifting back recovers the id. */
  lemma ShiftRoundTrip(id: Long)
    requires ShiftFits(id)
    ensures GenerationId(ToGeneration(id)) == id
  {
    ShiftsByOffset(id);
    ShiftsByOffset(256 * id);
    assert ToGeneration(id) == 256 * id;
  }

  /** Among the ids whose shift fits, only -2 produces FAILURE; so no
      non-negative generation count reached before overflow collides with it. */
  lemma FailureOnlyFromMinusTwo(id: Long)
    requires ShiftFits(id)
    ensures ToGeneration(id) == FAILURE <==> id == -2
    ensures 0 <= id ==> ToGeneration(id) != FAILURE
  {
    FailureValue();
    ShiftRoundTrip(id);
    ShiftRoundTrip(-2);
  }

  /** A concrete generator holding one generation value. The library's
      Generator is abstract and not thread-safe; this model is sequential. */
  class Generator {
    /** The value that getGeneration reports. */
    var generation: Long
    /** The value passed to the most recent set (0 before any set). */
    ghost var lastSet: Long

    ghost predicate Valid()
      reads this
    {
      generation == lastSet || generation == FAILURE
    }

    /** A generator starts at generation 0, whose id is even: disabled. */
    constructor ()
      ensures Valid()
      ensures generation == 0 && lastSet == 0
      ensures !IsEnabled(generation)
    {
      ShiftsByOffset(0);
      generation := 0;
      lastSet := 0;
    }

    /** Stores a generation value (already shifted by GEN_OFFSET). */
    method SetGeneration(generation: Long)
      requires Valid()
      modifies this
      ensures Valid()
      ensures this.generation == generation && lastSet == generation
    {
      this.generation := generation;
      lastSet := generation;
    }

    /** A set that the backing implementation could not carry out: the value
        is recorded as the last one passed, and FAILURE is what readers see. */
    method SetGenerationFailed(generation: Long)
      requires Valid()
      modifies this
      ensures Valid()
      ensures this.generation == FAILURE && lastSet == generation
    {
      this.generation := FAILURE;
      lastSet := generation;
    }

    /** Reads the current generation: the value last set, or FAILURE. An
        enabled reading is always the value last set. */
    method GetGeneration() returns (g: Long)
      requires Valid()
      ensures g == generation
      ensures g == lastSet || g == FAILURE
      ensures IsEnabled(g) ==> g == lastSet
    {
      FailureValue();
      g := generation;
    }

    /** The advisory cost of a set, in nanoseconds. */
    method CostOfSetNanos() returns (nanos: Long)
      ensures nanos == 1_000_000
    {
      nanos := 1_000_000;
    }

    /** The advisory cost of a get, in nanoseconds. */
    method CostOfGetNanos() returns (nanos: Long)
      ensures nanos == 10
    {
      nanos := 10;
    }
  }
}
