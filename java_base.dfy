/** Java value semantics that the PerfMark core relies on: the ranges of `int`
    and `long`, two's-complement wrap-around, the shift operators, `null`, and
    the exceptions a constructor or method can throw. */
module JavaBase {

  const INT_MIN: int := -0x8000_0000
  const INT_MAX: int := 0x7FFF_FFFF
  const LONG_MIN: int := -0x8000_0000_0000_0000
  const LONG_MAX: int := 0x7FFF_FFFF_FFFF_FFFF

  /** The number of distinct `long` values, 2^64. */
  const LONG_MODULUS: int := 0x1_0000_0000_0000_0000
  /** The number of distinct `int` values, 2^32. */
  const INT_MODULUS: int := 0x1_0000_0000

  /** Java's 32-bit `int`. */
  type Int = x: int | INT_MIN <= x <= INT_MAX
  /** Java's 64-bit `long`. */
  type Long = x: int | LONG_MIN <= x <= LONG_MAX

  /** A Java reference that may be `null`. */
  datatype Nullable<T> = Null | NonNull(value: T)

  /** The exceptions the modelled code throws. */
  datatype Exception =
    | NullPointerException(message: Nullable<string>)
    | IllegalArgumentException(message: Nullable<string>)
    | AssertionError(message: Nullable<string>)
    | ArrayIndexOutOfBoundsException(index: int)

  /** The outcome of a Java call: a value, or a thrown exception. */
  datatype Result<T> = Ok(value: T) | Throws(exception: Exception) {
    predicate IsFailure() { Throws? }

    function PropagateFailure<U>(): Result<U>
      requires Throws?
    {
      Throws(exception)
    }

    function Extract(): T
      requires Ok?
    {
      value
    }
  }

  function Pow2(n: nat): (r: nat)
    ensures r >= 1
  {
    if n == 0 then 1 else 2 * Pow2(n - 1)
  }

  lemma Pow2Of8()
    ensures Pow2(8) == 256
  {
    assert Pow2(2) == 4;
    assert Pow2(4) == 16;
    assert Pow2(6) == 64;
  }

  /** Narrowing of an exact integer result to a `long`, as the JVM does. */
  function WrapLong(x: int): (r: Long)
    ensures (x - r) % LONG_MODULUS == 0
    ensures LONG_MIN <= x <= LONG_MAX ==> r == x
  {
    (x - LONG_MIN) % LONG_MODULUS + LONG_MIN
  }

  /** Narrowing of an exact integer result to an `int`, as the JVM does. */
  function WrapInt(x: int): (r: Int)
    ensures (x - r) % INT_MODULUS == 0
    ensures INT_MIN <= x <= INT_MAX ==> r == x
  {
    (x - INT_MIN) % INT_MODULUS + INT_MIN
  }

  /** `x << n` on `long`: only the low six bits of the distance are used. */
  function LongShiftLeft(x: Long, n: Int): Long
  {
    WrapLong(x * Pow2(n % 64))
  }

  /** `x >> n` on `long`: the arithmetic (sign-extending) shift, which rounds
      toward negative infinity. */
  function LongShiftRight(x: Long, n: Int): (r: Long)
    ensures 0 <= x ==> 0 <= r <= x
    ensures x < 0 ==> x <= r < 0
  {
    FloorDivBounds(x, Pow2(n % 64));
    x / Pow2(n % 64)
  }

  /** `x << n` on `int`: only the low five bits of the distance are used. */
  function IntShiftLeft(x: Int, n: Int): Int
  {
    WrapInt(x * Pow2(n % 32))
  }

  /** Dividing by a positive divisor moves a value toward zero without
      changing its sign. */
  lemma FloorDivBounds(x: int, d: int)
    requires d >= 1
    ensures 0 <= x ==> 0 <= x / d <= x
    ensures x < 0 ==> x <= x / d < 0
  {
    var q, m := x / d, x % d;
    assert x == d * q + m && 0 <= m < d;
    if 0 <= x {
      assert 0 <= q;
      assert q <= d * q by { MulAtLeast(d, q); }
    } else {
      assert q < 0;
      assert d * (q + 1) <= q + 1 by { MulMonotone(d, q + 1); }
      assert x < d * (q + 1);
    }
  }

  lemma MulAtLeast(d: int, q: int)
    requires d >= 1 && q >= 0
    ensures q <= d * q
  {
    assert d * q == q + (d - 1) * q;
  }

  lemma MulMonotone(d: int, q: int)
    requires d >= 1 && q <= 0
    ensures d * q <= q
  {
    assert d * q == q + (d - 1) * q;
    MulAtLeast(d, -q);
    assert (d - 1) * (-q) >= 0;
  }
}
