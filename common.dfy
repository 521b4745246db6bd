/**
 * Shared vocabulary of the model: C#'s 32-bit integers and their unchecked
 * reinterpretation as unsigned words, and the error paths the source raises
 * as exceptions.
 */
module Common {

  /** C#'s `int`. */
  newtype int32 = x: int | -0x8000_0000 <= x < 0x8000_0000

  const TwoTo32: int := 0x1_0000_0000

  datatype Option<T> = None | Some(value: T)

  /** The exceptions the modelled code can raise. */
  datatype Error =
    | ArgumentException(message: string)
    | ArgumentOutOfRangeException(parameter: string)

  /** Outcome of a `void` member that may throw. */
  datatype Outcome = Done | Failed(error: Error)

  /** Outcome of a value-returning member that may throw. */
  datatype Result<T> = Success(value: T) | Failure(error: Error)

  /** `(uint)x` in an unchecked context: the same 32 bits read as unsigned. */
  function ToUInt32(x: int32): (u: bv32)
  {
    (if x < 0 then x as int + 0x1_0000_0000 else x as int) as bv32
  }

  /** `(int)u` in an unchecked context: the same 32 bits read as two's complement. */
  function ToInt32(u: bv32): (x: int32)
  {
    if u < 0x8000_0000 then u as int as int32 else (u as int - 0x1_0000_0000) as int32
  }

  lemma UnsignedRoundTrip(u: bv32)
    ensures ToUInt32(ToInt32(u)) == u
  {
  }

  /** Reduces an unbounded integer to `int` the way unchecked C# arithmetic does. */
  function Wrap32(x: int): int32
  {
    ((x + 0x8000_0000) % TwoTo32 - 0x8000_0000) as int32
  }

  /** The wrapped value differs from the exact one by a multiple of 2^32, and by nothing when it fits. */
  lemma Wrap32Congruent(x: int)
    ensures (Wrap32(x) as int - x) % TwoTo32 == 0
    ensures -0x8000_0000 <= x < 0x8000_0000 ==> Wrap32(x) as int == x
  {
  }

  /** `a + b` on C# `int`s in an unchecked context. */
  function AddWrap(a: int32, b: int32): int32
  {
    Wrap32(a as int + b as int)
  }

  /** Two integers congruent modulo 2^32 wrap to the same `int`. */
  lemma {:induction false} WrapCongruent(x: int, y: int)
    requires (x - y) % TwoTo32 == 0
    ensures Wrap32(x) == Wrap32(y)
  {
    var k := (x - y) / TwoTo32;
    assert x == y + k * TwoTo32;
    var q := (y + 0x8000_0000) / TwoTo32;
    var r := (y + 0x8000_0000) % TwoTo32;
    assert y + 0x8000_0000 == q * TwoTo32 + r;
    assert x + 0x8000_0000 == (q + k) * TwoTo32 + r;
    ModOfMultiplePlus(x + 0x8000_0000, q + k, r);
  }

  lemma ModOfMultiplePlus(n: int, q: int, r: int)
    requires 0 <= r < TwoTo32 && n == q * TwoTo32 + r
    ensures n % TwoTo32 == r
  {
  }

  lemma AddWrapZero(x: int32)
    ensures AddWrap(x, 0) == x
  {
  }

  /** Unchecked `int` addition is associative, wrap-around and all. */
  lemma {:induction false} AddWrapAssociative(x: int32, a: int32, b: int32)
    ensures AddWrap(AddWrap(x, a), b) == AddWrap(x, AddWrap(a, b))
  {
    var xa := AddWrap(x, a);
    var ab := AddWrap(a, b);
    Wrap32Congruent(x as int + a as int);
    Wrap32Congruent(a as int + b as int);
    assert (xa as int - (x as int + a as int)) % TwoTo32 == 0;
    assert (ab as int - (a as int + b as int)) % TwoTo32 == 0;
    CongruentShift(xa as int, x as int + a as int, b as int);
    CongruentShift(ab as int, a as int + b as int, x as int);
    WrapCongruent(xa as int + b as int, x as int + a as int + b as int);
    WrapCongruent(x as int + ab as int, x as int + a as int + b as int);
  }

  lemma CongruentShift(u: int, v: int, d: int)
    requires (u - v) % TwoTo32 == 0
    ensures ((u + d) - (v + d)) % TwoTo32 == 0
  {
    assert (u + d) - (v + d) == u - v;
  }
}
