/**
 * The floating-point side of the model. C# `double` is modelled as `real`;
 * the library routines whose results depend on rounding or are
 * transcendental are not given a definition but are fields of a `FloatLib`
 * value that the model carries around, so no property proved here depends on
 * what they compute. `Math.Round` and the truncating `(int)` cast are exact
 * operations on reals and are defined outright.
 */
module FloatMath {
  import opened Common

  /** The routines the source calls whose results the model leaves open. */
  datatype FloatLib = FloatLib(
    Sqrt: real -> real,                       // Math.Sqrt
    Pow: (real, real) -> real,                // Math.Pow
    Acos: real -> real,                       // Math.Acos
    Sin: real -> real,                        // Math.Sin
    Cos: real -> real,                        // Math.Cos
    DivideByZero: real -> real,               // x / 0.0: an infinity or NaN
    CastOverflow: real -> int32,              // (int)x for x outside the range of int
    ToSingle: real -> real,                   // (float)x: rounding to single precision
    ColorToHsl: bv32 -> (real, real, real),   // ColorConverter.ColorToHSL
    HslToColor: ((real, real, real)) -> bv32  // ColorConverter.HSLToColor
  )
  {
    /** What IEEE square root promises and the drag guard relies on. */
    ghost predicate SqrtSound()
    {
      forall x: real :: 0.0 <= x ==> 0.0 <= Sqrt(x) && (Sqrt(x) == 0.0 <==> x == 0.0)
    }
  }

  /** Math.PI. */
  const Pi: real := 3.141592653589793

  /** Floating-point division `x / y`. */
  function Div(lib: FloatLib, x: real, y: real): (r: real)
    ensures y != 0.0 ==> r * y == x
  {
    if y != 0.0 then x / y else lib.DivideByZero(x)
  }

  function Abs(x: real): (r: real)
    ensures 0.0 <= r && (r == x || r == -x)
  {
    if x < 0.0 then -x else x
  }

  /** Math.Max on two doubles (no NaN in this model). */
  function Max(a: real, b: real): (r: real)
    ensures a <= r && b <= r && (r == a || r == b)
  {
    if a < b then b else a
  }

  /** Math.Min on two doubles. */
  function Min(a: real, b: real): (r: real)
    ensures r <= a && r <= b && (r == a || r == b)
  {
    if a < b then a else b
  }

  /**
   * Math.Round(x): the nearest integer, and the even one of the two
   * nearest when x lies exactly half-way (MidpointRounding.ToEven).
   */
  function RoundHalfEven(x: real): int
  {
    var f := x.Floor;
    var frac := x - f as real;
    if frac < 0.5 then f
    else if frac > 0.5 then f + 1
    else if f % 2 == 0 then f
    else f + 1
  }

  /** The rounded value is within one half of x, strictly unless x is a tie, and ties go to even. */
  lemma RoundHalfEvenNearest(x: real)
    ensures x - 0.5 <= RoundHalfEven(x) as real <= x + 0.5
    ensures x - (x.Floor as real) == 0.5 ==> RoundHalfEven(x) % 2 == 0
    ensures x - (x.Floor as real) != 0.5 ==> x - 0.5 < RoundHalfEven(x) as real < x + 0.5
  {
  }

  /** Math.Round(x, 1): rounded half-to-even to one decimal. */
  function RoundToTenths(x: real): real
  {
    RoundHalfEven(x * 10.0) as real / 10.0
  }

  /** The truncation toward zero performed by C#'s `(int)` cast on a double. */
  function Truncate(x: real): int
  {
    if 0.0 <= x then x.Floor else -((-x).Floor)
  }

  /** Truncation drops the fraction toward zero. */
  lemma TruncateTowardZero(x: real)
    ensures 0.0 <= x ==> 0 <= Truncate(x) && Truncate(x) as real <= x < Truncate(x) as real + 1.0
    ensures x < 0.0 ==> Truncate(x) <= 0 && Truncate(x) as real - 1.0 < x <= Truncate(x) as real
  {
  }

  /** `(int)x` for a double: truncation when the result fits, otherwise open. */
  function CastToInt32(lib: FloatLib, x: real): int32
  {
    var t := Truncate(x);
    if -0x8000_0000 <= t < 0x8000_0000 then t as int32 else lib.CastOverflow(x)
  }

  /** Where the truncated value fits in an `int`, the cast is that value. */
  lemma CastInRange(lib: FloatLib, x: real)
    requires -0x8000_0000 <= Truncate(x) < 0x8000_0000
    ensures CastToInt32(lib, x) as int == Truncate(x)
  {
  }

  /**
   * `(int)Math.Round(x)`: the rounded double is integral, so the cast keeps
   * it when it fits and is open otherwise.
   */
  function RoundToInt32(lib: FloatLib, x: real): int32
  {
    var n := RoundHalfEven(x);
    if -0x8000_0000 <= n < 0x8000_0000 then n as int32 else lib.CastOverflow(n as real)
  }

  /** `RoundToInt32` is the truncating cast applied to the rounded value. */
  lemma RoundToInt32IsCastOfRound(lib: FloatLib, x: real)
    ensures RoundToInt32(lib, x) == CastToInt32(lib, RoundHalfEven(x) as real)
  {
  }
}
