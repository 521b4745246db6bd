/**
 * The immutable 3D vector of the Lattice library. The operators are exact
 * componentwise algebra on reals; the operations built on a square root, a
 * division or a trigonometric function go through a `FloatLib`.
 */
module Vectors {
  import opened FloatMath

  datatype Vector = Vector(X: real, Y: real, Z: real)

  const Zero: Vector := Vector(0.0, 0.0, 0.0)
  const XAxis: Vector := Vector(1.0, 0.0, 0.0)
  const YAxis: Vector := Vector(0.0, 1.0, 0.0)
  const ZAxis: Vector := Vector(0.0, 0.0, 1.0)

  /** `a * b` with the scalar on the right. */
  function Multiply(a: Vector, b: real): Vector
  {
    Vector(a.X * b, a.Y * b, a.Z * b)
  }

  /** `a * b` with the scalar on the left, which the source forwards to Multiply(b, a). */
  function MultiplyLeft(a: real, b: Vector): Vector
  {
    Multiply(b, a)
  }

  /** `a / b`, computed as a multiplication by the reciprocal 1.0 / b. */
  function Divide(lib: FloatLib, a: Vector, b: real): Vector
  {
    var num := Div(lib, 1.0, b);
    Vector(a.X * num, a.Y * num, a.Z * num)
  }

  function Add(a: Vector, b: Vector): Vector
  {
    Vector(a.X + b.X, a.Y + b.Y, a.Z + b.Z)
  }

  function Subtract(a: Vector, b: Vector): Vector
  {
    Vector(a.X - b.X, a.Y - b.Y, a.Z - b.Z)
  }

  function Negate(a: Vector): Vector
  {
    Vector(-a.X, -a.Y, -a.Z)
  }

  /** IEquatable<Vector>.Equals: exact comparison of the three fields. */
  predicate Equals(a: Vector, b: Vector)
  {
    a.X == b.X && a.Y == b.Y && a.Z == b.Z
  }

  /** `a != b`. */
  predicate NotEquals(a: Vector, b: Vector)
  {
    !Equals(a, b)
  }

  function Dot(a: Vector, b: Vector): real
  {
    a.X * b.X + a.Y * b.Y + a.Z * b.Z
  }

  function Cross(a: Vector, b: Vector): Vector
  {
    Vector(a.Y * b.Z - a.Z * b.Y, a.Z * b.X - a.X * b.Z, a.X * b.Y - a.Y * b.X)
  }

  /** `a.To(b)`: the displacement from a to b. */
  function To(a: Vector, b: Vector): Vector
  {
    Subtract(b, a)
  }

  function Magnitude(lib: FloatLib, a: Vector): real
  {
    lib.Sqrt(a.X * a.X + a.Y * a.Y + a.Z * a.Z)
  }

  function Distance(lib: FloatLib, a: Vector, b: Vector): real
  {
    lib.Sqrt((a.X - b.X) * (a.X - b.X) + (a.Y - b.Y) * (a.Y - b.Y) + (a.Z - b.Z) * (a.Z - b.Z))
  }

  function Unit(lib: FloatLib, a: Vector): Vector
  {
    Divide(lib, a, Magnitude(lib, a))
  }

  function Angle(lib: FloatLib, a: Vector, b: Vector): real
  {
    lib.Acos(Div(lib, Dot(a, b), Magnitude(lib, a) * Magnitude(lib, b)))
  }

  /** The component of a along b: Dot(a, b) / Dot(b, b) * b. */
  function Projection(lib: FloatLib, a: Vector, b: Vector): Vector
  {
    MultiplyLeft(Div(lib, Dot(a, b), Dot(b, b)), b)
  }

  /** The component of a orthogonal to b. */
  function Rejection(lib: FloatLib, a: Vector, b: Vector): Vector
  {
    Subtract(a, Projection(lib, a, b))
  }

  /**
   * Rotation of the point v by `angle` about the axis through `point` with
   * direction `direction`, term for term as the source writes it; the
   * direction is normalised by a square root first.
   */
  function Rotate(lib: FloatLib, v: Vector, point: Vector, direction: Vector, angle: real): Vector
  {
    var num1 := Div(lib, 1.0, lib.Sqrt(direction.X * direction.X + direction.Y * direction.Y + direction.Z * direction.Z));
    var u := direction.X * num1;
    var w := direction.Y * num1;
    var t := direction.Z * num1;
    var c := lib.Cos(angle);
    var s := lib.Sin(angle);
    var a, b, d := point.X, point.Y, point.Z;
    var inner := u * v.X + w * v.Y + t * v.Z;
    Vector(
      (a * (w * w + t * t) - u * (b * w + d * t - inner)) * (1.0 - c) + v.X * c + (-d * w + b * t - t * v.Y + w * v.Z) * s,
      (b * (u * u + t * t) - w * (a * u + d * t - inner)) * (1.0 - c) + v.Y * c + (d * u - a * t + t * v.X - u * v.Z) * s,
      (d * (u * u + w * w) - t * (a * u + b * w - inner)) * (1.0 - c) + v.Z * c + (-b * u + a * w - w * v.X + u * v.Y) * s)
  }

  /** Vector.Sum as a specification: a left fold of Add starting from Zero. */
  function SumOf(vectors: seq<Vector>): Vector
  {
    if |vectors| == 0 then Zero else Add(SumOf(vectors[..|vectors| - 1]), vectors[|vectors| - 1])
  }

  /** Vector.Sum: accumulates the collection into a running total. */
  method Sum(vectors: seq<Vector>) returns (total: Vector)
    ensures total == SumOf(vectors)
    ensures total.X == SumX(vectors) && total.Y == SumY(vectors) && total.Z == SumZ(vectors)
  {
    total := Vector(0.0, 0.0, 0.0);
    for i := 0 to |vectors|
      invariant total == SumOf(vectors[..i])
    {
      assert vectors[..i + 1][..i] == vectors[..i];
      total := Add(total, vectors[i]);
    }
    assert vectors[..|vectors|] == vectors;
    SumIsComponentwise(vectors);
  }

  /** Vector.Average: the sum divided by the number of vectors. */
  function Average(lib: FloatLib, vectors: seq<Vector>): Vector
  {
    Divide(lib, SumOf(vectors), |vectors| as real)
  }

  // Independent per-coordinate sums, used to characterise SumOf.
  function SumX(vectors: seq<Vector>): real
  {
    if |vectors| == 0 then 0.0 else vectors[0].X + SumX(vectors[1..])
  }

  function SumY(vectors: seq<Vector>): real
  {
    if |vectors| == 0 then 0.0 else vectors[0].Y + SumY(vectors[1..])
  }

  function SumZ(vectors: seq<Vector>): real
  {
    if |vectors| == 0 then 0.0 else vectors[0].Z + SumZ(vectors[1..])
  }

  lemma {:induction false} SumXAppend(vectors: seq<Vector>, v: Vector)
    ensures SumX(vectors + [v]) == SumX(vectors) + v.X
    ensures SumY(vectors + [v]) == SumY(vectors) + v.Y
    ensures SumZ(vectors + [v]) == SumZ(vectors) + v.Z
  {
    if |vectors| > 0 {
      assert (vectors + [v])[1..] == vectors[1..] + [v];
      SumXAppend(vectors[1..], v);
    }
  }

  /** The fold is the vector of the three coordinate sums. */
  lemma {:induction false} SumIsComponentwise(vectors: seq<Vector>)
    ensures SumOf(vectors) == Vector(SumX(vectors), SumY(vectors), SumZ(vectors))
  {
    if |vectors| > 0 {
      var init := vectors[..|vectors| - 1];
      SumIsComponentwise(init);
      SumXAppend(init, vectors[|vectors| - 1]);
      assert init + [vectors[|vectors| - 1]] == vectors;
    }
  }

  /** Summing a concatenation is adding the two sums. */
  lemma {:induction false} SumOfAppend(xs: seq<Vector>, ys: seq<Vector>)
    ensures SumOf(xs + ys) == Add(SumOf(xs), SumOf(ys))
  {
    if |ys| == 0 {
      assert xs + ys == xs;
    } else {
      var init := ys[..|ys| - 1];
      assert (xs + ys)[..|xs + ys| - 1] == xs + init;
      SumOfAppend(xs, init);
    }
  }

  lemma EmptySumIsZero()
    ensures SumOf([]) == Zero
  {
  }

  lemma SubtractIsAddNegate(a: Vector, b: Vector)
    ensures Subtract(a, b) == Add(a, Negate(b))
  {
  }

  lemma ScalarSidesAgree(a: Vector, s: real)
    ensures MultiplyLeft(s, a) == Multiply(a, s)
  {
  }

  lemma EqualsIsExact(a: Vector, b: Vector)
    ensures Equals(a, b) <==> a == b
    ensures NotEquals(a, b) <==> !Equals(a, b)
  {
  }

  lemma DotSymmetric(a: Vector, b: Vector)
    ensures Dot(a, b) == Dot(b, a)
  {
  }

  lemma CrossAntisymmetric(a: Vector, b: Vector)
    ensures Cross(a, b) == Negate(Cross(b, a))
    ensures Cross(a, a) == Zero
  {
  }

  /** The cross product is orthogonal to both of its factors. */
  lemma CrossOrthogonal(a: Vector, b: Vector)
    ensures Dot(a, Cross(a, b)) == 0.0
    ensures Dot(b, Cross(a, b)) == 0.0
  {
    var c := Cross(a, b);
    calc {
      Dot(a, c);
      a.X * (a.Y * b.Z - a.Z * b.Y) + a.Y * (a.Z * b.X - a.X * b.Z) + a.Z * (a.X * b.Y - a.Y * b.X);
      (a.X * a.Y * b.Z - a.Y * a.X * b.Z) + (a.Y * a.Z * b.X - a.Z * a.Y * b.X) + (a.Z * a.X * b.Y - a.X * a.Z * b.Y);
      0.0;
    }
    calc {
      Dot(b, c);
      b.X * (a.Y * b.Z - a.Z * b.Y) + b.Y * (a.Z * b.X - a.X * b.Z) + b.Z * (a.X * b.Y - a.Y * b.X);
      (a.Y * b.X * b.Z - a.Y * b.Z * b.X) + (a.Z * b.Y * b.X - a.Z * b.X * b.Y) + (a.X * b.Z * b.Y - a.X * b.Y * b.Z);
      0.0;
    }
  }

  lemma ToIsDisplacement(a: Vector, b: Vector, c: Vector)
    ensures To(a, b) == Subtract(b, a)
    ensures To(a, a) == Zero
    ensures To(b, a) == Negate(To(a, b))
    ensures Add(To(a, b), To(b, c)) == To(a, c)
  {
  }

  /** `+` and unary `-` make vectors an additive group with `Zero` as identity. */
  lemma AddGroupLaws(a: Vector, b: Vector, c: Vector)
    ensures Add(a, b) == Add(b, a)
    ensures Add(Add(a, b), c) == Add(a, Add(b, c))
    ensures Add(a, Zero) == a
    ensures Add(a, Negate(a)) == Zero
    ensures Negate(Negate(a)) == a
  {
  }

  /** Scaling by 1 changes nothing, scalings compose, and scaling distributes over `+`. */
  lemma MultiplyLaws(a: Vector, b: Vector, s: real, t: real)
    ensures Multiply(a, 1.0) == a
    ensures Multiply(Multiply(a, s), t) == Multiply(a, s * t)
    ensures Multiply(Add(a, b), s) == Add(Multiply(a, s), Multiply(b, s))
  {
    ScaleTwice(a.X, s, t);
    ScaleTwice(a.Y, s, t);
    ScaleTwice(a.Z, s, t);
    ScaleSum(a.X, b.X, s);
    ScaleSum(a.Y, b.Y, s);
    ScaleSum(a.Z, b.Z, s);
  }

  lemma ScaleTwice(x: real, s: real, t: real)
    ensures x * s * t == x * (s * t)
  {
  }

  lemma ScaleSum(x: real, y: real, s: real)
    ensures (x + y) * s == x * s + y * s
  {
  }

  /** Dividing by a non-zero scalar is undone by multiplying by it again. */
  lemma DivideThenMultiply(lib: FloatLib, a: Vector, b: real)
    requires b != 0.0
    ensures Multiply(Divide(lib, a, b), b) == a
  {
    var num := Div(lib, 1.0, b);
    assert num * b == 1.0;
    assert a.X * num * b == a.X * (num * b);
    assert a.Y * num * b == a.Y * (num * b);
    assert a.Z * num * b == a.Z * (num * b);
  }

  /** A vector of non-zero length is its unit vector scaled back by that length. */
  lemma UnitScalesBack(lib: FloatLib, a: Vector)
    requires Magnitude(lib, a) != 0.0
    ensures Multiply(Unit(lib, a), Magnitude(lib, a)) == a
  {
    DivideThenMultiply(lib, a, Magnitude(lib, a));
  }

  /** The average of a non-empty collection, times its count, is its sum. */
  lemma AverageTimesCount(lib: FloatLib, vectors: seq<Vector>)
    requires |vectors| > 0
    ensures Multiply(Average(lib, vectors), |vectors| as real) == SumOf(vectors)
  {
    DivideThenMultiply(lib, SumOf(vectors), |vectors| as real);
  }

  /** The distance between two points does not depend on their order. */
  lemma DistanceSymmetric(lib: FloatLib, a: Vector, b: Vector)
    ensures Distance(lib, a, b) == Distance(lib, b, a)
  {
    assert (a.X - b.X) * (a.X - b.X) == (b.X - a.X) * (b.X - a.X);
    assert (a.Y - b.Y) * (a.Y - b.Y) == (b.Y - a.Y) * (b.Y - a.Y);
    assert (a.Z - b.Z) * (a.Z - b.Z) == (b.Z - a.Z) * (b.Z - a.Z);
  }

  /** The angle between two vectors does not depend on their order. */
  lemma AngleSymmetric(lib: FloatLib, a: Vector, b: Vector)
    ensures Angle(lib, a, b) == Angle(lib, b, a)
  {
    DotSymmetric(a, b);
    assert Magnitude(lib, a) * Magnitude(lib, b) == Magnitude(lib, b) * Magnitude(lib, a);
  }

  /** Projection and rejection split a vector into two parts that add back up to it. */
  lemma ProjectionPlusRejection(lib: FloatLib, a: Vector, b: Vector)
    ensures Add(Projection(lib, a, b), Rejection(lib, a, b)) == a
  {
  }

  /**
   * When b has non-zero length (so that the division in Projection is a real
   * division), the rejection is orthogonal to b.
   */
  lemma RejectionOrthogonal(lib: FloatLib, a: Vector, b: Vector)
    requires Dot(b, b) != 0.0
    ensures Dot(Rejection(lib, a, b), b) == 0.0
  {
    var k := Div(lib, Dot(a, b), Dot(b, b));
    assert k * Dot(b, b) == Dot(a, b);
    DotAfterScaledSubtract(a, b, k);
  }

  lemma DotAfterScaledSubtract(a: Vector, b: Vector, k: real)
    ensures Dot(Subtract(a, MultiplyLeft(k, b)), b) == Dot(a, b) - k * Dot(b, b)
  {
    assert (a.X - b.X * k) * b.X == a.X * b.X - k * (b.X * b.X);
    assert (a.Y - b.Y * k) * b.Y == a.Y * b.Y - k * (b.Y * b.Y);
    assert (a.Z - b.Z * k) * b.Z == a.Z * b.Z - k * (b.Z * b.Z);
  }

  /** A rotation whose cosine is 1 and sine 0 leaves every point where it was. */
  lemma RotateByNothing(lib: FloatLib, v: Vector, point: Vector, direction: Vector, angle: real)
    requires lib.Cos(angle) == 1.0 && lib.Sin(angle) == 0.0
    ensures Rotate(lib, v, point, direction, angle) == v
  {
  }
}
