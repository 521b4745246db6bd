/**
 * A mutable integer point. Its coordinates are C# `int`s and `Offset` adds
 * to them in an unchecked context, so the sums wrap around modulo 2^32
 * (see `Common.AddWrap`; `Common.AddWrapZero` and
 * `Common.AddWrapAssociative` give the offset-by-zero and composition laws).
 */
module Points {
  import opened Common

  class Point {
    var X: int32
    var Y: int32

    /** `Point()`: the origin. */
    constructor ()
      ensures X == 0 && Y == 0
    {
      X := 0;
      Y := 0;
    }

    /** `Point(int x, int y)`. */
    constructor At(x: int32, y: int32)
      ensures X == x && Y == y
    {
      X := x;
      Y := y;
    }

    /** Moves the point by `(xd, yd)`. */
    method Offset(xd: int32, yd: int32)
      modifies this
      ensures X == AddWrap(old(X), xd) && Y == AddWrap(old(Y), yd)
    {
      X := AddWrap(X, xd);
      Y := AddWrap(Y, yd);
    }
  }
}
