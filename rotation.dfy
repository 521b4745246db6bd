/**
 * Turning a mouse drag into a rotation of the scene: the drag vector
 * (dx, dy) becomes a rotation about the axis (dy, dx, 0) through the origin,
 * by an angle proportional to the drag's length. A drag of length zero
 * asks for no rotation at all.
 */
module RotationHelpers {
  import opened Common
  import opened FloatMath
  import opened Vectors

  /** Radians of rotation per unit of drag. */
  const MouseDragMultiplier: real := 0.005

  /** The arguments one call of the rotation delegate receives. */
  datatype Rotation = Rotation(Point: Vector, Direction: Vector, Angle: real)

  /**
   * `MouseDrag`: the rotation the delegate is called with, or `None` when the
   * drag vector's magnitude is not positive and the delegate is not called.
   */
  function MouseDrag(lib: FloatLib, deltaX: real, deltaY: real): (r: Option<Rotation>)
    ensures r.Some? <==> Magnitude(lib, Vector(deltaX, deltaY, 0.0)) > 0.0
    ensures r.Some? ==> r.value.Point == Zero && r.value.Direction == Vector(deltaY, deltaX, 0.0)
    ensures r.Some? ==> r.value.Angle == Magnitude(lib, Vector(deltaX, deltaY, 0.0)) * MouseDragMultiplier
    ensures r.Some? ==> r.value.Angle > 0.0
  {
    var vector := Vector(deltaX, deltaY, 0.0);
    if Magnitude(lib, vector) <= 0.0 then None
    else Some(Rotation(Zero, Vector(vector.Y, vector.X, 0.0), Magnitude(lib, vector) * MouseDragMultiplier))
  }

  /**
   * With a square root that maps zero to zero, a drag that did not move
   * the mouse never calls the rotation delegate.
   */
  lemma NoDragNoRotation(lib: FloatLib)
    requires lib.SqrtSound()
    ensures MouseDrag(lib, 0.0, 0.0).None?
  {
    assert Magnitude(lib, Vector(0.0, 0.0, 0.0)) == lib.Sqrt(0.0);
  }

  /** Every rotation a drag asks for turns about an axis in the screen plane. */
  lemma RotationAxisInScreenPlane(lib: FloatLib, deltaX: real, deltaY: real)
    requires MouseDrag(lib, deltaX, deltaY).Some?
    ensures Dot(MouseDrag(lib, deltaX, deltaY).value.Direction, ZAxis) == 0.0
    ensures Dot(MouseDrag(lib, deltaX, deltaY).value.Direction, Vector(deltaX, -deltaY, 0.0)) == 0.0
  {
  }
}
