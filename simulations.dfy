/**
 * The window-facing side of the simulation: the mouse handlers that turn a
 * press, a drag and the wheel into rotations of the world and changes of
 * the camera's velocity. A drag is measured between successive move events;
 * the handlers keep whether a drag is under way and the previous mouse
 * location.
 */
module Simulations {
  import opened Common
  import opened FloatMath
  import opened Vectors
  import opened Points
  import opened RotationHelpers
  import opened Nodes
  import opened Worlds

  /**
   * How far a coordinate has moved since the previous event, `(int)(e - p)`,
   * where `p` is the previous location's coordinate or 0 when no location has
   * been recorded yet.
   */
  function Moved(lib: FloatLib, e: real, previous: Option<int32>): (d: int32)
    ensures previous.None? && -0x8000_0000 <= Truncate(e) < 0x8000_0000 ==> d as int == Truncate(e)
    ensures previous.Some? && -0x8000_0000 <= Truncate(e - previous.value as real) < 0x8000_0000 ==>
      d as int == Truncate(e - previous.value as real)
  {
    CastToInt32(lib, e - (if previous.None? then 0.0 else previous.value as real))
  }

  class Simulation {
    const model: World
    /** `_drag`: whether a drag gesture is under way. */
    var drag: bool
    /** `_previousMouseLocation`: the most recent mouse location, `null` before the first event. */
    var previous: Point?

    /** `Simulation()`: a fresh world, no drag, no previous location. */
    constructor (lib: FloatLib)
      ensures model.Valid() && fresh(model) && fresh(model.renderer)
      ensures model.nodes == [] && model.renderer.Math == lib
      ensures !drag && previous == null
    {
      model := new World(lib);
      drag := false;
      previous := null;
    }

    /** The previous location's X coordinate, if one has been recorded. */
    function PreviousX(): Option<int32>
      reads this`previous, previous
    {
      if previous == null then None else Some(previous.X)
    }

    /** The previous location's Y coordinate, if one has been recorded. */
    function PreviousY(): Option<int32>
      reads this`previous, previous
    {
      if previous == null then None else Some(previous.Y)
    }

    /**
     * The rotation a move to `(x, y)` asks of the world: none unless a drag is
     * under way, and otherwise the one the drag helper derives from the
     * distance moved since the previous location.
     */
    function DragRotation(x: real, y: real): (r: Option<Rotation>)
      reads this`drag, this`previous, previous
      ensures !drag ==> r.None?
      ensures r.Some? ==> r.value.Point == Zero && r.value.Angle > 0.0
      ensures r.Some? ==>
        r.value.Direction == Vector(Moved(model.renderer.Math, y, PreviousY()) as real, Moved(model.renderer.Math, x, PreviousX()) as real, 0.0)
      ensures r.Some? ==>
        r.value.Angle == Magnitude(model.renderer.Math,
          Vector(Moved(model.renderer.Math, x, PreviousX()) as real, Moved(model.renderer.Math, y, PreviousY()) as real, 0.0)) * MouseDragMultiplier
    {
      if drag then
        MouseDrag(model.renderer.Math,
          Moved(model.renderer.Math, x, PreviousX()) as real,
          Moved(model.renderer.Math, y, PreviousY()) as real)
      else None
    }

    /**
     * `MouseDown`: the truncated press position becomes the previous
     * location, a drag begins and the camera stops.
     */
    method MouseDown(x: real, y: real)
      modifies this`drag, this`previous, model`cameraZVelocity
      ensures drag && previous != null && fresh(previous)
      ensures previous.X == CastToInt32(model.renderer.Math, x)
      ensures previous.Y == CastToInt32(model.renderer.Math, y)
      ensures model.cameraZVelocity == 0.0
    {
      previous := new Point.At(CastToInt32(model.renderer.Math, x), CastToInt32(model.renderer.Math, y));
      drag := true;
      model.StopCamera();
    }

    /** `MouseUp`: the drag ends; the handler's value is `false`. */
    method MouseUp() returns (r: bool)
      modifies this`drag
      ensures !drag && !r
    {
      drag := false;
      r := drag;
    }

    /**
     * `MouseMove`: while a drag is under way, every node turns by the
     * rotation the movement asks for; otherwise no node moves. Either way
     * the event's location becomes the previous location.
     */
    method MouseMove(x: real, y: real, location: Point?)
      requires model.Valid()
      modifies this`previous, model.nodes`Location, model.nodes`Velocity, model.nodes`Acceleration
      ensures model.Valid() && previous == location && drag == old(drag)
      ensures old(DragRotation(x, y)).None? ==>
        forall i :: 0 <= i < |model.nodes| ==> model.nodes[i].State() == old(model.nodes[i].State())
      ensures old(DragRotation(x, y)).Some? ==>
        var rot := old(DragRotation(x, y)).value;
        forall i :: 0 <= i < |model.nodes| ==>
          model.nodes[i].State() == Rotated(model.renderer.Math, old(model.nodes[i].State()), rot.Point, rot.Direction, rot.Angle)
    {
      var dx := Moved(model.renderer.Math, x, PreviousX());
      var dy := Moved(model.renderer.Math, y, PreviousY());
      if drag {
        var rot := MouseDrag(model.renderer.Math, dx as real, dy as real);
        if rot.Some? {
          Rotate(rot.value.Point, rot.value.Direction, rot.value.Angle);
        }
      }
      previous := location;
    }

    /** `MouseWheel`: the wheel's truncated delta is passed to the camera. */
    method MouseWheel(delta: real)
      modifies model`cameraZVelocity
      ensures model.cameraZVelocity == old(model.cameraZVelocity) + CastToInt32(model.renderer.Math, delta) as real * CameraZAcceleration
    {
      model.MoveCamera(CastToInt32(model.renderer.Math, delta));
    }

    /** `Rotate`: forwards to the world. */
    method Rotate(point: Vector, direction: Vector, angle: real)
      requires model.Valid()
      modifies model.nodes`Location, model.nodes`Velocity, model.nodes`Acceleration
      ensures model.Valid()
      ensures forall i :: 0 <= i < |model.nodes| ==>
        model.nodes[i].State() == Rotated(model.renderer.Math, old(model.nodes[i].State()), point, direction, angle)
    {
      model.Rotate(point, direction, angle);
    }
  }

  /**
   * A move that returns to the previous location asks for no rotation, with
   * a square root that maps zero to zero, even in the middle of a drag.
   */
  lemma StillMouseDoesNotRotate(s: Simulation, x: int32, y: int32)
    requires s.previous != null && s.previous.X == x && s.previous.Y == y
    requires s.model.renderer.Math.SqrtSound()
    ensures s.DragRotation(x as real, y as real).None?
  {
    var lib := s.model.renderer.Math;
    assert Truncate(x as real - x as real) == 0;
    assert Moved(lib, x as real, s.PreviousX()) == 0;
    assert Moved(lib, y as real, s.PreviousY()) == 0;
    NoDragNoRotation(lib);
  }
}
