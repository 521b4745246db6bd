/**
 * A node of the graph: where it is, how it moves, whom it is connected to,
 * and how it is drawn. The motion of one tick is specified by `Integrate`
 * on the three motion vectors, and `Node.Update` is proved to perform it.
 */
module Nodes {
  import opened Common
  import opened FloatMath
  import opened Vectors
  import opened Colors
  import opened Surfaces
  import opened Renderers
  import Points

  /** The factor velocity is damped by after every tick. */
  const VelocityDampening: real := 0.4

  /** The factor and the intercept of the label opacity equation. */
  const LabelOpacity: real := 0.5
  const LabelOpacityIntercept: real := 1.5

  /** Screen distance between a node's rim and its label. */
  const LabelOffset: int32 := 5

  /** The pen of the dark ring drawn just outside every node: `0xff555555`. */
  const HaloColour: bv32 := 0xff55_5555

  /** The colour a node gets when none is set: opaque black. */
  const DefaultColour: bv32 := 0xff00_0000

  /** The three vectors one tick of motion works on. */
  datatype Motion = Motion(Location: Vector, Velocity: Vector, Acceleration: Vector)

  /**
   * One tick of `Node.Update`. An unlocked node adds its acceleration to its
   * velocity and its velocity to its location; a locked node stays put. In
   * both cases the velocity is then damped and the acceleration cleared.
   * The vector sums and the product are written out coordinate by
   * coordinate; `Node.Update` performs them with `Add` and `Multiply`.
   */
  function Integrate(m: Motion, locked: bool): (r: Motion)
    ensures r.Acceleration == Zero
    ensures locked ==> r.Location == m.Location
  {
    var (p, v, a) := (m.Location, m.Velocity, m.Acceleration);
    var velocity := if locked then v else Vector(v.X + a.X, v.Y + a.Y, v.Z + a.Z);
    var location := if locked then p else Vector(p.X + velocity.X, p.Y + velocity.Y, p.Z + velocity.Z);
    Motion(location, Vector(velocity.X * VelocityDampening, velocity.Y * VelocityDampening, velocity.Z * VelocityDampening), Zero)
  }

  /**
   * One frame of `World.Update` for one node: the node integrates, and the
   * force pass then adds the force it computed to the cleared acceleration.
   */
  function Tick(m: Motion, locked: bool, force: Vector): (r: Motion)
    ensures r.Acceleration == force
    ensures locked ==> r.Location == m.Location
  {
    var n := Integrate(m, locked);
    n.(Acceleration := Add(n.Acceleration, force))
  }

  /** A frame is the integration step followed by the force pass on its result. */
  lemma TickIsIntegrateThenForce(m: Motion, locked: bool, force: Vector, mid: Motion, after: Motion)
    requires mid == Integrate(m, locked)
    requires after == Motion(mid.Location, mid.Velocity, Add(mid.Acceleration, force))
    ensures after == Tick(m, locked, force)
  {
  }

  /** The motion after one frame per element of `forces`, each the force computed in that frame. */
  function Run(m: Motion, locked: bool, forces: seq<Vector>): Motion
    decreases |forces|
  {
    if |forces| == 0 then m
    else Run(Tick(m, locked, forces[0]), locked, forces[1..])
  }

  /** `0.4` to the power `n`: how much of a locked node's velocity survives `n` frames. */
  function Decay(n: nat): real
  {
    if n == 0 then 1.0 else VelocityDampening * Decay(n - 1)
  }

  /** An unlocked node moves by its velocity plus its acceleration and keeps 40% of that speed. */
  lemma UnlockedStep(m: Motion)
    ensures Integrate(m, false).Location == Add(m.Location, Add(m.Velocity, m.Acceleration))
    ensures Integrate(m, false).Velocity == Multiply(Add(m.Velocity, m.Acceleration), VelocityDampening)
  {
  }

  /** A locked node keeps 40% of its velocity, whatever its acceleration. */
  lemma LockedStep(m: Motion)
    ensures Integrate(m, true).Velocity == Multiply(m.Velocity, VelocityDampening)
    ensures Integrate(m, true) == Integrate(m.(Acceleration := Zero), true)
  {
  }

  /** Whatever forces act on it, over any number of frames a locked node never moves. */
  lemma {:induction false} LockedNodeNeverMoves(m: Motion, forces: seq<Vector>)
    ensures Run(m, true, forces).Location == m.Location
    decreases |forces|
  {
    if |forces| > 0 {
      LockedNodeNeverMoves(Tick(m, true, forces[0]), forces[1..]);
    }
  }

  /** After `n` frames a locked node's velocity is its old velocity times `0.4^n`. */
  lemma {:induction false} LockedVelocityDecays(m: Motion, forces: seq<Vector>)
    ensures Run(m, true, forces).Velocity == Multiply(m.Velocity, Decay(|forces|))
    decreases |forces|
  {
    if |forces| == 0 {
      assert Multiply(m.Velocity, 1.0) == m.Velocity;
    } else {
      LockedVelocityDecays(Tick(m, true, forces[0]), forces[1..]);
      MultiplyTwice(m.Velocity, VelocityDampening, Decay(|forces| - 1));
    }
  }

  lemma MultiplyTwice(v: Vector, s: real, t: real)
    ensures Multiply(Multiply(v, s), t) == Multiply(v, s * t)
  {
  }

  /** After at least one frame the acceleration is the force of the last frame, locked or not. */
  lemma {:induction false} RunEndsWithLastForce(m: Motion, locked: bool, forces: seq<Vector>)
    requires |forces| > 0
    ensures Run(m, locked, forces).Acceleration == forces[|forces| - 1]
    decreases |forces|
  {
    if |forces| > 1 {
      RunEndsWithLastForce(Tick(m, locked, forces[0]), locked, forces[1..]);
      assert forces[1..][|forces[1..]| - 1] == forces[|forces| - 1];
    }
  }

  /** `Node.GetRadius`: `2.8 * mass^(1/3)`. */
  function GetRadius(lib: FloatLib, mass: real): real
  {
    2.8 * lib.Pow(mass, 1.0 / 3.0)
  }

  /**
   * The alpha of a node's label: the opacity falls off with the distance to
   * the camera, is clamped to [0, 1] and halved, and is then scaled to a
   * byte and rounded half-to-even.
   */
  function LabelAlpha(lib: FloatLib, location: Vector, camera: Vector): (alpha: int32)
    ensures 0 <= alpha <= 128
  {
    var distance := Magnitude(lib, To(location, camera));
    var opacity := Min(Max(LabelOpacityIntercept - distance / 1000.0, 0.0), 1.0) * LabelOpacity;
    RoundHalfEvenNearest(255.0 * opacity);
    RoundToInt32(lib, 255.0 * opacity)
  }

  /** A label at full opacity, right next to the camera, gets alpha 128: `Math.Round(127.5)` is even. */
  lemma NearestLabelAlpha(lib: FloatLib, location: Vector, camera: Vector)
    requires Magnitude(lib, To(location, camera)) <= 500.0
    ensures LabelAlpha(lib, location, camera) == 128
  {
  }

  /** A label at least 1.5 units of 1000 away from the camera is fully transparent. */
  lemma FarthestLabelAlpha(lib: FloatLib, location: Vector, camera: Vector)
    requires Magnitude(lib, To(location, camera)) >= 1500.0
    ensures LabelAlpha(lib, location, camera) == 0
  {
  }

  /**
   * The mass of a node with `count` neighbours: five more than the count,
   * counting an isolated node as having one. The sum is an `int`, and its
   * conversion to `double` is exact.
   */
  function MassOf(count: nat): real
  {
    ((if count > 0 then count else 1) + 5) as real
  }

  class Node {
    var Connected: set<Node>
    var Location: Vector
    var Velocity: Vector
    var Acceleration: Vector
    var Label: Option<string>
    var Colour: Color
    /**
     * The brush the node is filled with: a copy of `Colour` taken when it was
     * set. No other object holds that copy, so the model keeps its value.
     */
    var brush: bv32
    var LockLocation: bool

    /** `Node(label, colour, location)`: at rest at the given location, connected to nothing. */
    constructor (text: Option<string>, colour: Color, location: Vector)
      ensures Label == text && Colour == colour && brush == colour.Value
      ensures Location == location && Velocity == Zero && Acceleration == Zero
      ensures Connected == {} && !LockLocation
    {
      Label := text;
      Colour := colour;
      brush := colour.Value;
      Location := location;
      Velocity := Zero;
      Acceleration := Zero;
      Connected := {};
      LockLocation := false;
    }

    /** The `Colour` setter: the brush is a copy, so later changes to the colour object do not reach it. */
    method SetColour(colour: Color)
      modifies this`Colour, this`brush
      ensures Colour == colour && brush == colour.Value
    {
      Colour := colour;
      brush := colour.Value;
    }

    /** `Mass`: the mass of a node with this node's number of neighbours. */
    function Mass(): real
      reads this`Connected
    {
      MassOf(|Connected|)
    }

    /** A node weighs at least 6: exactly 6 with at most one neighbour, and otherwise five more than their number. */
    lemma MassCountsNeighbours()
      ensures Mass() >= 6.0
      ensures |Connected| <= 1 ==> Mass() == 6.0
      ensures |Connected| >= 1 ==> Mass() == |Connected| as real + 5.0
    {
    }

    function Radius(lib: FloatLib): real
      reads this`Connected
    {
      GetRadius(lib, Mass())
    }

    predicate IsConnectedTo(other: Node)
      reads this`Connected
    {
      other in Connected
    }

    /** The node's motion vectors as one value. */
    function State(): Motion
      reads this
    {
      Motion(Location, Velocity, Acceleration)
    }

    /** `Update`: one tick of motion, which touches nothing but the three motion vectors. */
    method Update()
      modifies this`Location, this`Velocity, this`Acceleration
      ensures State() == Integrate(old(State()), LockLocation)
    {
      if !LockLocation {
        Velocity := Add(Velocity, Acceleration);
        Location := Add(Location, Velocity);
      }
      Velocity := Multiply(Velocity, VelocityDampening);
      Acceleration := Zero;
    }

    /**
     * `Rotate`: the location is rotated about the axis through `point`;
     * velocity and acceleration are shifted by `point`, rotated the same way,
     * and shifted back.
     */
    method Rotate(lib: FloatLib, point: Vector, direction: Vector, angle: real)
      modifies this`Location, this`Velocity, this`Acceleration
      ensures State() == Rotated(lib, old(State()), point, direction, angle)
    {
      Location := Vectors.Rotate(lib, Location, point, direction, angle);
      Velocity := Add(Velocity, point);
      Velocity := Vectors.Rotate(lib, Velocity, point, direction, angle);
      Velocity := Subtract(Velocity, point);
      Acceleration := Add(Acceleration, point);
      Acceleration := Vectors.Rotate(lib, Acceleration, point, direction, angle);
      Acceleration := Subtract(Acceleration, point);
    }

    /** The calls `Draw` makes on the surface. */
    function DrawCalls(renderer: Renderer, showLabels: bool): seq<SurfaceCall>
      reads this`Location, this`Label, this`brush, this`Connected,
        renderer`ideal, renderer`Camera, renderer`Origin, renderer.Origin`X, renderer.Origin`Y
    {
      var radius := Radius(renderer.Math);
      if !renderer.InFront(Location) then []
      else
        [renderer.CircleCall(true, HaloColour, Location, radius + 1.0),
         renderer.CircleCall(true, brush, Location, radius)]
        + LabelCalls(renderer, showLabels, radius)
    }

    /** The label `Draw` adds once the node itself is visible, if it adds one. */
    function LabelCalls(renderer: Renderer, showLabels: bool, radius: real): seq<SurfaceCall>
      reads this`Location, this`Label, this`brush, this`Connected,
        renderer`ideal, renderer`Camera, renderer`Origin, renderer.Origin`X, renderer.Origin`Y
    {
      if showLabels && Label.Some? && LabelCall(renderer, Label.value, radius).Some? then
        [LabelCall(renderer, Label.value, radius).value]
      else []
    }

    /**
     * The label text at its place: only when its alpha exceeds 1 and the
     * projection scale is positive, in white at that alpha, `radius * scale`
     * plus 5 pixels to the right of the node's projection.
     */
    function LabelCall(renderer: Renderer, text: string, radius: real): Option<SurfaceCall>
      reads this`Location, this`Label, this`brush, this`Connected,
        renderer`ideal, renderer`Camera, renderer`Origin, renderer.Origin`X, renderer.Origin`Y
    {
      var alpha := LabelAlpha(renderer.Math, Location, renderer.Camera);
      if renderer.ComputeScale(Location) > 0.0 && alpha > 1 then
        var radiusOffset := renderer.RoundToInt(radius * renderer.ComputeScale(Location));
        var p := renderer.ComputePoint(Location);
        Some(DrawStringAt(text, AlphaOver(alpha, 0xffff_ffff),
                          ScreenPoint(AddWrap(p.X, AddWrap(radiusOffset, LabelOffset)), AddWrap(p.Y, 0))))
      else None
    }

    /**
     * `Draw`: a dark ring, then the node; then, only if the node was drawn,
     * labels are on and the node has one, its label.
     */
    method Draw(renderer: Renderer, g: Surface, showLabels: bool)
      modifies g`Calls
      ensures g.Calls == old(g.Calls + DrawCalls(renderer, showLabels))
    {
      var radius := Radius(renderer.Math);
      var _ := renderer.FillCircle2D(g, HaloColour, Location, radius + 1.0);
      var drawn := renderer.FillCircle2D(g, brush, Location, radius);
      if drawn {
        DrawLabel(renderer, g, showLabels, radius);
      }
    }

    /**
     * The label part of `Draw`: the text is drawn only when labels are on,
     * the node has one, and its alpha and scale make it visible.
     */
    method DrawLabel(renderer: Renderer, g: Surface, showLabels: bool, radius: real)
      modifies g`Calls
      ensures g.Calls == old(g.Calls) + LabelCalls(renderer, showLabels, radius)
    {
      if showLabels && Label.Some? {
        var caption := LabelCall(renderer, Label.value, radius);
        if caption.Some? {
          g.Record(caption.value);
        }
      }
    }

    /** A node behind the camera draws nothing; one in front draws its ring and itself, then at most a label. */
    lemma DrawCallsShape(renderer: Renderer, showLabels: bool)
      ensures !renderer.InFront(Location) ==> DrawCalls(renderer, showLabels) == []
      ensures renderer.InFront(Location) ==> 2 <= |DrawCalls(renderer, showLabels)| <= 3
      ensures renderer.InFront(Location) ==>
        DrawCalls(renderer, showLabels)[0].FillEllipse? && DrawCalls(renderer, showLabels)[0].brush == HaloColour &&
        DrawCalls(renderer, showLabels)[1].FillEllipse? && DrawCalls(renderer, showLabels)[1].brush == brush
    {
    }

    /** A label is drawn only for a visible node with a label, when labels are on. */
    lemma LabelOnlyWhenVisible(renderer: Renderer, showLabels: bool)
      requires |DrawCalls(renderer, showLabels)| == 3
      ensures renderer.InFront(Location) && showLabels && Label.Some?
      ensures LabelCall(renderer, Label.value, Radius(renderer.Math)).Some?
      ensures DrawCalls(renderer, showLabels)[2] == LabelCall(renderer, Label.value, Radius(renderer.Math)).value
    {
    }

    /** A label is its text in translucent white, with an alpha above 1 and at most 128. */
    lemma LabelIsTranslucentWhite(renderer: Renderer, text: string, radius: real)
      requires LabelCall(renderer, text, radius).Some?
      ensures LabelCall(renderer, text, radius).value.DrawStringAt?
      ensures LabelCall(renderer, text, radius).value.text == text
      ensures RedOf(LabelCall(renderer, text, radius).value.brush) == 0xff
      ensures GreenOf(LabelCall(renderer, text, radius).value.brush) == 0xff
      ensures BlueOf(LabelCall(renderer, text, radius).value.brush) == 0xff
      ensures 1 < AlphaOf(LabelCall(renderer, text, radius).value.brush) as int <= 128
    {
      LowByteOfSmall(LabelAlpha(renderer.Math, Location, renderer.Camera));
    }
  }

  /**
   * `Node.Rotate` on the motion vectors: the location is rotated about the
   * axis through `point`; velocity and acceleration are shifted by `point`,
   * rotated the same way, and shifted back.
   */
  function Rotated(lib: FloatLib, m: Motion, point: Vector, direction: Vector, angle: real): Motion
  {
    Motion(
      Vectors.Rotate(lib, m.Location, point, direction, angle),
      Subtract(Vectors.Rotate(lib, Add(m.Velocity, point), point, direction, angle), point),
      Subtract(Vectors.Rotate(lib, Add(m.Acceleration, point), point, direction, angle), point))
  }

  /** A rotation whose cosine is 1 and sine 0 leaves a node's motion as it was. */
  lemma RotatedByNothing(lib: FloatLib, m: Motion, point: Vector, direction: Vector, angle: real)
    requires lib.Cos(angle) == 1.0 && lib.Sin(angle) == 0.0
    ensures Rotated(lib, m, point, direction, angle) == m
  {
    RotateByNothing(lib, m.Location, point, direction, angle);
    RotateByNothing(lib, Add(m.Velocity, point), point, direction, angle);
    RotateByNothing(lib, Add(m.Acceleration, point), point, direction, angle);
  }
}
