/**
 * The 3D renderer: a perspective projection onto the surface, a near-plane
 * test in front of every draw and fill, and the shading parameters used to
 * light polygons. Numbers the projection computes with square roots,
 * trigonometry and single-precision rounding come from the renderer's
 * `FloatLib`; the culling decisions, the derived constants and the clamp
 * are stated exactly.
 */
module Renderers {
  import opened Common
  import opened FloatMath
  import opened Vectors
  import opened Colors
  import opened Points
  import opened Surfaces

  /** The lightness component of a shade, forced into [0, 1]. */
  function Clamp01(x: real): (r: real)
    ensures 0.0 <= r <= 1.0
    ensures 0.0 <= x <= 1.0 ==> r == x
    ensures x > 1.0 ==> r == 1.0
    ensures x < 0.0 ==> r == 0.0
  {
    if x > 1.0 then 1.0 else if x < 0.0 then 0.0 else x
  }

  function Square(x: real): real
  {
    x * x
  }

  class Renderer {
    const lightingMultiplier: real := 0.5
    var lightingBrightness: real
    var lightingMaximum: real
    var lightingThreshold: real
    var lightingRatio: real
    var ideal: real
    var fov: real
    var Origin: Point
    var Camera: Vector
    var Light: Vector
    var Lighting: bool
    /** The floating-point routines the renderer computes with. */
    const Math: FloatLib

    /** The shadow threshold is always the shadow maximum scaled by the contrast ratio. */
    predicate Valid()
      reads this`lightingThreshold, this`lightingMaximum, this`lightingRatio
    {
      lightingThreshold == lightingMaximum * lightingRatio
    }

    /** `new Renderer()`: default shading, camera at (0, 0, 1000), and `FOV = 1000`. */
    constructor (lib: FloatLib)
      ensures Valid()
      ensures Math == lib && lightingBrightness == 0.0
      ensures lightingMaximum == 0.4 && lightingThreshold == 0.2 && lightingRatio == 0.5
      ensures fresh(Origin) && Origin.X == 0 && Origin.Y == 0
      ensures Camera == Vector(0.0, 0.0, 1000.0) && Light == Vector(0.0, 1000.0, 0.0) && Lighting
      ensures fov == 1000.0 && ideal == 1000.0
    {
      Math := lib;
      lightingBrightness := 0.0;
      lightingMaximum := 0.4;
      lightingThreshold := 0.2;
      lightingRatio := 0.5;
      Origin := new Point();
      Camera := Vector(0.0, 0.0, 1000.0);
      Light := Vector(0.0, 1000.0, 0.0);
      Lighting := true;
      new;
      SetFOV(1000.0);
    }

    function FOV(): real
      reads this
    {
      fov
    }

    /** The `FOV` setter: stores the field of view and derives `ideal = Camera.Z² / value`. */
    method SetFOV(value: real)
      modifies this`fov, this`ideal
      ensures fov == value && FOV() == value
      ensures ideal == Div(Math, Square(Camera.Z), value)
    {
      fov := value;
      ideal := Div(Math, Square(Camera.Z), value);
    }

    /** The `LightingOptimalRange` getter: `Sqrt(lightingBrightness / lightingMultiplier)`. */
    function LightingOptimalRange(): real
      reads this
    {
      Math.Sqrt(Div(Math, lightingBrightness, lightingMultiplier))
    }

    /** The `LightingOptimalRange` setter: the brightness is `value² * lightingMultiplier`. */
    method SetLightingOptimalRange(value: real)
      modifies this`lightingBrightness
      ensures lightingBrightness == value * value * lightingMultiplier
      ensures Div(Math, lightingBrightness, lightingMultiplier) == value * value
      ensures LightingOptimalRange() == Math.Sqrt(value * value)
    {
      lightingBrightness := value * value * lightingMultiplier;
    }

    function ShadowMaximum(): real
      reads this
    {
      lightingMaximum
    }

    /** The `ShadowMaximum` setter: re-derives the threshold from the current ratio. */
    method SetShadowMaximum(value: real)
      modifies this`lightingMaximum, this`lightingThreshold
      ensures Valid()
      ensures lightingMaximum == value && lightingThreshold == value * lightingRatio
      ensures ShadowMaximum() == value
    {
      lightingMaximum := value;
      lightingThreshold := value * lightingRatio;
    }

    function ShadowContrast(): real
      reads this
    {
      lightingRatio
    }

    /** The `ShadowContrast` setter: stores the ratio, then re-sets the maximum to itself. */
    method SetShadowContrast(value: real)
      modifies this`lightingRatio, this`lightingMaximum, this`lightingThreshold
      ensures Valid()
      ensures lightingRatio == value && lightingMaximum == old(lightingMaximum)
      ensures lightingThreshold == old(lightingMaximum) * value
      ensures ShadowContrast() == value && ShadowMaximum() == old(ShadowMaximum())
    {
      lightingRatio := value;
      SetShadowMaximum(lightingMaximum);
    }

    /** The near-plane test every draw and fill makes: only points in front of the camera are drawn. */
    predicate InFront(location: Vector)
      reads this`Camera
    {
      location.Z < Camera.Z
    }

    /** `ideal / Distance(vector, Camera)`: how much a unit at that point spans on screen. */
    function ComputeScale(vector: Vector): real
      reads this`ideal, this`Camera
    {
      Div(Math, ideal, Distance(Math, vector, Camera))
    }

    /** `(int)Math.Round(x)` for a double x. */
    function RoundToInt(x: real): int32
    {
      RoundToInt32(Math, x)
    }

    /** `ComputePoint`: the perspective projection of a point, relative to `Origin`. */
    function ComputePoint(location: Vector): ScreenPoint
      reads this`ideal, this`Camera, this`Origin, Origin`X, Origin`Y
    {
      var scale := ComputeScale(location);
      ScreenPoint(
        RoundToInt((location.X - Camera.X) * scale + Origin.X as real),
        RoundToInt((-location.Y + Camera.Y) * scale + Origin.Y as real))
    }

    /** `ComputePoints`: the projection of every vertex, in order, into a new array. */
    method ComputePoints(vectors: seq<Vector>) returns (points: array<ScreenPoint>)
      ensures fresh(points) && points.Length == |vectors|
      ensures forall i :: 0 <= i < |vectors| ==> points[i] == ComputePoint(vectors[i])
    {
      points := new ScreenPoint[|vectors|](_ => ScreenPoint(0, 0));
      for index := 0 to points.Length
        invariant forall i :: 0 <= i < index ==> points[i] == ComputePoint(vectors[i])
      {
        points[index] := ComputePoint(vectors[index]);
      }
    }

    /** A single-precision coordinate `(float)(offset * scale) + origin`. */
    function ScreenCoordinate(offset: real, scale: real, origin: int32): real
    {
      Math.ToSingle(Math.ToSingle(offset * scale) + Math.ToSingle(origin as real))
    }

    /** The call `DrawPoint` makes: a one-pixel rectangle at the rounded projection. */
    function PointCall(brush: bv32, location: Vector): SurfaceCall
      reads this`ideal, this`Camera, this`Origin, Origin`X, Origin`Y
    {
      var p := ComputePoint(location);
      FillRectangle(brush, Math.ToSingle(p.X as real), Math.ToSingle(p.Y as real), 1.0, 1.0)
    }

    /** The call `DrawSquare2D` (fill false) or `FillSquare2D` (fill true) makes. */
    function SquareCall(fill: bool, colour: bv32, location: Vector, width: real): SurfaceCall
      reads this`ideal, this`Camera, this`Origin, Origin`X, Origin`Y
    {
      var scale := ComputeScale(location);
      var x := ScreenCoordinate(location.X - Camera.X - width * 0.5, scale, Origin.X);
      var y := ScreenCoordinate(-location.Y + Camera.Y - width * 0.5, scale, Origin.Y);
      var side := Math.ToSingle(width * scale);
      if fill then FillRectangle(colour, x, y, side, side) else DrawRectangle(colour, x, y, side, side)
    }

    /** The call `DrawCircle2D` (fill false) or `FillCircle2D` (fill true) makes. */
    function CircleCall(fill: bool, colour: bv32, location: Vector, radius: real): SurfaceCall
      reads this`ideal, this`Camera, this`Origin, Origin`X, Origin`Y
    {
      var scale := ComputeScale(location);
      var x := ScreenCoordinate(location.X - Camera.X - radius, scale, Origin.X);
      var y := ScreenCoordinate(-location.Y + Camera.Y - radius, scale, Origin.Y);
      var diameter := Math.ToSingle(radius * scale * 2.0);
      if fill then FillEllipse(colour, x, y, diameter, diameter) else DrawEllipse(colour, x, y, diameter, diameter)
    }

    /**
     * The lightness `ComputeLighting` gives a polygon, before clamping: the
     * brightness falls off with the distance to the light, and faces seen
     * from the unlit side are shaded with the sine of the light angle.
     */
    function RawLightness(vertices: seq<Vector>): real
      requires |vertices| >= 3
      reads this
    {
      var centre := Average(Math, vertices);
      var a1 := To(Light, centre);
      var a2 := To(Camera, centre);
      var b := Cross(Subtract(vertices[1], vertices[0]), Subtract(vertices[2], vertices[0]));
      var num1 := Angle(Math, a1, b);
      var num2 := Angle(Math, a2, b);
      var num3 := Div(Math, lightingBrightness * 0.001, Magnitude(Math, a1));
      var half := Pi / 2.0;
      if (num1 < half && num2 > half) || (num1 > half && num2 < half) then
        num3 * (Abs(Math.Sin(num1)) * lightingMaximum + 1.0 - lightingMaximum - lightingThreshold)
      else
        num3 * (Abs(Math.Cos(num1)) * lightingThreshold + 1.0 - lightingThreshold)
    }

    /** The lightness written into the shade: the raw lightness clamped to [0, 1]. */
    function Lightness(vertices: seq<Vector>): (l: real)
      requires |vertices| >= 3
      reads this
      ensures 0.0 <= l <= 1.0
      ensures 0.0 <= RawLightness(vertices) <= 1.0 ==> l == RawLightness(vertices)
    {
      Clamp01(RawLightness(vertices))
    }

    /** `ComputeLighting`: the colour's hue and saturation with the computed lightness. */
    function ComputeLighting(colour: bv32, vertices: seq<Vector>): bv32
      requires |vertices| >= 3
      reads this
    {
      var hsl := Math.ColorToHsl(colour);
      Math.HslToColor((hsl.0, hsl.1, Lightness(vertices)))
    }

    /** The colour `FillPolygon` fills with: lit only when `Lighting` is on. */
    function PolygonBrush(colour: bv32, vertices: seq<Vector>): bv32
      requires Lighting ==> |vertices| >= 3
      reads this
    {
      if Lighting then ComputeLighting(colour, vertices) else colour
    }

    /** `DrawPolygon`: culled on the first vertex only; the pen is the colour's ARGB value read back. */
    method DrawPolygon(g: Surface, colour: Color, vertices: seq<Vector>) returns (drawn: bool)
      requires |vertices| >= 1
      modifies g`Calls
      ensures drawn <==> InFront(vertices[0])
      ensures !drawn ==> g.Calls == old(g.Calls)
      ensures drawn ==> exists points: seq<ScreenPoint> ::
        |points| == |vertices| &&
        (forall i :: 0 <= i < |vertices| ==> points[i] == ComputePoint(vertices[i])) &&
        g.Calls == old(g.Calls) + [Surfaces.DrawPolygon(colour.Value, points)]
    {
      if vertices[0].Z >= Camera.Z {
        return false;
      }
      var points := ComputePoints(vertices);
      var pen := ToUInt32(ArgbOf(colour.Value));
      ArgbRoundTrip(colour.Value);
      g.Record(Surfaces.DrawPolygon(pen, points[..]));
      return true;
    }

    /** `FillPolygon`: culled on the first vertex only; the brush is lit when `Lighting` is on. */
    method FillPolygon(g: Surface, colour: Color, vertices: seq<Vector>) returns (drawn: bool)
      requires |vertices| >= 1 && (Lighting && InFront(vertices[0]) ==> |vertices| >= 3)
      modifies g`Calls
      ensures drawn <==> InFront(vertices[0])
      ensures !drawn ==> g.Calls == old(g.Calls)
      ensures drawn ==> exists points: seq<ScreenPoint> ::
        |points| == |vertices| &&
        (forall i :: 0 <= i < |vertices| ==> points[i] == ComputePoint(vertices[i])) &&
        g.Calls == old(g.Calls) + [Surfaces.FillPolygon(PolygonBrush(colour.Value, vertices), points)]
    {
      if vertices[0].Z >= Camera.Z {
        return false;
      }
      var brush := PolygonBrush(colour.Value, vertices);
      var points := ComputePoints(vertices);
      g.Record(Surfaces.FillPolygon(brush, points[..]));
      return true;
    }

    method DrawPoint(g: Surface, brush: Color, location: Vector) returns (drawn: bool)
      modifies g`Calls
      ensures drawn <==> InFront(location)
      ensures g.Calls == old(g.Calls) + if drawn then [PointCall(brush.Value, location)] else []
    {
      if location.Z >= Camera.Z {
        return false;
      }
      g.Record(PointCall(brush.Value, location));
      return true;
    }

    method DrawSquare2D(g: Surface, pen: Color, location: Vector, width: real) returns (drawn: bool)
      modifies g`Calls
      ensures drawn <==> InFront(location)
      ensures g.Calls == old(g.Calls) + if drawn then [SquareCall(false, pen.Value, location, width)] else []
    {
      if location.Z >= Camera.Z {
        return false;
      }
      g.Record(SquareCall(false, pen.Value, location, width));
      return true;
    }

    method FillSquare2D(g: Surface, brush: Color, location: Vector, width: real) returns (drawn: bool)
      modifies g`Calls
      ensures drawn <==> InFront(location)
      ensures g.Calls == old(g.Calls) + if drawn then [SquareCall(true, brush.Value, location, width)] else []
    {
      if location.Z >= Camera.Z {
        return false;
      }
      g.Record(SquareCall(true, brush.Value, location, width));
      return true;
    }

    method DrawCircle2D(g: Surface, pen: Color, location: Vector, radius: real) returns (drawn: bool)
      modifies g`Calls
      ensures drawn <==> InFront(location)
      ensures g.Calls == old(g.Calls) + if drawn then [CircleCall(false, pen.Value, location, radius)] else []
    {
      if location.Z >= Camera.Z {
        return false;
      }
      g.Record(CircleCall(false, pen.Value, location, radius));
      return true;
    }

    /** Takes the brush as its packed value: the node's brush and the ring's colour are held as values. */
    method FillCircle2D(g: Surface, brush: bv32, location: Vector, radius: real) returns (drawn: bool)
      modifies g`Calls
      ensures drawn <==> InFront(location)
      ensures g.Calls == old(g.Calls) + if drawn then [CircleCall(true, brush, location, radius)] else []
    {
      if location.Z >= Camera.Z {
        return false;
      }
      g.Record(CircleCall(true, brush, location, radius));
      return true;
    }
  }
}
