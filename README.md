# ForceDirectedLib in Dafny

ForceDirectedLib draws a force-directed graph in 3D. A `World` holds nodes and
the edges between them. On every frame each node integrates its velocity and
acceleration, and a force pass gives it a new acceleration. A `Renderer`
projects the scene onto a 2D surface through a camera on the Z axis, and the
`Simulation` turns mouse gestures into rotations of the scene and moves of
the camera. The demo application also keeps a few pixel-buffer routines that
work in place on raw memory.

This project models that core in Dafny 4 and proves the properties the code
promises:

- **`Common`** holds C#'s 32-bit `int` as a newtype, unchecked wrap-around
  addition, the signed/unsigned reinterpretation, and the `Result`/`Option`
  datatypes.
- **`FloatMath`** models `double` as `real`. The routines whose results
  depend on rounding or are transcendental (`Math.Sqrt`, `Pow`, `Acos`,
  `Sin`, `Cos`, division by zero, out-of-range casts, `(float)`, the HSL
  conversions) are fields of a `FloatLib` value. Nothing proved here depends
  on what those fields compute. `Math.Round` (half to even) and the
  truncating `(int)` cast are defined exactly.
- **`Vectors`** is the `Vector` struct as a datatype. It has the
  componentwise algebra, `Sum` as an accumulator loop proved against a fold,
  and the algebraic laws.
- **`Colors`** is the packed ARGB `Color` class on `bv32`: channel getters
  and setters, the three `FromArgb` factories, and `ToArgb`.
- **`Points`** is the mutable integer `Point`, with a wrap-around `Offset`.
- **`Surfaces`** models `IGraphics` as a log of the calls made on it.
- **`Renderers`** is the `Renderer` class: the FOV and lighting setters with
  their invariant, the near-plane guard on every draw entry point, and the
  projection of points.
- **`Nodes`** is the `Node` class. The motion of one tick is a function on
  the three motion vectors, and `Node.Update` is proved to perform it. The
  module also has mass, the rotation, and the calls `Draw` makes.
- **`Edges`** is the `Edge` class and its culling rule.
- **`Worlds`** is the `World` class: adding nodes, connecting them (with the
  symmetric adjacency invariant), the frame update, the camera easing, and
  the random-pair connection with its retry bound. Random choice is
  nondeterministic.
- **`RotationHelpers`** turns a mouse drag into a rotation request.
- **`Simulations`** is the mouse state machine of `Simulation`.
- **`MemoryTools`** holds `FadeMul` and the doubling fill of
  `MemorySet32Dyn`, both on arrays.

## Model

| member | source | states |
|---|---|---|
| Common.UnsignedRoundTrip | ForceDirectedLib/Tools/Color.cs:9 | reading a `uint` as an `int` and back gives the same bits, so `new Color((int)v)` keeps `v` |
| Common.Wrap32Congruent | ForceDirectedLib/Tools/Point.cs:18-22 | the wrapped sum differs from the exact sum by a multiple of 2^32, and equals it when the sum fits in an `int` |
| Common.AddWrapZero | ForceDirectedLib/Tools/Point.cs:18-22 | offsetting by 0 leaves a coordinate unchanged |
| Common.AddWrapAssociative | ForceDirectedLib/Tools/Point.cs:18-22 | two successive unchecked offsets equal one offset by their wrapped sum |
| FloatMath.Div | ForceDirectedLib/Lattice/Renderer.cs:26 | division by a non-zero divisor is exact: the quotient times the divisor is the dividend |
| FloatMath.RoundHalfEvenNearest | ForceDirectedLib/Lattice/Renderer.cs:95 | `Math.Round` lands within one half of its argument, strictly so unless the argument is a tie, and ties go to the even integer |
| FloatMath.TruncateTowardZero | ForceDirectedLib/Source/Simulation.cs:174 | the `(int)` cast drops the fraction toward zero, from either side |
| FloatMath.CastInRange | ForceDirectedLib/Source/Simulation.cs:186-187 | when the truncated value fits in an `int`, `(int)x` is exactly that value |
| FloatMath.RoundToInt32IsCastOfRound | ForceDirectedLib/Lattice/Renderer.cs:95 | `(int)Math.Round(x)` is the truncating cast applied to the rounded value |
| Vectors.Sum | ForceDirectedLib/Lattice/Vector.cs:138-148 | the accumulator loop returns the left fold of `+` from `Zero`, whose coordinates are the sums of the coordinates |
| Vectors.SumXAppend | ForceDirectedLib/Lattice/Vector.cs:142-145 | appending a vector adds its coordinates to the coordinate sums |
| Vectors.SumIsComponentwise | ForceDirectedLib/Lattice/Vector.cs:138-148 | the fold is the vector of the three coordinate sums |
| Vectors.SumOfAppend | ForceDirectedLib/Lattice/Vector.cs:138-148 | the sum of a concatenation is the sum of the two sums |
| Vectors.EmptySumIsZero | ForceDirectedLib/Lattice/Vector.cs:140-147 | an empty collection sums to `Vector.Zero` |
| Vectors.SubtractIsAddNegate | ForceDirectedLib/Lattice/Vector.cs:47-57 | `a - b == a + (-b)` |
| Vectors.ScalarSidesAgree | ForceDirectedLib/Lattice/Vector.cs:28-30 | `s * a` and `a * s` are the same vector |
| Vectors.EqualsIsExact | ForceDirectedLib/Lattice/Vector.cs:61-68 | `==` holds exactly when all three coordinates agree, and `!=` is its negation |
| Vectors.DotSymmetric | ForceDirectedLib/Lattice/Vector.cs:70-73 | the dot product is symmetric |
| Vectors.CrossAntisymmetric | ForceDirectedLib/Lattice/Vector.cs:75-78 | swapping the factors of the cross product negates it, and a vector crossed with itself is zero |
| Vectors.CrossOrthogonal | ForceDirectedLib/Lattice/Vector.cs:70-78 | the cross product is orthogonal to both of its factors |
| Vectors.ToIsDisplacement | ForceDirectedLib/Lattice/Vector.cs:123-126 | `a.To(b)` is `b - a`: zero from a point to itself, reversed by swapping, and additive along a path |
| Vectors.ProjectionPlusRejection | ForceDirectedLib/Lattice/Vector.cs:90-98 | projection and rejection add back up to the original vector, for every `b` in the real-number model; for `b = 0` C# divides 0 by 0 and gets NaN, so there the identity holds only in the model |
| Vectors.RejectionOrthogonal | ForceDirectedLib/Lattice/Vector.cs:90-98 | for a non-zero `b`, the rejection is orthogonal to `b` |
| Vectors.Multiply | ForceDirectedLib/Lattice/Vector.cs:23-26 | `a * s` scales each coordinate; `MultiplyLaws` proves it unitary, composable and distributive over `+` |
| Vectors.MultiplyLeft | ForceDirectedLib/Lattice/Vector.cs:30 | `s * a` forwards to `Multiply(a, s)`; `ScalarSidesAgree` proves the two sides equal |
| Vectors.Divide | ForceDirectedLib/Lattice/Vector.cs:32-38 | `a / b` multiplies by the reciprocal `1.0 / b`; `DivideThenMultiply` proves it undone by `* b` for `b != 0` |
| Vectors.Add | ForceDirectedLib/Lattice/Vector.cs:40-45 | componentwise sum; `AddGroupLaws` proves it commutative and associative with identity `Zero` |
| Vectors.Subtract | ForceDirectedLib/Lattice/Vector.cs:47-52 | componentwise difference; `SubtractIsAddNegate` proves `a - b == a + (-b)` |
| Vectors.Negate | ForceDirectedLib/Lattice/Vector.cs:54-59 | componentwise negation; `AddGroupLaws` proves it the additive inverse and an involution |
| Vectors.Equals | ForceDirectedLib/Lattice/Vector.cs:61-66 | exact comparison of the three coordinates; `EqualsIsExact` proves it is value equality |
| Vectors.NotEquals | ForceDirectedLib/Lattice/Vector.cs:68 | the negation of `Equals`, as `EqualsIsExact` states |
| Vectors.Dot | ForceDirectedLib/Lattice/Vector.cs:70-73 | the sum of the coordinate products; `DotSymmetric` and `CrossOrthogonal` state its laws |
| Vectors.Cross | ForceDirectedLib/Lattice/Vector.cs:75-78 | the cross product; `CrossAntisymmetric` and `CrossOrthogonal` state its laws |
| Vectors.To | ForceDirectedLib/Lattice/Vector.cs:123-126 | `b - a`; `ToIsDisplacement` states its laws |
| Vectors.Magnitude | ForceDirectedLib/Lattice/Vector.cs:133-136 | the square root of the squared length; `UnitScalesBack` relates it to `Unit` |
| Vectors.Distance | ForceDirectedLib/Lattice/Vector.cs:85-88 | the square root of the squared coordinate differences; `DistanceSymmetric` proves it symmetric |
| Vectors.Unit | ForceDirectedLib/Lattice/Vector.cs:128-131 | the vector divided by its magnitude; `UnitScalesBack` proves it scales back to the vector |
| Vectors.Angle | ForceDirectedLib/Lattice/Vector.cs:80-83 | `Acos` of the dot product over the product of the magnitudes; `AngleSymmetric` proves it symmetric |
| Vectors.Projection | ForceDirectedLib/Lattice/Vector.cs:90-93 | `Dot(a, b) / Dot(b, b) * b`; `ProjectionPlusRejection` and `RejectionOrthogonal` state its laws |
| Vectors.Rejection | ForceDirectedLib/Lattice/Vector.cs:95-98 | `a - Projection(a, b)`; `ProjectionPlusRejection` and `RejectionOrthogonal` state its laws |
| Vectors.Rotate | ForceDirectedLib/Lattice/Vector.cs:100-121 | the rotation about an axis through a point, term for term; `RotateByNothing` states that a zero turn is the identity |
| Vectors.Average | ForceDirectedLib/Lattice/Vector.cs:150-153 | the sum divided by the count; `AverageTimesCount` proves the average times the count is the sum |
| Vectors.AddGroupLaws | ForceDirectedLib/Lattice/Vector.cs:40-59 | `+` is commutative and associative with identity `Zero`, `-a` is the inverse of `a`, and negating twice is the identity |
| Vectors.MultiplyLaws | ForceDirectedLib/Lattice/Vector.cs:23-28 | scaling by 1 is the identity, two scalings are one scaling by the product, and scaling distributes over `+` |
| Vectors.DivideThenMultiply | ForceDirectedLib/Lattice/Vector.cs:32-36 | for a non-zero divisor, `(a / b) * b == a` |
| Vectors.UnitScalesBack | ForceDirectedLib/Lattice/Vector.cs:128-136 | a vector of non-zero magnitude is its unit vector times its magnitude |
| Vectors.AverageTimesCount | ForceDirectedLib/Lattice/Vector.cs:150-153 | for a non-empty collection, the average times the count is the sum |
| Vectors.DistanceSymmetric | ForceDirectedLib/Lattice/Vector.cs:85-88 | `Distance(a, b) == Distance(b, a)` |
| Vectors.AngleSymmetric | ForceDirectedLib/Lattice/Vector.cs:80-83 | `Angle(a, b) == Angle(b, a)` |
| Vectors.RotateByNothing | ForceDirectedLib/Lattice/Vector.cs:100-121 | a rotation whose cosine is 1 and sine 0 leaves every point where it was |
| Colors.Pack | ForceDirectedLib/Tools/Color.cs:11-14 | packing four bytes as `A<<24 \| R<<16 \| G<<8 \| B` gives a word from which each getter reads back its own byte |
| Colors.PackOfChannels | ForceDirectedLib/Tools/Color.cs:11-14 | every word is the packing of its four channels |
| Colors.ChannelsDetermineValue | ForceDirectedLib/Tools/Color.cs:11-14 | two colours with the same four channels have the same value |
| Colors.WithAlpha | ForceDirectedLib/Tools/Color.cs:11 | the `A` setter's mask: alpha reads back as set, the other three channels are kept |
| Colors.WithRed | ForceDirectedLib/Tools/Color.cs:12 | the `R` setter's mask: red reads back as set, the other three channels are kept |
| Colors.WithGreen | ForceDirectedLib/Tools/Color.cs:13 | the `G` setter's mask: green reads back as set, the other three channels are kept |
| Colors.WithBlue | ForceDirectedLib/Tools/Color.cs:14 | the `B` setter's mask: blue reads back as set, the other three channels are kept |
| Colors.SetToSameIsIdentity | ForceDirectedLib/Tools/Color.cs:11-14 | setting a channel to the value it already has changes nothing |
| Colors.SettersCommute | ForceDirectedLib/Tools/Color.cs:11-12 | setting alpha and red gives the same colour in either order |
| Colors.LowByteOfSmall | ForceDirectedLib/Tools/Color.cs:23 | `alpha & 0xff` is `alpha` itself for `alpha` in 0..255 |
| Colors.AlphaOver | ForceDirectedLib/Tools/Color.cs:21-26 | `FromArgb(alpha, c)` has alpha `alpha & 0xff` and the red, green and blue of `c` |
| Colors.RgbChannels | ForceDirectedLib/Tools/Color.cs:28-31 | with components in 0..255, `FromArgb(r, g, b)` has alpha 0 and exactly those three channels |
| Colors.ArgbRoundTrip | ForceDirectedLib/Tools/Color.cs:33-35 | `new Color(c.ToArgb())` has `c`'s value back; the implicit `int` conversion is the same function |
| Colors.Color.Copy | ForceDirectedLib/Tools/Color.cs:7 | the copy constructor copies the value exactly |
| Colors.Color.constructor | ForceDirectedLib/Tools/Color.cs:8 | `Color(uint)` stores the value |
| Colors.Color.FromInt | ForceDirectedLib/Tools/Color.cs:9 | `Color(int)` stores the `int`'s bits read as unsigned |
| Colors.Color.SetA | ForceDirectedLib/Tools/Color.cs:11 | alpha becomes the new byte; red, green and blue are unchanged |
| Colors.Color.SetR | ForceDirectedLib/Tools/Color.cs:12 | red becomes the new byte; alpha, green and blue are unchanged |
| Colors.Color.SetG | ForceDirectedLib/Tools/Color.cs:13 | green becomes the new byte; alpha, red and blue are unchanged |
| Colors.Color.SetB | ForceDirectedLib/Tools/Color.cs:14 | blue becomes the new byte; alpha, red and green are unchanged |
| Colors.FromArgb | ForceDirectedLib/Tools/Color.cs:16-19 | a fresh colour holding the `int`'s bits |
| Colors.FromAlphaAndColor | ForceDirectedLib/Tools/Color.cs:21-26 | a fresh colour whose value is `AlphaOver(alpha, color.Value)` |
| Colors.FromRgb | ForceDirectedLib/Tools/Color.cs:28-31 | a fresh colour whose value is `r << 16 \| g << 8 \| b` |
| Points.Point.constructor | ForceDirectedLib/Tools/Point.cs:5-7 | `Point()` is (0, 0) |
| Points.Point.At | ForceDirectedLib/Tools/Point.cs:9-13 | `Point(x, y)` has `X == x` and `Y == y` |
| Points.Point.Offset | ForceDirectedLib/Tools/Point.cs:18-22 | each coordinate gains its offset, wrapping around modulo 2^32 |
| Surfaces.Surface.Record | ForceDirectedLib/Tools/IGraphics.cs:10-30 | a drawing call is appended to the surface's log and nothing else changes |
| RotationHelpers.MouseDrag | ForceDirectedLib/Lattice/RotationHelper.cs:7-17 | a rotation is requested exactly when the drag's magnitude is positive; it turns about `Zero`, about the axis (dy, dx, 0), by the magnitude times 0.005, a positive angle |
| RotationHelpers.NoDragNoRotation | ForceDirectedLib/Lattice/RotationHelper.cs:9-14 | with a square root that maps 0 to 0, a drag of (0, 0) requests no rotation |
| RotationHelpers.RotationAxisInScreenPlane | ForceDirectedLib/Lattice/RotationHelper.cs:16 | the rotation axis lies in the screen plane and is perpendicular to the drag (dx, -dy) as seen on screen |
| Renderers.Clamp01 | ForceDirectedLib/Lattice/Renderer.cs:113 | the lightness is clamped into [0, 1]: kept inside, 1 above, 0 below |
| Renderers.Renderer.constructor | ForceDirectedLib/Lattice/Renderer.cs:9-21 | the initial fields, including `fov == 1000`, `ideal == 1000`, and the lighting invariant |
| Renderers.Renderer.FOV | ForceDirectedLib/Lattice/Renderer.cs:23-25 | the `FOV` getter; `SetFOV` ensures it reads back the value set |
| Renderers.Renderer.LightingOptimalRange | ForceDirectedLib/Lattice/Renderer.cs:29-31 | the getter `Sqrt(brightness / 0.5)`; `SetLightingOptimalRange` ensures it is `Sqrt(value²)` after setting `value` |
| Renderers.Renderer.ShadowMaximum | ForceDirectedLib/Lattice/Renderer.cs:35-37 | the `ShadowMaximum` getter; `SetShadowMaximum` ensures it reads back the value set |
| Renderers.Renderer.ShadowContrast | ForceDirectedLib/Lattice/Renderer.cs:45-47 | the `ShadowContrast` getter; `SetShadowContrast` ensures it reads back the value set |
| Renderers.Renderer.InFront | ForceDirectedLib/Lattice/Renderer.cs:57 | the near-plane test `location.Z < Camera.Z`; every draw method ensures it draws exactly when this holds |
| Renderers.Renderer.ComputeScale | ForceDirectedLib/Lattice/Renderer.cs:98-101 | `ideal` over the distance from the camera; the projection and the 2D shapes scale by it |
| Renderers.Renderer.ComputePoint | ForceDirectedLib/Lattice/Renderer.cs:91-96 | the rounded projection relative to `Origin`; `ComputePoints` ensures it is applied to every vertex |
| Renderers.Renderer.ComputeLighting | ForceDirectedLib/Lattice/Renderer.cs:103-116 | the colour's hue and saturation with the lightness `Lightness`, which lies in [0, 1] |
| Renderers.Renderer.SetFOV | ForceDirectedLib/Lattice/Renderer.cs:23-27 | `fov` becomes the value, so the getter reads it back, and `ideal` becomes `Camera.Z² / value` |
| Renderers.Renderer.SetLightingOptimalRange | ForceDirectedLib/Lattice/Renderer.cs:29-33 | the brightness becomes `value² * 0.5`, so the getter's radicand is `value²` and the getter returns `Sqrt(value²)` |
| Renderers.Renderer.SetShadowMaximum | ForceDirectedLib/Lattice/Renderer.cs:35-43 | sets the maximum, which the getter reads back, and keeps `lightingThreshold == lightingMaximum * lightingRatio` |
| Renderers.Renderer.SetShadowContrast | ForceDirectedLib/Lattice/Renderer.cs:45-53 | sets the ratio, which the getter reads back, keeps the maximum, and re-establishes the threshold invariant |
| Renderers.Renderer.ComputePoints | ForceDirectedLib/Lattice/Renderer.cs:79-89 | a new array of the input's length whose element i is `ComputePoint(vectors[i])` |
| Renderers.Renderer.Lightness | ForceDirectedLib/Lattice/Renderer.cs:111-113 | the lightness written into the HSL triple lies in [0, 1], and is the raw value whenever that is already in range |
| Renderers.Renderer.DrawPolygon | ForceDirectedLib/Lattice/Renderer.cs:55-65 | draws exactly when `vertices[0]` is in front of the camera: then one polygon call with the projected points, otherwise no call |
| Renderers.Renderer.FillPolygon | ForceDirectedLib/Lattice/Renderer.cs:67-77 | as `DrawPolygon`, with the lit colour when `Lighting` is on and the plain colour otherwise |
| Renderers.Renderer.DrawPoint | ForceDirectedLib/Lattice/Renderer.cs:118-131 | returns whether the point is in front; exactly one 1x1 rectangle call when it is, none otherwise |
| Renderers.Renderer.DrawSquare2D | ForceDirectedLib/Lattice/Renderer.cs:133-147 | returns whether the location is in front; exactly one outlined square call when it is, none otherwise |
| Renderers.Renderer.FillSquare2D | ForceDirectedLib/Lattice/Renderer.cs:149-163 | returns whether the location is in front; exactly one filled square call when it is, none otherwise |
| Renderers.Renderer.DrawCircle2D | ForceDirectedLib/Lattice/Renderer.cs:165-179 | returns whether the location is in front; exactly one ellipse outline call when it is, none otherwise |
| Renderers.Renderer.FillCircle2D | ForceDirectedLib/Lattice/Renderer.cs:181-195 | returns whether the location is in front; exactly one filled ellipse call when it is, none otherwise |
| Nodes.Integrate | ForceDirectedLib/Source/Node.cs:183-196 | one tick clears the acceleration, and a locked node keeps its location |
| Nodes.Tick | ForceDirectedLib/Source/World.cs:187-231 | after a frame a node's acceleration is exactly the force computed for it, and a locked node has not moved |
| Nodes.UnlockedStep | ForceDirectedLib/Source/Node.cs:185-189 | an unlocked node moves by its velocity plus acceleration, and keeps that velocity damped by 0.4 |
| Nodes.LockedStep | ForceDirectedLib/Source/Node.cs:190-195 | a locked node's velocity is only damped, and its acceleration plays no part |
| Nodes.LockedNodeNeverMoves | ForceDirectedLib/Source/Node.cs:185-195 | whatever forces act over any number of frames, a locked node's location never changes |
| Nodes.LockedVelocityDecays | ForceDirectedLib/Source/Node.cs:194 | after n frames a locked node's velocity is its first velocity times 0.4^n |
| Nodes.RunEndsWithLastForce | ForceDirectedLib/Source/World.cs:198-231 | after any non-empty run of frames the acceleration is the last frame's force |
| Nodes.LabelAlpha | ForceDirectedLib/Source/Node.cs:221-224 | the label's alpha lies in 0..128 |
| Nodes.NearestLabelAlpha | ForceDirectedLib/Source/Node.cs:221-224 | within 500 of the camera the label's alpha is the maximum, 128 |
| Nodes.FarthestLabelAlpha | ForceDirectedLib/Source/Node.cs:221-224 | at 1500 or more from the camera the label's alpha is 0 |
| Nodes.Node.constructor | ForceDirectedLib/Source/Node.cs:159-167 | label, colour, brush and location as given; zero velocity and acceleration; no neighbours; unlocked |
| Nodes.Node.SetColour | ForceDirectedLib/Source/Node.cs:116-127 | the colour and the brush both take the new colour |
| Nodes.MassOf | ForceDirectedLib/Source/Node.cs:97 | five more than the neighbour count, counting no neighbours as one, summed as an `int` and converted exactly |
| Nodes.Node.Mass | ForceDirectedLib/Source/Node.cs:97 | the mass of the node's own neighbour count |
| Nodes.Node.MassCountsNeighbours | ForceDirectedLib/Source/Node.cs:97 | mass is at least 6, exactly 6 with at most one neighbour, and otherwise the neighbour count plus 5 |
| Nodes.GetRadius | ForceDirectedLib/Source/Node.cs:69-72 | `2.8 * Pow(mass, 1/3)` |
| Nodes.Node.Radius | ForceDirectedLib/Source/Node.cs:102 | `GetRadius` of the node's mass; `Draw` draws the node with this radius and the halo one unit wider |
| Nodes.Node.IsConnectedTo | ForceDirectedLib/Source/Node.cs:174-177 | whether the other node is a neighbour; `World.ConnectedBothWays` proves it symmetric between the nodes of a valid world |
| Nodes.Node.Update | ForceDirectedLib/Source/Node.cs:183-196 | the motion vectors become `Integrate` of the old ones; adjacency, label and lock are untouched |
| Nodes.Node.Rotate | ForceDirectedLib/Source/Node.cs:258-271 | the location is rotated about the axis through `point`; velocity and acceleration are each shifted by `point`, rotated about that axis, and shifted back |
| Nodes.Node.Draw | ForceDirectedLib/Source/Node.cs:204-250 | the surface receives exactly `DrawCalls`: the halo, the node and possibly its label |
| Nodes.Node.DrawLabel | ForceDirectedLib/Source/Node.cs:215-247 | the label call is made only with labels on, a label present, alpha above 1 and a positive scale |
| Nodes.Node.DrawCallsShape | ForceDirectedLib/Source/Node.cs:204-250 | a node behind the camera draws nothing; otherwise it makes two or three calls, halo first and then the node |
| Nodes.Node.LabelOnlyWhenVisible | ForceDirectedLib/Source/Node.cs:211-227 | a third call happens only for a visible node with labels on and a label, and it is that label's call |
| Nodes.Node.LabelIsTranslucentWhite | ForceDirectedLib/Source/Node.cs:224-246 | a label is drawn with its own text in white, with alpha in 2..128 |
| Nodes.RotatedByNothing | ForceDirectedLib/Source/Node.cs:258-271 | a rotation by a zero angle leaves a node's motion vectors unchanged |
| Edges.Edge.constructor | ForceDirectedLib/Source/Edge.cs:33-37 | the two ends are stored as given, in order |
| Edges.Edge.Draw | ForceDirectedLib/Source/Edge.cs:44-50 | one line between the projected ends when either end is in front of the camera, no call otherwise |
| Worlds.NextIndex | ForceDirectedLib/Lattice/PseudoRandom.cs:14-17 | `Random.Next(max)` fails for a negative bound, is 0 for a bound of 0, and is otherwise some index below the bound |
| Worlds.World.constructor | ForceDirectedLib/Source/World.cs:91-130 | empty node and edge lists, 0 frames, camera Z 5000 and at rest, renderer camera at (0, 0, 2000) with `ideal == 2000²/1400` |
| Worlds.World.NodeCount | ForceDirectedLib/Source/World.cs:72 | the number of nodes; `Add` and `AddRange` ensure it grows by the number of nodes added |
| Worlds.World.EdgeCount | ForceDirectedLib/Source/World.cs:77 | the number of edges; `Connect` ensures it grows by one exactly when the two nodes differ |
| Worlds.World.ConnectedBothWays | ForceDirectedLib/Source/World.cs:161-174 | in a valid world, a node connected to one of the world's nodes is connected back to it and known to the world |
| Worlds.World.Add | ForceDirectedLib/Source/World.cs:136-142 | the node, which has no neighbours or is already known to the world, is appended at the end; `NodeCount` grows by one; edges are untouched and the symmetric adjacency invariant holds |
| Worlds.World.AddRange | ForceDirectedLib/Source/World.cs:148-154 | the nodes are appended in order and `NodeCount` grows by their number; edges are untouched |
| Worlds.World.Connect | ForceDirectedLib/Source/World.cs:161-174 | for two nodes each without neighbours or already known to the world: `a == b` fails with the source's `ArgumentException` and changes nothing; otherwise each node gains the other as neighbour, one new `Edge(a, b)` is appended so `EdgeCount` grows by one, and symmetric adjacency is preserved |
| Worlds.World.Update | ForceDirectedLib/Source/World.cs:179-245 | every node takes one `Tick`; `halfWidth` is the largest absolute coordinate of any node, or 0; `Frames` grows by one iff there are nodes; the camera eases, stays at least 1, and the renderer follows it |
| Worlds.World.EaseCamera | ForceDirectedLib/Source/World.cs:240-244 | `cameraZ` becomes `max(1, z + v*z)`, the velocity is damped by 0.94, and the renderer's camera Z becomes `cameraZ` |
| Worlds.World.Rotate | ForceDirectedLib/Source/World.cs:253-259 | every node's motion vectors are rotated about the same axis |
| Worlds.World.MoveCamera | ForceDirectedLib/Source/World.cs:265-268 | the camera velocity gains `delta * -2e-4` |
| Worlds.World.StopCamera | ForceDirectedLib/Source/World.cs:273-276 | the camera velocity becomes 0 |
| Worlds.World.ConnectRandomNodes | ForceDirectedLib/Source/World.cs:435-453 | fails on an empty world; on success it has connected two different nodes, neither of them the last one and neither a neighbour of the other before, after fewer than `2 * NodeCount` rejected pairs, and no other node's neighbours change; it gives up after exactly `2 * NodeCount` rejected pairs without changing anything; with two nodes or fewer it never succeeds |
| Worlds.World.ConnectRandomNodesStep | ForceDirectedLib/Source/World.cs:421-433 | one draw of the unbounded loop: a pair is drawn from the drawable nodes; when the two differ and neither is a neighbour of the other, each gains the other as neighbour, no other node's neighbours change and `Edge(a, b)` is appended; otherwise it reports the rejection and changes nothing |
| Worlds.World.AddRandomNodeStep | ForceDirectedLib/Source/World.cs:410-419 | one round of node generation: a fresh unlocked node, at rest with the given colour and brush, is connected to a partner drawn from the drawable nodes, only the partner's neighbours change, `Edge(node, partner)` is appended, and the node is appended |
| Worlds.World.CreateInputOutputNode | ForceDirectedLib/Source/World.cs:455-464 | an opaque copy of the colour, the given location, no acceleration, locked, labelled "my label" |
| Worlds.IntegrateAll | ForceDirectedLib/Source/World.cs:185-193 | every node integrates once; `halfWidth` bounds every coordinate of every new location and is attained by one of them, or is 0 |
| Worlds.Widen | ForceDirectedLib/Source/World.cs:190-192 | the three `Math.Max` steps never shrink the half-width, leave it covering every coordinate of the location, and yield either the old half-width or the absolute value of one of the coordinates |
| Worlds.StepNodes | ForceDirectedLib/Source/World.cs:185-231 | the two node passes of a frame: every node ends in `Tick` of its old motion, with the half-width of the integration pass |
| Worlds.ApplyForces | ForceDirectedLib/Source/World.cs:198-231 | the force pass writes only accelerations, each gaining its node's force |
| Simulations.Moved | ForceDirectedLib/Source/Simulation.cs:186-187 | the movement is the truncated difference from the previous coordinate, or from 0 when there is none |
| Simulations.Simulation.constructor | ForceDirectedLib/Source/Simulation.cs:71-96 | a fresh, empty world, no drag and no previous location |
| Simulations.Simulation.DragRotation | ForceDirectedLib/Source/Simulation.cs:184-192 | no rotation unless a drag is under way; otherwise the rotation about `Zero` whose axis is the swapped movement and whose angle is the movement's magnitude times 0.005 |
| Simulations.Simulation.MouseDown | ForceDirectedLib/Source/Simulation.cs:172-178 | the truncated press position becomes the previous location, the drag starts, and the camera stops |
| Simulations.Simulation.MouseUp | ForceDirectedLib/Source/Simulation.cs:181 | the drag ends, the handler returns false, and nothing else changes |
| Simulations.Simulation.MouseMove | ForceDirectedLib/Source/Simulation.cs:184-195 | the nodes rotate by `DragRotation` while dragging and stay put otherwise; the event's location always becomes the previous location |
| Simulations.Simulation.MouseWheel | ForceDirectedLib/Source/Simulation.cs:198 | the camera velocity changes by `(int)delta * -2e-4` |
| Simulations.Simulation.Rotate | ForceDirectedLib/Source/Simulation.cs:247-250 | forwards to the world: every node rotates |
| Simulations.StillMouseDoesNotRotate | ForceDirectedLib/Source/Simulation.cs:184-192 | a move back onto the previous location requests no rotation, even during a drag |
| MemoryTools.LowByte | ForceDirectedLibDemo/Tools/ManagedMemoryTools.cs:446 | `(byte)nFadeDelta` is the delta modulo 256 |
| MemoryTools.Faded | ForceDirectedLibDemo/Tools/ManagedMemoryTools.cs:432-463 | bytes 0 to 2 of the first `count` pixels fade and nothing else changes; a 0 byte stays 0; any other byte c becomes `(c - d) mod 256` |
| MemoryTools.FadeNothing | ForceDirectedLibDemo/Tools/ManagedMemoryTools.cs:432-436 | a count of zero or less leaves the buffer unchanged |
| MemoryTools.FadeByZero | ForceDirectedLibDemo/Tools/ManagedMemoryTools.cs:444-457 | fading by 0 leaves the buffer unchanged |
| MemoryTools.FadeWraps | ForceDirectedLibDemo/Tools/ManagedMemoryTools.cs:444-447 | the fade wraps rather than saturating: 2 faded by 4 is 254 |
| MemoryTools.FadeMul | ForceDirectedLibDemo/Tools/ManagedMemoryTools.cs:426-463 | the pointer walk leaves the buffer equal to `Faded` of its old contents |
| MemoryTools.CopyForward | ForceDirectedLibDemo/Tools/ManagedMemoryTools.cs:384-408 | a front-to-back block copy: destination slots receive the source's original values before `dst`, and from there on the values the copy wrote itself; all other slots are unchanged |
| MemoryTools.MemorySet32 | ForceDirectedLibDemo/Tools/ManagedMemoryTools.cs:320-408 | for `count >= 1`, the first `count` slots all hold the value and no other slot changes. Inside the body, a loop invariant keeps the filled prefix a power of two, and an assertion shows the last copy overlaps its source by at most one slot; neither is part of the contract |

## Left out

- The octree and the force laws (`tree.Add`, `tree.Accelerate`, origin attraction, edge springs) are not modelled. Octree.cs is not part of this model, and the laws use square roots and float division. `Worlds.World.Update` receives each node's force as a parameter instead. The force pass is modelled as writing only accelerations.
- Rounding-dependent and transcendental numerics are not modelled: `Math.Sqrt`, `Pow`, `Acos`, `Sin`, `Cos`, `(float)` casts, and the HSL conversions in ColorConverter.cs. They are uninterpreted fields of `FloatLib`, so properties that depend on their values are not stated. `double` is `real`, with no NaN, infinity or rounding.
- `Parallel.ForEach` in `Update` and `Rotate` runs sequentially in the model. The node lock, the background tasks, `Stop` and `Task.WaitAll` are left out, because the model has no concurrency.
- `Worlds.World.ConnectRandomNodesStep`: the unbounded `ConnectRandomNodes()` retry loop is modelled one draw at a time, because it need not terminate.
- `Worlds.World.AddRandomNodeStep`: the generation loops of `AddRandomNodeThread` and `ConnectRandomNodesThread`, with their sleeps, are modelled one round at a time.
- `World.StartGeneration` is not modelled, because it depends on the system tick count and starts background threads. Its steps are `CreateInputOutputNode`, `Add`, `Connect` and the two generation rounds.
- `World.Draw` is not modelled: it sorts nodes by depth and then draws edges and nodes, whose own `Draw` methods are modelled.
- The `Node(colour)` and `Node(label, colour)` constructors are not modelled separately. They pick a random location, which the modelled constructor takes as a parameter.
- `Worlds.World.Add` requires the node not to be in the world already, and `Worlds.World.AddRange` requires its nodes to be distinct and new. The source accepts duplicates. The model keeps the node list duplicate-free so that the per-node update loops have one well-defined effect per node.
- `Worlds.World.ConnectRandomNodes`: `_nodes.Count * 2` is computed on unbounded integers, not on a wrapping 32-bit `int`. `Frames` is an unbounded integer, not a `long`.
- `Worlds.World.Update` does not recompute `ideal` when the camera moves, as in the source. Only the `FOV` setter changes it.
- `Renderers.Renderer.FillPolygon` requires at least one vertex, and at least three when lighting is on and the first vertex is in front of the camera; `Renderers.Renderer.DrawPolygon` requires at least one. On other inputs the source indexes `vertices[0]`, `vertices[1]` or `vertices[2]` without checking and throws.
- `RotationHelpers.MouseDrag` states that a non-zero drag rotates only through the magnitude, which is uninterpreted. It does not claim that every non-zero drag rotates, because that depends on `Math.Sqrt`.
- The label font cache, the label brush cache and the text layout of `Node.Draw` are not modelled. The label call records the text, brush alpha and position.
- `World.CreateInputOutputNode` ignores its label and `isInputNode` arguments, as the source does.
- FPS counters, timers, the info text and the paint handler of `Simulation` are not modelled.
- `MemoryTools.MemorySet32` requires `count >= 1`. For `count == 0` the source still writes slot 0 and then copies a negative length.
- `MemoryTools.CopyForward` assumes `cpblk` copies front to back, one slot at a time. The CLI leaves overlapping `cpblk` unspecified, and the final copy of the fill overlaps its source by one slot when `count` is one more than twice the filled prefix, as for `count` 3 or 5.
- `MemoryTools.MemorySet32` computes the byte lengths `4 * n` on unbounded integers. It does not model their 32-bit overflow for buffers of 2^29 slots or more.
- The dynamically emitted helpers of ManagedMemoryTools, `FadeMulParallel` and `FadeMulDYN` are not modelled. They are IL plumbing, a parallel loop and a float multiplier.
- The WPF view model, the attached event handlers and the bitmap surface of the demo are user-interface glue and are not modelled.
