/**
 * The world model: the nodes and edges of the graph, the frame counter and
 * the camera's zoom. The force laws and the octree they use are not part of
 * the model: the force pass is represented by the force it computes for
 * each node, which `Update` receives as an argument. Random choices go
 * through `NextIndex`, which may return any index `Random.Next` may.
 */
module Worlds {
  import opened Common
  import opened FloatMath
  import opened Vectors
  import opened Colors
  import opened Renderers
  import opened Nodes
  import opened Edges

  /** How much each dent of the mouse wheel adds to the camera's velocity. */
  const CameraZAcceleration: real := -0.0002

  /** The factor the camera's velocity is eased by after every frame. */
  const CameraZEasing: real := 0.94

  /**
   * `Random.Next(max)`: fails for a negative bound, is 0 for a bound of 0,
   * and is otherwise any index below the bound.
   */
  method NextIndex(max: int) returns (r: Result<nat>)
    ensures max < 0 <==> r.Failure?
    ensures max < 0 ==> r.error == ArgumentOutOfRangeException("maxValue")
    ensures max == 0 ==> r == Success(0)
    ensures max > 0 ==> r.Success? && r.value < max
  {
    if max < 0 {
      return Failure(ArgumentOutOfRangeException("maxValue"));
    } else if max == 0 {
      return Success(0);
    }
    var i :| 0 <= i < max;
    return Success(i);
  }

  /** Whether every coordinate of `v` lies within `w` of zero. */
  predicate WithinHalfWidth(v: Vector, w: real)
  {
    -w <= v.X <= w && -w <= v.Y <= w && -w <= v.Z <= w
  }

  /** Whether `w` is the absolute value of one of the coordinates of `v`. */
  predicate IsAbsCoordinate(w: real, v: Vector)
  {
    0.0 <= w && (w == v.X || w == -v.X || w == v.Y || w == -v.Y || w == v.Z || w == -v.Z)
  }

  /**
   * The three `Math.Max` steps of the integration pass: the half-width grows
   * just enough to cover every coordinate of `v`, so it never shrinks and is
   * either what it was or the absolute value of one of `v`'s coordinates.
   */
  function Widen(w: real, v: Vector): (r: real)
    ensures w <= r && WithinHalfWidth(v, r)
    ensures r == w || IsAbsCoordinate(r, v)
  {
    Max(Abs(v.Z), Max(Abs(v.Y), Max(Abs(v.X), w)))
  }

  /** No node is listed twice. */
  ghost predicate Distinct(ns: seq<Node>)
  {
    forall i, j :: 0 <= i < j < |ns| ==> ns[i] != ns[j]
  }

  class World {
    const renderer: Renderer
    var nodes: seq<Node>
    var edges: seq<Edge>
    var Frames: int
    var cameraZ: real
    var cameraZVelocity: real

    /** Every node an edge has ever been attached to. */
    ghost var Ends: set<Node>

    /**
     * The world's invariant: the renderer's shading is consistent, the
     * camera never comes closer than 1, no node is listed twice,
     * connectedness is symmetric, and every edge joins two different nodes
     * that list each other as connected.
     */
    ghost predicate Valid()
      reads this, renderer, Ends`Connected, nodes`Connected
    {
      renderer.Valid() && cameraZ >= 1.0 && Frames >= 0 && Distinct(nodes) &&
      Symmetric() && NodesKnown() && EdgesJoinNeighbours()
    }

    /** Whenever a node lists another as connected, the other lists it back. */
    ghost predicate Symmetric()
      reads this`Ends, Ends`Connected
    {
      forall n, m :: n in Ends && m in n.Connected ==> m in Ends && n in m.Connected
    }

    /** A node of the world has either never been connected or is one of the `Ends`. */
    ghost predicate NodesKnown()
      reads this`nodes, this`Ends, nodes`Connected
    {
      forall n :: n in nodes ==> n in Ends || n.Connected == {}
    }

    /** Every edge joins two different nodes that list each other as connected. */
    ghost predicate EdgesJoinNeighbours()
      reads this`edges, this`Ends, Ends`Connected
    {
      forall e :: e in edges ==>
        e.Node1 in Ends && e.Node2 in Ends &&
        e.Node1 != e.Node2 && e.Node2 in e.Node1.Connected && e.Node1 in e.Node2.Connected
    }

    /** In a valid world, `IsConnectedTo` between its nodes goes both ways. */
    lemma ConnectedBothWays(n: Node, m: Node)
      requires Valid() && n in nodes && n.IsConnectedTo(m)
      ensures m.IsConnectedTo(n) && m in Ends
    {
    }

    /**
     * `new World()`: no nodes or edges, the camera at 5000 and still, and a
     * renderer with its camera at (0, 0, 2000) and `FOV = 1400`.
     */
    constructor (lib: FloatLib)
      ensures Valid() && fresh(renderer)
      ensures nodes == [] && edges == [] && Frames == 0
      ensures cameraZ == 5000.0 && cameraZVelocity == 0.0
      ensures renderer.Math == lib && renderer.Camera == Vector(0.0, 0.0, 2000.0)
      ensures renderer.fov == 1400.0 && renderer.ideal == 20000.0 / 7.0
    {
      var r := new Renderer(lib);
      r.Camera := Vector(0.0, 0.0, 2000.0);
      r.SetFOV(1400.0);
      assert Square(2000.0) == 4000000.0;
      renderer := r;
      nodes := [];
      edges := [];
      Ends := {};
      Frames := 0;
      cameraZ := 5000.0;
      cameraZVelocity := 0.0;
    }

    function NodeCount(): nat
      reads this
    {
      |nodes|
    }

    function EdgeCount(): nat
      reads this
    {
      |edges|
    }

    /**
     * `Add`: the node goes to the end of the list; the edges are untouched.
     * The node is either new to the graph or already one of its `Ends`.
     */
    method Add(node: Node)
      requires Valid() && node !in nodes
      requires node in Ends || node.Connected == {}
      modifies this`nodes
      ensures Valid() && nodes == old(nodes) + [node]
      ensures NodeCount() == old(NodeCount()) + 1
    {
      nodes := nodes + [node];
    }

    /** `AddRange`: the nodes go to the end of the list, in order. */
    method AddRange(more: seq<Node>)
      requires Valid()
      requires forall i, j :: 0 <= i < j < |more| ==> more[i] != more[j]
      requires forall n :: n in more ==> n !in nodes
      requires forall n :: n in more ==> n in Ends || n.Connected == {}
      modifies this`nodes
      ensures Valid() && nodes == old(nodes) + more
      ensures NodeCount() == old(NodeCount()) + |more|
    {
      var all := nodes + more;
      forall i, j | 0 <= i < j < |all|
        ensures all[i] != all[j]
      {
        if j >= |nodes| && i < |nodes| {
          assert all[j] in more;
        }
      }
      nodes := all;
    }

    /**
     * `Connect(a, b)`: refuses to connect a node to itself and then changes
     * nothing; otherwise each node gains the other as a neighbour and one
     * new edge from a to b is appended, even when the two were connected
     * already. Each of the two is a node of the graph or a node that has
     * never been connected, as every node built by the source starts out.
     */
    method Connect(a: Node, b: Node) returns (outcome: Outcome)
      requires Valid()
      requires (a in Ends || a.Connected == {}) && (b in Ends || b.Connected == {})
      modifies a`Connected, b`Connected, this`edges, this`Ends
      ensures Valid()
      ensures a == b ==> outcome == Failed(ArgumentException("Cannot connect a node to itself."))
      ensures a == b ==> a.Connected == old(a.Connected) && edges == old(edges)
      ensures a != b ==> outcome == Done
      ensures a != b ==> a.Connected == old(a.Connected) + {b} && b.Connected == old(b.Connected) + {a}
      ensures a != b ==> |edges| == |old(edges)| + 1 && edges[..|old(edges)|] == old(edges)
      ensures EdgeCount() == old(EdgeCount()) + if a == b then 0 else 1
      ensures a != b ==> fresh(edges[|old(edges)|]) && edges[|old(edges)|].Node1 == a && edges[|old(edges)|].Node2 == b
    {
      if a == b {
        return Failed(ArgumentException("Cannot connect a node to itself."));
      }
      a.Connected := a.Connected + {b};
      b.Connected := b.Connected + {a};
      var e := new Edge(a, b);
      edges := edges + [e];
      Ends := Ends + {a, b};
      return Done;
    }

    /**
     * `Update`: integrates every node, measuring the tree half-width on the
     * new locations; applies the force computed for each node to its
     * acceleration; counts the frame if there are nodes; then eases the
     * camera toward its velocity, never closer than 1, and moves the
     * renderer's camera with it. The FOV-derived `ideal` is not recomputed.
     */
    method Update(forces: seq<Vector>) returns (halfWidth: real)
      requires Valid() && |forces| == |nodes|
      modifies this`Frames, this`cameraZ, this`cameraZVelocity, renderer`Camera
      modifies nodes`Location, nodes`Velocity, nodes`Acceleration
      ensures Valid()
      ensures forall i :: 0 <= i < |nodes| ==>
        nodes[i].State() == Tick(old(nodes[i].State()), nodes[i].LockLocation, forces[i])
      ensures halfWidth >= 0.0 && forall i :: 0 <= i < |nodes| ==> WithinHalfWidth(nodes[i].Location, halfWidth)
      ensures halfWidth == 0.0 || exists i :: 0 <= i < |nodes| && IsAbsCoordinate(halfWidth, nodes[i].Location)
      ensures Frames == old(Frames) + if |nodes| > 0 then 1 else 0
      ensures cameraZ == Max(1.0, old(cameraZ) + old(cameraZVelocity) * old(cameraZ))
      ensures cameraZVelocity == old(cameraZVelocity) * CameraZEasing
      ensures renderer.Camera == old(renderer.Camera).(Z := cameraZ)
      ensures renderer.ideal == old(renderer.ideal)
    {
      halfWidth := StepNodes(nodes, forces);
      if |nodes| > 0 {
        Frames := Frames + 1;
      }
      EaseCamera();
    }

    /** The camera step of `Update`. */
    method EaseCamera()
      requires renderer.Valid()
      modifies this`cameraZ, this`cameraZVelocity, renderer`Camera
      ensures renderer.Valid() && cameraZ >= 1.0
      ensures cameraZ == Max(1.0, old(cameraZ) + old(cameraZVelocity) * old(cameraZ))
      ensures cameraZVelocity == old(cameraZVelocity) * CameraZEasing
      ensures renderer.Camera == old(renderer.Camera).(Z := cameraZ)
    {
      cameraZ := cameraZ + cameraZVelocity * cameraZ;
      cameraZ := Max(1.0, cameraZ);
      cameraZVelocity := cameraZVelocity * CameraZEasing;
      renderer.Camera := renderer.Camera.(Z := cameraZ);
    }

    /** `Rotate`: every node turns about the same axis. */
    method Rotate(point: Vector, direction: Vector, angle: real)
      requires Valid()
      modifies nodes`Location, nodes`Velocity, nodes`Acceleration
      ensures Valid()
      ensures forall i :: 0 <= i < |nodes| ==>
        nodes[i].State() == Rotated(renderer.Math, old(nodes[i].State()), point, direction, angle)
    {
      for k := 0 to |nodes|
        invariant forall i :: 0 <= i < k ==>
          nodes[i].State() == Rotated(renderer.Math, old(nodes[i].State()), point, direction, angle)
        invariant forall i :: k <= i < |nodes| ==> nodes[i].State() == old(nodes[i].State())
      {
        nodes[k].Rotate(renderer.Math, point, direction, angle);
      }
    }

    /** `MoveCamera(delta)`: each dent of the wheel adds `-2e-4` to the camera's velocity. */
    method MoveCamera(delta: int32)
      modifies this`cameraZVelocity
      ensures cameraZVelocity == old(cameraZVelocity) + delta as real * CameraZAcceleration
    {
      cameraZVelocity := cameraZVelocity + delta as real * CameraZAcceleration;
    }

    /** `StopCamera`: the camera stops where it is. */
    method StopCamera()
      modifies this`cameraZVelocity
      ensures cameraZVelocity == 0.0
    {
      cameraZVelocity := 0.0;
    }

    /**
     * `ConnectRandomNodes(out a, out b)`: draws pairs of nodes, with indices
     * below `NodeCount - 1`, until it finds two different, unconnected ones
     * and connects them; after `2 * NodeCount` rejected pairs it gives up.
     * The last node in the list is never drawn unless it is the only one.
     * `rejected` counts the pairs turned down before the method returned.
     */
    method ConnectRandomNodes() returns (r: Result<bool>, a: Node?, b: Node?, ghost rejected: nat)
      requires Valid()
      modifies nodes`Connected, this`edges, this`Ends
      ensures Valid()
      ensures r.Failure? <==> |nodes| == 0
      ensures r.Failure? ==> r.error == ArgumentOutOfRangeException("maxValue")
      ensures r == Success(false) ==> rejected == 2 * |nodes|
      ensures r == Success(true) ==> rejected < 2 * |nodes|
      ensures r == Success(true) ==> a != null && b != null && a in Drawable(nodes) && b in Drawable(nodes)
      ensures r == Success(true) ==> a != b && b !in old(a.Connected) && a !in old(b.Connected)
      ensures r == Success(true) ==> a.Connected == old(a.Connected) + {b} && b.Connected == old(b.Connected) + {a}
      ensures r == Success(true) ==> forall n :: n in nodes && n != a && n != b ==> n.Connected == old(n.Connected)
      ensures r == Success(true) ==> |edges| == |old(edges)| + 1 && edges[..|old(edges)|] == old(edges)
      ensures r == Success(true) ==> edges[|old(edges)|].Node1 == a && edges[|old(edges)|].Node2 == b
      ensures r != Success(true) ==> edges == old(edges) && forall n :: n in nodes ==> n.Connected == old(n.Connected)
      ensures |nodes| <= 2 ==> r != Success(true)
    {
      var count := |nodes| * 2;
      rejected := 0;
      while true
        invariant 0 <= count && rejected == 2 * |nodes| - count
        invariant Valid() && edges == old(edges) && forall n :: n in nodes ==> n.Connected == old(n.Connected)
        decreases count
      {
        var ia := NextIndex(|nodes| - 1);
        if ia.Failure? {
          return Failure(ia.error), null, null, rejected;
        }
        a := nodes[ia.value];
        var ib := NextIndex(|nodes| - 1);
        b := nodes[ib.value];
        if count <= 0 {
          return Success(false), a, b, rejected;
        }
        count := count - 1;
        if a != b && b !in a.Connected {
          assert ia.value != ib.value && a in Drawable(nodes) && b in Drawable(nodes);
          var _ := Connect(a, b);
          return Success(true), a, b, rejected;
        }
        rejected := rejected + 1;
      }
    }

    /**
     * One draw of the unbounded `ConnectRandomNodes()`: if the pair drawn is
     * two different, unconnected nodes they are connected and the loop
     * ends; otherwise nothing changes and the source draws again. The pair
     * drawn is returned as `a` and `b`.
     */
    method ConnectRandomNodesStep() returns (r: Result<bool>, ghost a: Node?, ghost b: Node?)
      requires Valid()
      modifies nodes`Connected, this`edges, this`Ends
      ensures Valid()
      ensures r.Failure? <==> old(|nodes|) == 0
      ensures r.Success? ==> a != null && b != null && a in Drawable(nodes) && b in Drawable(nodes)
      ensures r == Success(false) ==> a == b || b in a.Connected
      ensures r == Success(true) ==> a != b && b !in old(a.Connected) && a !in old(b.Connected)
      ensures r == Success(true) ==> a.Connected == old(a.Connected) + {b} && b.Connected == old(b.Connected) + {a}
      ensures r == Success(true) ==> forall n :: n in nodes && n != a && n != b ==> n.Connected == old(n.Connected)
      ensures r == Success(true) ==> |edges| == |old(edges)| + 1 && edges[..|old(edges)|] == old(edges)
      ensures r == Success(true) ==> edges[|old(edges)|].Node1 == a && edges[|old(edges)|].Node2 == b
      ensures r != Success(true) ==> edges == old(edges) && forall n :: n in nodes ==> n.Connected == old(n.Connected)
    {
      var ia := NextIndex(|nodes| - 1);
      if ia.Failure? {
        return Failure(ia.error), null, null;
      }
      var x := nodes[ia.value];
      var ib := NextIndex(|nodes| - 1);
      var y := nodes[ib.value];
      if x == y || y in x.Connected {
        return Success(false), x, y;
      }
      var _ := Connect(x, y);
      return Success(true), x, y;
    }

    /**
     * One round of `AddRandomNodeThread`: a new node, with the given label
     * and starting location, is connected to a drawn node, `partner`, and
     * then added.
     */
    method AddRandomNodeStep(text: string, colour: Color, location: Vector) returns (r: Outcome, node: Node?, ghost partner: Node?)
      requires Valid()
      modifies nodes`Connected, this`edges, this`Ends, this`nodes
      ensures Valid()
      ensures r.Failed? <==> old(|nodes|) == 0
      ensures r.Failed? ==> nodes == old(nodes) && edges == old(edges)
      ensures r == Done ==> node != null && fresh(node) && nodes == old(nodes) + [node]
      ensures r == Done ==> node.Label == Some(text) && node.Location == location && !node.LockLocation
      ensures r == Done ==> node.Colour == colour && node.brush == colour.Value
      ensures r == Done ==> node.Velocity == Zero && node.Acceleration == Zero
      ensures r == Done ==> partner != null && partner in Drawable(old(nodes))
      ensures r == Done ==> node.Connected == {partner} && partner.Connected == old(partner.Connected) + {node}
      ensures r == Done ==> forall n :: n in old(nodes) && n != partner ==> n.Connected == old(n.Connected)
      ensures r == Done ==> |edges| == |old(edges)| + 1 && edges[..|old(edges)|] == old(edges)
      ensures r == Done ==> edges[|old(edges)|].Node1 == node && edges[|old(edges)|].Node2 == partner
    {
      var i := NextIndex(|nodes| - 1);
      if i.Failure? {
        return Failed(i.error), null, null;
      }
      node := new Node(Some(text), colour, location);
      var drawn := nodes[i.value];
      var _ := Connect(node, drawn);
      partner := drawn;
      Add(node);
      r := Done;
    }

    /**
     * `CreateInputOutputNode`: an opaque copy of the colour, the given
     * location, no acceleration, the label "my label" whatever label was
     * asked for, and a locked location.
     */
    method CreateInputOutputNode(text: string, isInputNode: bool, location: Vector, color: Color) returns (n: Node)
      ensures fresh(n) && fresh(n.Colour)
      ensures n.Colour.Value == AlphaOver(0xff, color.Value) && AlphaOf(n.Colour.Value) == 0xff
      ensures RedOf(n.Colour.Value) == RedOf(color.Value) && GreenOf(n.Colour.Value) == GreenOf(color.Value)
      ensures BlueOf(n.Colour.Value) == BlueOf(color.Value)
      ensures n.Location == location && n.Velocity == Zero && n.Acceleration == Zero
      ensures n.Label == Some("my label") && n.LockLocation && n.Connected == {}
    {
      var colour0 := FromAlphaAndColor(0xff, color);
      n := new Node(Some(text), colour0, location);
      n.Acceleration := Zero;
      n.Label := Some("my label");
      n.LockLocation := true;
    }
  }

  /**
   * The first pass of `Update`: each node in turn takes one step of motion,
   * and the half-width grows to cover the coordinates of its new location,
   * so that it ends as the largest absolute coordinate of any node, or 0.
   */
  method IntegrateAll(nodes: seq<Node>) returns (halfWidth: real)
    requires Distinct(nodes)
    modifies nodes`Location, nodes`Velocity, nodes`Acceleration
    ensures forall i :: 0 <= i < |nodes| ==>
      nodes[i].State() == Integrate(old(nodes[i].State()), nodes[i].LockLocation)
    ensures halfWidth >= 0.0 && forall i :: 0 <= i < |nodes| ==> WithinHalfWidth(nodes[i].Location, halfWidth)
    ensures halfWidth == 0.0 || exists i :: 0 <= i < |nodes| && IsAbsCoordinate(halfWidth, nodes[i].Location)
  {
    halfWidth := 0.0;
    ghost var widest := 0;
    for k := 0 to |nodes|
      invariant forall i :: 0 <= i < k ==>
        nodes[i].State() == Integrate(old(nodes[i].State()), nodes[i].LockLocation)
      invariant forall i :: k <= i < |nodes| ==> nodes[i].State() == old(nodes[i].State())
      invariant halfWidth >= 0.0 && forall i :: 0 <= i < k ==> WithinHalfWidth(nodes[i].Location, halfWidth)
      invariant halfWidth == 0.0 || (0 <= widest < k && IsAbsCoordinate(halfWidth, nodes[widest].Location))
    {
      nodes[k].Update();
      var wider := Widen(halfWidth, nodes[k].Location);
      if wider != halfWidth {
        widest := k;
      }
      halfWidth := wider;
    }
  }

  /**
   * The node passes of `Update`: every node integrates, then takes the
   * force computed for it.
   */
  method StepNodes(nodes: seq<Node>, forces: seq<Vector>) returns (halfWidth: real)
    requires Distinct(nodes) && |forces| == |nodes|
    modifies nodes`Location, nodes`Velocity, nodes`Acceleration
    ensures forall i :: 0 <= i < |nodes| ==>
      nodes[i].State() == Tick(old(nodes[i].State()), nodes[i].LockLocation, forces[i])
    ensures halfWidth >= 0.0 && forall i :: 0 <= i < |nodes| ==> WithinHalfWidth(nodes[i].Location, halfWidth)
    ensures halfWidth == 0.0 || exists i :: 0 <= i < |nodes| && IsAbsCoordinate(halfWidth, nodes[i].Location)
  {
    halfWidth := IntegrateAll(nodes);
    label integrated:
    ApplyForces(nodes, forces);
    forall i | 0 <= i < |nodes|
      ensures nodes[i].State() == Tick(old(nodes[i].State()), nodes[i].LockLocation, forces[i])
    {
      TickIsIntegrateThenForce(old(nodes[i].State()), nodes[i].LockLocation, forces[i],
        old@integrated(nodes[i].State()), nodes[i].State());
    }
  }

  /** The force pass of `Update`, with each node's total force given: it is added to the acceleration. */
  method ApplyForces(nodes: seq<Node>, forces: seq<Vector>)
    requires Distinct(nodes) && |forces| == |nodes|
    modifies nodes`Acceleration
    ensures forall i :: 0 <= i < |nodes| ==> nodes[i].Acceleration == Vectors.Add(old(nodes[i].Acceleration), forces[i])
  {
    for k := 0 to |nodes|
      invariant forall i :: 0 <= i < k ==> nodes[i].Acceleration == Vectors.Add(old(nodes[i].Acceleration), forces[i])
      invariant forall i :: k <= i < |nodes| ==> nodes[i].Acceleration == old(nodes[i].Acceleration)
    {
      nodes[k].Acceleration := Vectors.Add(nodes[k].Acceleration, forces[k]);
    }
  }

  /**
   * The nodes a draw with `Random.Next(Count - 1)` can return: all but the
   * last, or the only node when there is just one.
   */
  function Drawable(ns: seq<Node>): set<Node>
  {
    set i | 0 <= i < |ns| && (i < |ns| - 1 || i == 0) :: ns[i]
  }
}
