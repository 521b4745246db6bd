/**
 * An edge joins two nodes and draws itself as a straight line between
 * their projections, unless both ends lie behind the camera.
 */
module Edges {
  import opened Vectors
  import opened Surfaces
  import opened Renderers
  import opened Nodes

  /** The pen every edge is drawn with: `0xff222222`. */
  const EdgePen: bv32 := 0xff22_2222

  class Edge {
    const Node1: Node
    const Node2: Node

    /** `Edge(node1, node2)`: the two ends, as given and in that order. */
    constructor (node1: Node, node2: Node)
      ensures Node1 == node1 && Node2 == node2
    {
      Node1 := node1;
      Node2 := node2;
    }

    /** Whether `Draw` draws the edge: at least one end is in front of the camera. */
    predicate Visible(renderer: Renderer)
      reads Node1, Node2, renderer
    {
      renderer.InFront(Node1.Location) || renderer.InFront(Node2.Location)
    }

    /** The line `Draw` asks for. */
    function Line(renderer: Renderer): SurfaceCall
      reads Node1, Node2, renderer, renderer.Origin
    {
      DrawLine(EdgePen, renderer.ComputePoint(Node1.Location), renderer.ComputePoint(Node2.Location))
    }

    /**
     * `Draw`: exactly one line from the first end's projection to the
     * second's when either end is visible, and no call at all otherwise.
     * Only the surface changes.
     */
    method Draw(renderer: Renderer, g: Surface)
      modifies g`Calls
      ensures Visible(renderer) ==> g.Calls == old(g.Calls) + [Line(renderer)]
      ensures !Visible(renderer) ==> g.Calls == old(g.Calls)
    {
      if Node1.Location.Z < renderer.Camera.Z || Node2.Location.Z < renderer.Camera.Z {
        g.Record(DrawLine(EdgePen, renderer.ComputePoint(Node1.Location), renderer.ComputePoint(Node2.Location)));
      }
    }
  }
}
