/**
 * The node record shared by both primal meshes (src/terrain/node.rs): a
 * position, the faces and edges that touch it, and an elevation.  Positions
 * and elevations are carried as opaque reals; nothing here computes with them.
 */
module TerrainNode {
  import opened Vector

  /** A point on the sphere (`Vertex` is `Vec3<f32>`). */
  type Vertex = Vec3<real>

  datatype Node = Node(point: Vertex, faces: seq<nat>, edges: seq<nat>, elevation: real)
  {
    /** `add_edge`: appends one edge index, without de-duplication. */
    function AddEdge(e: nat): (n: Node)
      ensures n.point == point && n.faces == faces && n.elevation == elevation
      ensures |n.edges| == |edges| + 1
      ensures n.edges[..|edges|] == edges && n.edges[|edges|] == e
    {
      Node(point, faces, edges + [e], elevation)
    }

    /** `add_face`: appends one face index, without de-duplication. */
    function AddFace(f: nat): (n: Node)
      ensures n.point == point && n.edges == edges && n.elevation == elevation
      ensures |n.faces| == |faces| + 1
      ensures n.faces[..|faces|] == faces && n.faces[|faces|] == f
    {
      Node(point, faces + [f], edges, elevation)
    }

    /** The node with both link lists emptied (the `clear` calls that open a rebuild). */
    function ClearLinks(): (n: Node)
      ensures n.point == point && n.elevation == elevation
      ensures n.faces == [] && n.edges == []
    {
      Node(point, [], [], elevation)
    }
  }

  /** `Node::new`: a node with no links yet. */
  function New(point: Vertex, elevation: real): (n: Node)
    ensures n.point == point && n.elevation == elevation
    ensures n.faces == [] && n.edges == []
  {
    Node(point, [], [], elevation)
  }
}
