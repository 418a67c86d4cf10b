/**
 * The connectivity graph of the player: vertices at board coordinates, each
 * with its list of incident edges and a `visited` mark, and a graph that
 * keeps its vertices in insertion order together with a weighted edge total
 * and the number of edges that lie along a boundary line of the board.
 * The doubly linked lists of the list package are sequences here.
 */
module Graph {
  /**
   * An edge between two vertices with a direction code. It is immutable:
   * `direction` and `v` are the values the constructor was given.
   */
  datatype Edge = Edge(direction: int, v: Vertex, u: Vertex)
  {
    /** The endpoint across from `i`: `u` when `i` is `v` (by identity), and `v` otherwise. */
    function Opposite(i: Vertex): (r: Vertex)
      ensures r == v || r == u
      ensures i == v ==> r == u
      ensures i != v ==> r == v
    {
      if i == v then u else v
    }
  }

  /** Walking across an edge twice from either endpoint comes back to it; from `u` it reaches `v`. */
  lemma OppositeRoundTrip(e: Edge)
    ensures e.Opposite(e.Opposite(e.v)) == e.v
    ensures e.Opposite(e.Opposite(e.u)) == e.u
    ensures e.Opposite(e.u) == e.v
  {
  }

  class Vertex {
    const x: int
    const y: int
    var edges: seq<Edge>
    var visited: bool

    /** A vertex at (x, y) with no edges, not yet visited. */
    constructor (x: int, y: int)
      ensures this.x == x && this.y == y
      ensures edges == [] && !visited
    {
      this.x := x;
      this.y := y;
      edges := [];
      visited := false;
    }

    /** A copy of the incident edges, in the order they were added. */
    method IncidentEdges() returns (r: seq<Edge>)
      ensures r == edges
    {
      r := [];
      var i := 0;
      while i < |edges|
        invariant 0 <= i <= |edges|
        invariant r == edges[..i]
      {
        r := r + [edges[i]];
        i := i + 1;
      }
    }

    /** Marks the vertex visited. */
    method Visit()
      modifies this`visited
      ensures visited
    {
      visited := true;
    }

    /** Clears the visited mark. */
    method Reset()
      modifies this`visited
      ensures !visited
    {
      visited := false;
    }

    /** Appends `e` to the incident edges. */
    method AddEdge(e: Edge)
      modifies this`edges
      ensures edges == old(edges) + [e]
    {
      edges := edges + [e];
    }
  }

  /** The number of edges in `s` whose direction is `d`. */
  function SameDirection(s: seq<Edge>, d: int): (k: nat)
    ensures k <= |s|
  {
    if |s| == 0 then 0
    else SameDirection(s[..|s| - 1], d) + (if s[|s| - 1].direction == d then 1 else 0)
  }

  /** Halving the unit weight `k` times: 0.5^k. */
  function Half(k: nat): real
  {
    if k == 0 then 1.0 else 0.5 * Half(k - 1)
  }

  /** Every power of one half is positive and at most 1; from the second power on it is at most 0.25. */
  lemma {:induction false} HalfBounds(k: nat)
    ensures 0.0 < Half(k) <= 1.0
    ensures k >= 2 ==> Half(k) <= 0.25
  {
    if k > 0 {
      HalfBounds(k - 1);
    }
  }

  /**
   * How many of the four boundary lines x = 0, x = 7, y = 0 and y = 7 hold
   * both endpoints.
   */
  function Neutral(v: Vertex, u: Vertex): (r: nat)
    ensures r <= 2
    ensures r > 0 <==>
      (v.x == u.x && (v.x == 0 || v.x == 7)) || (v.y == u.y && (v.y == 0 || v.y == 7))
  {
    (if v.x == 0 && u.x == 0 then 1 else 0) +
    (if v.x == 7 && u.x == 7 then 1 else 0) +
    (if v.y == 0 && u.y == 0 then 1 else 0) +
    (if v.y == 7 && u.y == 7 then 1 else 0)
  }

  /** The index of the first vertex at (x, y), or |vs| when there is none. */
  function FirstAt(vs: seq<Vertex>, x: int, y: int): (k: nat)
    ensures k <= |vs|
    ensures forall i :: 0 <= i < k ==> !(vs[i].x == x && vs[i].y == y)
    ensures k < |vs| ==> vs[k].x == x && vs[k].y == y
  {
    if |vs| == 0 then 0
    else if vs[0].x == x && vs[0].y == y then 0
    else 1 + FirstAt(vs[1..], x, y)
  }

  /**
   * The weight a new edge of direction `d` adds: one, halved once for every
   * edge of direction `d` in `vEdges` and again for every one in `uEdges`.
   */
  method EdgeWeight(vEdges: seq<Edge>, uEdges: seq<Edge>, d: int) returns (w: real)
    ensures w == Half(SameDirection(vEdges, d) + SameDirection(uEdges, d))
  {
    w := 1.0;
    var i := 0;
    while i < |vEdges|
      invariant 0 <= i <= |vEdges|
      invariant w == Half(SameDirection(vEdges[..i], d))
    {
      assert vEdges[..i + 1][..i] == vEdges[..i];
      if vEdges[i].direction == d {
        w := w * 0.5;
      }
      i := i + 1;
    }
    assert vEdges[..i] == vEdges;
    i := 0;
    while i < |uEdges|
      invariant 0 <= i <= |uEdges|
      invariant w == Half(SameDirection(vEdges, d) + SameDirection(uEdges[..i], d))
    {
      assert uEdges[..i + 1][..i] == uEdges[..i];
      if uEdges[i].direction == d {
        w := w * 0.5;
      }
      i := i + 1;
    }
    assert uEdges[..i] == uEdges;
  }

  /**
   * Once the new edge ends both lists, it is counted at least twice, so the
   * weight it adds is positive and at most 0.25.
   */
  lemma LinkedWeightBounds(vEdges: seq<Edge>, uEdges: seq<Edge>, d: int)
    requires |vEdges| > 0 && vEdges[|vEdges| - 1].direction == d
    requires |uEdges| > 0 && uEdges[|uEdges| - 1].direction == d
    ensures 0.0 < Half(SameDirection(vEdges, d) + SameDirection(uEdges, d)) <= 0.25
  {
    HalfBounds(SameDirection(vEdges, d) + SameDirection(uEdges, d));
  }

  class Graph {
    var vertices: seq<Vertex>
    var edgeCount: real
    var neutralEdges: int

    /**
     * The reported edge count: the weighted total, with one whole edge taken
     * off for every boundary line an edge lies along.
     */
    function EdgeCount(): (r: real)
      reads this
      ensures r + neutralEdges as real == edgeCount
    {
      edgeCount - neutralEdges as real
    }

    /** A graph with no vertices and nothing counted. */
    constructor ()
      ensures vertices == [] && edgeCount == 0.0 && neutralEdges == 0
      ensures EdgeCount() == 0.0
    {
      vertices := [];
      edgeCount := 0.0;
      neutralEdges := 0;
    }

    /** Appends `v` to the vertices. */
    method InsertVertex(v: Vertex)
      modifies this`vertices
      ensures vertices == old(vertices) + [v]
    {
      vertices := vertices + [v];
    }

    /**
     * Links `e` into the edge lists of both endpoints, counts it as neutral
     * once per boundary line holding both endpoints, and adds to the edge
     * total one half per edge of the same direction now in the two lists.
     */
    method InsertEdge(e: Edge)
      modifies this`edgeCount, this`neutralEdges, e.v`edges, e.u`edges
      ensures e.v != e.u ==> e.v.edges == old(e.v.edges) + [e] && e.u.edges == old(e.u.edges) + [e]
      ensures e.v == e.u ==> e.v.edges == old(e.v.edges) + [e, e]
      ensures neutralEdges == old(neutralEdges) + Neutral(e.v, e.u)
      ensures edgeCount ==
        old(edgeCount) + Half(SameDirection(e.v.edges, e.direction) + SameDirection(e.u.edges, e.direction))
      ensures old(edgeCount) < edgeCount <= old(edgeCount) + 0.25
      ensures EdgeCount() == old(EdgeCount())
        + Half(SameDirection(e.v.edges, e.direction) + SameDirection(e.u.edges, e.direction))
        - Neutral(e.v, e.u) as real
    {
      var v := e.v;
      var u := e.Opposite(v);
      v.AddEdge(e);
      u.AddEdge(e);
      CountNeutral(v, u);
      var vEdges := v.IncidentEdges();
      var uEdges := u.IncidentEdges();
      var newEdgeWeight := EdgeWeight(vEdges, uEdges, e.direction);
      LinkedWeightBounds(vEdges, uEdges, e.direction);
      edgeCount := edgeCount + newEdgeWeight;
    }

    /** Counts the new edge between `v` and `u` once for each boundary line holding both. */
    method CountNeutral(v: Vertex, u: Vertex)
      modifies this`neutralEdges
      ensures neutralEdges == old(neutralEdges) + Neutral(v, u)
    {
      if v.x == 0 && u.x == 0 {
        neutralEdges := neutralEdges + 1;
      }
      if v.x == 7 && u.x == 7 {
        neutralEdges := neutralEdges + 1;
      }
      if v.y == 0 && u.y == 0 {
        neutralEdges := neutralEdges + 1;
      }
      if v.y == 7 && u.y == 7 {
        neutralEdges := neutralEdges + 1;
      }
    }

    /**
     * The first vertex at (x, y) in insertion order. When none is there the
     * result is whatever the list walk fell back on.
     */
    method GetVertex(x: int, y: int) returns (r: Vertex)
      ensures FirstAt(vertices, x, y) < |vertices| ==> r == vertices[FirstAt(vertices, x, y)]
    {
      r := new Vertex(0, 0);
      var i := 0;
      while i < |vertices|
        invariant 0 <= i <= |vertices|
        invariant FirstAt(vertices[i..], x, y) + i == FirstAt(vertices, x, y)
      {
        r := vertices[i];
        if r.x == x && r.y == y {
          return;
        }
        assert vertices[i..][1..] == vertices[i + 1..];
        i := i + 1;
      }
    }

    /** Clears the visited mark of every vertex; nothing else changes. */
    method Reset()
      modifies set v | v in vertices
      ensures forall v :: v in vertices ==> !v.visited
      ensures forall v :: v in vertices ==> v.edges == old(v.edges)
    {
      var i := 0;
      while i < |vertices|
        invariant 0 <= i <= |vertices|
        invariant forall k :: 0 <= k < i ==> !vertices[k].visited
        invariant forall v :: v in vertices ==> v.edges == old(v.edges)
      {
        vertices[i].Reset();
        i := i + 1;
      }
    }
  }
}
