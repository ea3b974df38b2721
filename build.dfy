/**
 * `build_graph`: from the elements of a map-data answer, keep the ways
 * tagged `highway`, promote every node used more than once across them to a
 * vertex (a real crossing), cut each way at its vertices into segments whose
 * weight is the summed distance between consecutive nodes, and add directed
 * edges according to the way's `oneway` tag.
 *
 * The directed graph is a map from an ordered node pair to the data of that
 * edge; adding an edge for a pair that already has one overwrites it, as
 * `DiGraph.add_edge` does. The great-circle distance `haversine` is a
 * parameter `dist` with non-negative whole-number results.
 */
module Build {
  import opened Osm
  import opened Strings

  /** Data carried by one directed edge: its weight and its street label. */
  datatype EdgeData = EdgeData(weight: nat, street: string)

  type Graph = map<(NodeId, NodeId), EdgeData>

  /** Stands for `haversine` between two coordinates. */
  type Distance = (Coord, Coord) -> nat

  /** The street label of a way without a `name` tag. */
  const Unnamed: string := "rua sem nome"

  datatype Direction = Forward | Backward | BothWays

  /** How a lower-cased `oneway` value is read. */
  function DirectionOf(oneway: string): Direction {
    if oneway == "yes" || oneway == "true" || oneway == "1" then Forward
    else if oneway == "-1" then Backward
    else BothWays
  }

  /** `way["tags"].get("oneway", "no").lower()`, classified. */
  function WayDirection(w: Way): Direction {
    DirectionOf(Lower(TagOr(w.tags, "oneway", "no")))
  }

  /** `way.get("tags", {}).get("name", "rua sem nome")`. */
  function StreetName(w: Way): string {
    TagOr(w.tags, "name", Unnamed)
  }

  // =====================================================================
  // Specification of the first two passes
  // =====================================================================

  /** The `nodes` dict: each node element's coordinates, a later element winning. */
  function NodeMap(els: seq<Element>): map<NodeId, Coord> {
    if els == [] then map[]
    else
      var m := NodeMap(els[..|els| - 1]);
      match els[|els| - 1]
      case NodeElement(id, lat, lon) => m[id := Coord(lat, lon)]
      case _ => m
  }

  /** The `ways` list: way elements tagged `highway`, in input order. */
  function Highways(els: seq<Element>): seq<Way> {
    if els == [] then []
    else
      var ws := Highways(els[..|els| - 1]);
      match els[|els| - 1]
      case WayElement(w) => if "highway" in w.tags then ws + [w] else ws
      case _ => ws
  }

  /** The `node_usage` counter: occurrences of each node across the node lists of `ways`. */
  function Usage(ways: seq<Way>): multiset<NodeId> {
    if ways == [] then multiset{}
    else Usage(ways[..|ways| - 1]) + multiset(ways[|ways| - 1].nodes)
  }

  /** The `vertices` set: nodes used more than once. */
  function Vertices(ways: seq<Way>): set<NodeId> {
    var u := Usage(ways);
    set n | n in u && u[n] > 1
  }

  // =====================================================================
  // Specification of the segment walk
  // =====================================================================

  /**
   * The segments the walk over `ids` emits from position `i` on, while its
   * current `path` is `ids[start..i]`: on reaching a vertex with more than
   * one node accumulated, the accumulated nodes up to and including that
   * vertex form a segment; every vertex restarts the path.
   */
  function Walk(ids: seq<NodeId>, vs: set<NodeId>, start: nat, i: nat): (segs: seq<seq<NodeId>>)
    requires start <= i <= |ids|
    ensures forall s :: s in segs ==> |s| >= 2
    decreases |ids| - i
  {
    if i == |ids| then []
    else if ids[i] in vs then
      (if start < i then [ids[start..i + 1]] else []) + Walk(ids, vs, i, i + 1)
    else Walk(ids, vs, start, i + 1)
  }

  /** The segments of one way's node list. */
  function Segments(ids: seq<NodeId>, vs: set<NodeId>): (segs: seq<seq<NodeId>>)
    ensures forall s :: s in segs ==> |s| >= 2
  {
    Walk(ids, vs, 0, 0)
  }

  /** Every node of `path` has coordinates. */
  predicate InNodes(path: seq<NodeId>, nodes: map<NodeId, Coord>) {
    forall i :: 0 <= i < |path| ==> path[i] in nodes
  }

  /** Every node of every segment has coordinates. */
  ghost predicate SegmentsCovered(segs: seq<seq<NodeId>>, nodes: map<NodeId, Coord>) {
    forall s :: s in segs ==> InNodes(s, nodes)
  }

  /** Every node the edge pass looks up has coordinates. */
  ghost predicate WaysCovered(ways: seq<Way>, vs: set<NodeId>, nodes: map<NodeId, Coord>) {
    forall w :: w in ways ==> SegmentsCovered(Segments(w.nodes, vs), nodes)
  }

  /**
   * The lookups `nodes[path[i]]` of `build_graph` all succeed: a node id
   * missing from the node elements raises, unless no segment contains it.
   */
  ghost predicate Covered(els: seq<Element>) {
    var ways := Highways(els);
    WaysCovered(ways, Vertices(ways), NodeMap(els))
  }

  /** Sum of `dist` over consecutive pairs of `path`. */
  function PathLength(nodes: map<NodeId, Coord>, dist: Distance, path: seq<NodeId>): nat
    requires InNodes(path, nodes)
  {
    if |path| < 2 then 0
    else
      PathLength(nodes, dist, path[..|path| - 1]) + dist(nodes[path[|path| - 2]], nodes[path[|path| - 1]])
  }

  // =====================================================================
  // Specification of the edges added
  // =====================================================================

  /** One `add_edge(from, to, weight=..., street=...)` call. */
  datatype AddEdge = AddEdge(from: NodeId, to: NodeId, data: EdgeData)

  /** The edges added for one segment, by direction. */
  function SegmentEdges(seg: seq<NodeId>, dir: Direction, data: EdgeData): seq<AddEdge>
    requires |seg| >= 2
  {
    var n1, n2 := seg[0], seg[|seg| - 1];
    match dir
    case Forward => [AddEdge(n1, n2, data)]
    case Backward => [AddEdge(n2, n1, data)]
    case BothWays => [AddEdge(n1, n2, data), AddEdge(n2, n1, data)]
  }

  /** The edges added for a list of segments of one way, in order. */
  function SegmentsEdges(segs: seq<seq<NodeId>>, dir: Direction, street: string,
                         nodes: map<NodeId, Coord>, dist: Distance): seq<AddEdge>
    requires forall s :: s in segs ==> |s| >= 2
    requires SegmentsCovered(segs, nodes)
  {
    if segs == [] then []
    else
      SegmentEdges(segs[0], dir, EdgeData(PathLength(nodes, dist, segs[0]), street))
      + SegmentsEdges(segs[1..], dir, street, nodes, dist)
  }

  /** The edges added for one way. */
  function WayEdges(w: Way, vs: set<NodeId>, nodes: map<NodeId, Coord>, dist: Distance): seq<AddEdge>
    requires SegmentsCovered(Segments(w.nodes, vs), nodes)
  {
    SegmentsEdges(Segments(w.nodes, vs), WayDirection(w), StreetName(w), nodes, dist)
  }

  /** The edges added for all ways, in order. */
  function AllEdges(ways: seq<Way>, vs: set<NodeId>, nodes: map<NodeId, Coord>, dist: Distance): seq<AddEdge>
    requires WaysCovered(ways, vs, nodes)
  {
    if ways == [] then []
    else WayEdges(ways[0], vs, nodes, dist) + AllEdges(ways[1..], vs, nodes, dist)
  }

  /** Perform the `add_edge` calls in order on `g`; a later call for a pair overwrites. */
  function Apply(g: Graph, es: seq<AddEdge>): Graph
    decreases |es|
  {
    if es == [] then g
    else Apply(g[(es[0].from, es[0].to) := es[0].data], es[1..])
  }

  /** The graph `build_graph` returns. */
  function GraphOf(ways: seq<Way>, vs: set<NodeId>, nodes: map<NodeId, Coord>, dist: Distance): Graph
    requires WaysCovered(ways, vs, nodes)
  {
    Apply(map[], AllEdges(ways, vs, nodes, dist))
  }

  // =====================================================================
  // The imperative construction
  // =====================================================================

  /** Lines 49-53: the accumulated distance along `path`. */
  method SegmentLength(path: seq<NodeId>, nodes: map<NodeId, Coord>, dist: Distance) returns (d: nat)
    requires |path| >= 2
    requires InNodes(path, nodes)
    ensures d == PathLength(nodes, dist, path)
  {
    d := 0;
    var i := 0;
    while i < |path| - 1
      invariant 0 <= i <= |path| - 1
      invariant d == PathLength(nodes, dist, path[..i + 1])
    {
      assert path[..i + 2][..i + 1] == path[..i + 1];
      d := d + dist(nodes[path[i]], nodes[path[i + 1]]);
      i := i + 1;
    }
    assert path[..i + 1] == path;
  }

  lemma ApplyAppend(g: Graph, a: seq<AddEdge>, b: seq<AddEdge>)
    ensures Apply(g, a + b) == Apply(Apply(g, a), b)
    decreases |a|
  {
    if a == [] {
      assert a + b == b;
    } else {
      assert (a + b)[0] == a[0] && (a + b)[1..] == a[1..] + b;
      ApplyAppend(g[(a[0].from, a[0].to) := a[0].data], a[1..], b);
    }
  }

  /** Lines 21-28: collect node coordinates and highway ways, counting node usage. */
  method SeparateElements(els: seq<Element>)
    returns (nodes: map<NodeId, Coord>, ways: seq<Way>, usage: multiset<NodeId>)
    ensures nodes == NodeMap(els)
    ensures ways == Highways(els)
    ensures usage == Usage(ways)
  {
    nodes := map[];
    ways := [];
    usage := multiset{};
    var e := 0;
    while e < |els|
      invariant 0 <= e <= |els|
      invariant nodes == NodeMap(els[..e])
      invariant ways == Highways(els[..e])
      invariant usage == Usage(ways)
      decreases |els| - e
    {
      assert els[..e + 1][..e] == els[..e];
      match els[e] {
      case NodeElement(id, lat, lon) =>
        nodes := nodes[id := Coord(lat, lon)];
      case WayElement(w) =>
        if "highway" in w.tags {
          ghost var previous := ways;
          ways := ways + [w];
          assert ways[..|ways| - 1] == previous;
          var j := 0;
          while j < |w.nodes|
            invariant 0 <= j <= |w.nodes|
            invariant usage == Usage(previous) + multiset(w.nodes[..j])
          {
            assert w.nodes[..j + 1] == w.nodes[..j] + [w.nodes[j]];
            usage := usage[w.nodes[j] := usage[w.nodes[j]] + 1];
            j := j + 1;
          }
          assert w.nodes[..j] == w.nodes;
        }
      case OtherElement =>
      }
      e := e + 1;
    }
    assert els[..e] == els;
  }

  /** Lines 33-35: add the nodes of one way whose usage count exceeds one. */
  method AddWayVertices(vertices0: set<NodeId>, ids: seq<NodeId>, usage: multiset<NodeId>)
    returns (vertices: set<NodeId>)
    ensures forall n :: n in vertices <==> n in vertices0 || (n in ids && usage[n] > 1)
  {
    vertices := vertices0;
    var j := 0;
    while j < |ids|
      invariant 0 <= j <= |ids|
      invariant forall n :: n in vertices <==> n in vertices0 || (n in ids[..j] && usage[n] > 1)
    {
      assert ids[..j + 1] == ids[..j] + [ids[j]];
      if usage[ids[j]] > 1 {
        vertices := vertices + {ids[j]};
      }
      j := j + 1;
    }
    assert ids[..j] == ids;
  }

  /** Lines 30-35: the nodes whose usage count exceeds one. */
  method SelectVertices(ways: seq<Way>, usage: multiset<NodeId>) returns (vertices: set<NodeId>)
    requires usage == Usage(ways)
    ensures vertices == Vertices(ways)
  {
    vertices := {};
    var k := 0;
    while k < |ways|
      invariant 0 <= k <= |ways|
      invariant forall n :: n in vertices <==> n in Usage(ways[..k]) && usage[n] > 1
    {
      assert ways[..k + 1][..k] == ways[..k] && ways[..k + 1][k] == ways[k];
      assert Usage(ways[..k + 1]) == Usage(ways[..k]) + multiset(ways[k].nodes);
      vertices := AddWayVertices(vertices, ways[k].nodes, usage);
      k := k + 1;
    }
    assert ways[..k] == ways;
    assert forall n :: n in vertices <==> n in Vertices(ways);
  }

  /** Lines 48-67: add the edges of one closed segment, as its `oneway` value says. */
  method AddSegmentEdges(g0: Graph, path: seq<NodeId>, oneway: string, street: string,
                         nodes: map<NodeId, Coord>, dist: Distance)
    returns (g: Graph)
    requires |path| >= 2
    requires InNodes(path, nodes)
    ensures g == Apply(g0, SegmentEdges(path, DirectionOf(oneway), EdgeData(PathLength(nodes, dist, path), street)))
  {
    var d := SegmentLength(path, nodes, dist);
    var n1, n2 := path[0], path[|path| - 1];
    ApplySegmentEdges(g0, path, DirectionOf(oneway), EdgeData(d, street));
    if oneway == "yes" || oneway == "true" || oneway == "1" {
      g := g0[(n1, n2) := EdgeData(d, street)];
    } else if oneway == "-1" {
      g := g0[(n2, n1) := EdgeData(d, street)];
    } else {
      g := g0[(n1, n2) := EdgeData(d, street)];
      g := g[(n2, n1) := EdgeData(d, street)];
    }
  }

  /** Lines 39-67: walk one way, adding the edges of each segment closed at a vertex. */
  method AddWayEdges(g0: Graph, w: Way, vertices: set<NodeId>, nodes: map<NodeId, Coord>, dist: Distance)
    returns (g: Graph)
    requires SegmentsCovered(Segments(w.nodes, vertices), nodes)
    ensures g == Apply(g0, WayEdges(w, vertices, nodes, dist))
  {
    g := g0;
    var ids := w.nodes;
    var oneway := Lower(TagOr(w.tags, "oneway", "no"));
    var street := TagOr(w.tags, "name", Unnamed);
    var path: seq<NodeId> := [];
    ghost var start: nat := 0;
    ghost var dir := DirectionOf(oneway);
    ghost var target := Apply(g0, WayEdges(w, vertices, nodes, dist));
    var i := 0;
    WalkBegins(g0, w, vertices, nodes, dist);
    while i < |ids|
      invariant start <= i <= |ids|
      invariant path == ids[start..i]
      invariant WalkState(ids, vertices, start, i, g, target, dir, street, nodes, dist)
    {
      g, path, start := VisitNode(g, ids, vertices, i, path, oneway, street, nodes, dist, start, target, dir);
      i := i + 1;
    }
    WalkEnds(ids, vertices, start, g, target, dir, street, nodes, dist);
  }
  /** Lines 42-47 for the node at position `i`: extend the path, and close it at a vertex. */
  method VisitNode(g0: Graph, ids: seq<NodeId>, vertices: set<NodeId>, i: nat, path0: seq<NodeId>,
                   oneway: string, street: string, nodes: map<NodeId, Coord>, dist: Distance,
                   ghost start0: nat, ghost target: Graph, ghost dir: Direction)
    returns (g: Graph, path: seq<NodeId>, ghost start: nat)
    requires i < |ids| && start0 <= i && path0 == ids[start0..i] && dir == DirectionOf(oneway)
    requires WalkState(ids, vertices, start0, i, g0, target, dir, street, nodes, dist)
    ensures start == (if ids[i] in vertices then i else start0) && path == ids[start..i + 1]
    ensures ids[i] in vertices && start0 < i ==>
      InNodes(ids[start0..i + 1], nodes)
      && g == Apply(g0, SegmentEdges(ids[start0..i + 1], dir,
                                     EdgeData(PathLength(nodes, dist, ids[start0..i + 1]), street)))
    ensures !(ids[i] in vertices && start0 < i) ==> g == g0
    ensures WalkState(ids, vertices, start, i + 1, g, target, dir, street, nodes, dist)
  {
    var nid := ids[i];
    SliceSnoc(ids, start0, i);
    g, path, start := g0, path0 + [nid], start0;
    if nid in vertices {
      if |path| > 1 {
        StepClose(g0, ids, vertices, start0, i, target, dir, street, nodes, dist);
        g := AddSegmentEdges(g0, path, oneway, street, nodes, dist);
      } else {
        StepOver(g0, ids, vertices, start0, i, target, dir, street, nodes, dist);
      }
      SliceSnoc(ids, i, i);
      path := [nid];
      start := i;
    } else {
      StepOver(g0, ids, vertices, start0, i, target, dir, street, nodes, dist);
    }
  }


  /** Lines 37-67: the edge pass over all ways. */
  method AddEdges(ways: seq<Way>, vertices: set<NodeId>, nodes: map<NodeId, Coord>, dist: Distance)
    returns (g: Graph)
    requires WaysCovered(ways, vertices, nodes)
    ensures g == GraphOf(ways, vertices, nodes, dist)
  {
    g := map[];
    var k := 0;
    while k < |ways|
      invariant 0 <= k <= |ways|
      invariant Apply(g, AllEdges(ways[k..], vertices, nodes, dist)) == GraphOf(ways, vertices, nodes, dist)
    {
      AllEdgesFrom(ways, vertices, nodes, dist, k);
      ApplyAppend(g, WayEdges(ways[k], vertices, nodes, dist), AllEdges(ways[k + 1..], vertices, nodes, dist));
      g := AddWayEdges(g, ways[k], vertices, nodes, dist);
      k := k + 1;
    }
  }

  /** `build_graph`: the graph, the node coordinates, the vertices and the highway ways. */
  method BuildGraph(els: seq<Element>, dist: Distance)
    returns (g: Graph, nodes: map<NodeId, Coord>, vertices: set<NodeId>, ways: seq<Way>)
    requires Covered(els)
    ensures nodes == NodeMap(els)
    ensures ways == Highways(els)
    ensures vertices == Vertices(ways)
    ensures g == GraphOf(ways, vertices, nodes, dist)
  {
    var usage;
    nodes, ways, usage := SeparateElements(els);
    vertices := SelectVertices(ways, usage);
    g := AddEdges(ways, vertices, nodes, dist);
  }

  /** The state of the walk at position `i`: what remains to be added leads from `g` to `target`. */
  ghost predicate WalkState(ids: seq<NodeId>, vs: set<NodeId>, start: nat, i: nat, g: Graph, target: Graph,
                            dir: Direction, street: string, nodes: map<NodeId, Coord>, dist: Distance) {
    start <= i <= |ids|
    && SegmentsCovered(Walk(ids, vs, start, i), nodes)
    && Apply(g, SegmentsEdges(Walk(ids, vs, start, i), dir, street, nodes, dist)) == target
  }

  /** Before the first node, the whole way is still to be walked. */
  lemma WalkBegins(g0: Graph, w: Way, vs: set<NodeId>, nodes: map<NodeId, Coord>, dist: Distance)
    requires SegmentsCovered(Segments(w.nodes, vs), nodes)
    ensures WalkState(w.nodes, vs, 0, 0, g0, Apply(g0, WayEdges(w, vs, nodes, dist)),
                      WayDirection(w), StreetName(w), nodes, dist)
  {
  }

  /** After the last node nothing is left to add, so the graph is the target. */
  lemma WalkEnds(ids: seq<NodeId>, vs: set<NodeId>, start: nat, g: Graph, target: Graph,
                 dir: Direction, street: string, nodes: map<NodeId, Coord>, dist: Distance)
    requires WalkState(ids, vs, start, |ids|, g, target, dir, street, nodes, dist)
    ensures g == target
  {
  }

  /** The edges of the ways from position `k` on: those of way `k`, then the rest. */
  lemma AllEdgesFrom(ways: seq<Way>, vs: set<NodeId>, nodes: map<NodeId, Coord>, dist: Distance, k: nat)
    requires WaysCovered(ways, vs, nodes) && k < |ways|
    ensures SegmentsCovered(Segments(ways[k].nodes, vs), nodes)
    ensures WaysCovered(ways[k..], vs, nodes) && WaysCovered(ways[k + 1..], vs, nodes)
    ensures AllEdges(ways[k..], vs, nodes, dist)
            == WayEdges(ways[k], vs, nodes, dist) + AllEdges(ways[k + 1..], vs, nodes, dist)
  {
    assert ways[k] in ways;
    assert ways[k..][0] == ways[k] && ways[k..][1..] == ways[k + 1..];
  }

  /** Appending the next id to a slice. */
  lemma SliceSnoc(ids: seq<NodeId>, start: nat, i: nat)
    requires start <= i < |ids|
    ensures ids[start..i + 1] == ids[start..i] + [ids[i]]
  {
  }

  /** A step that closes no segment keeps the walk state, restarting the path at a vertex. */
  lemma StepOver(g: Graph, ids: seq<NodeId>, vs: set<NodeId>, start: nat, i: nat, target: Graph,
                 dir: Direction, street: string, nodes: map<NodeId, Coord>, dist: Distance)
    requires start <= i < |ids| && (ids[i] in vs ==> start == i)
    requires WalkState(ids, vs, start, i, g, target, dir, street, nodes, dist)
    ensures WalkState(ids, vs, if ids[i] in vs then i else start, i + 1, g, target, dir, street, nodes, dist)
  {
    if ids[i] in vs {
      assert Walk(ids, vs, start, i) == Walk(ids, vs, i, i + 1);
    } else {
      assert Walk(ids, vs, start, i) == Walk(ids, vs, start, i + 1);
    }
  }

  /** A step that closes the segment `ids[start..i + 1]` adds its edges first. */
  lemma StepClose(g: Graph, ids: seq<NodeId>, vs: set<NodeId>, start: nat, i: nat, target: Graph,
                  dir: Direction, street: string, nodes: map<NodeId, Coord>, dist: Distance)
    requires start < i < |ids| && ids[i] in vs
    requires WalkState(ids, vs, start, i, g, target, dir, street, nodes, dist)
    ensures InNodes(ids[start..i + 1], nodes)
    ensures WalkState(ids, vs, i, i + 1,
                      Apply(g, SegmentEdges(ids[start..i + 1], dir, EdgeData(PathLength(nodes, dist, ids[start..i + 1]), street))),
                      target, dir, street, nodes, dist)
  {
    EmitSegment(g, ids, vs, start, i, dir, street, nodes, dist);
  }

  /** The `add_edge` calls of one segment, as map updates. */
  lemma ApplySegmentEdges(g: Graph, s: seq<NodeId>, dir: Direction, data: EdgeData)
    requires |s| >= 2
    ensures var n1, n2 := s[0], s[|s| - 1];
      Apply(g, SegmentEdges(s, dir, data)) ==
        match dir
        case Forward => g[(n1, n2) := data]
        case Backward => g[(n2, n1) := data]
        case BothWays => g[(n1, n2) := data][(n2, n1) := data]
  {
    var n1, n2 := s[0], s[|s| - 1];
    match dir
    case Forward =>
      assert Apply(g, [AddEdge(n1, n2, data)]) == Apply(g[(n1, n2) := data], []);
    case Backward =>
      assert Apply(g, [AddEdge(n2, n1, data)]) == Apply(g[(n2, n1) := data], []);
    case BothWays =>
      var es := [AddEdge(n1, n2, data), AddEdge(n2, n1, data)];
      assert es[1..] == [AddEdge(n2, n1, data)];
      assert Apply(g, es) == Apply(g[(n1, n2) := data], [AddEdge(n2, n1, data)]);
      assert Apply(g[(n1, n2) := data], [AddEdge(n2, n1, data)]) == Apply(g[(n1, n2) := data][(n2, n1) := data], []);
  }

  /** The `add_edge` calls for the segment closing at position `i` come first. */
  lemma EmitSegment(g: Graph, ids: seq<NodeId>, vs: set<NodeId>, start: nat, i: nat, dir: Direction,
                    street: string, nodes: map<NodeId, Coord>, dist: Distance)
    requires start < i < |ids| && ids[i] in vs
    requires SegmentsCovered(Walk(ids, vs, start, i), nodes)
    ensures SegmentsCovered(Walk(ids, vs, i, i + 1), nodes)
    ensures InNodes(ids[start..i + 1], nodes)
    ensures
      var s := ids[start..i + 1];
      var data := EdgeData(PathLength(nodes, dist, s), street);
      Apply(g, SegmentsEdges(Walk(ids, vs, start, i), dir, street, nodes, dist))
      == Apply(Apply(g, SegmentEdges(s, dir, data)), SegmentsEdges(Walk(ids, vs, i, i + 1), dir, street, nodes, dist))
  {
    var s := ids[start..i + 1];
    var w := Walk(ids, vs, start, i);
    assert w == [s] + Walk(ids, vs, i, i + 1);
    assert s in w;
    var data := EdgeData(PathLength(nodes, dist, s), street);
    var tail := SegmentsEdges(Walk(ids, vs, i, i + 1), dir, street, nodes, dist);
    assert w[0] == s && w[1..] == Walk(ids, vs, i, i + 1);
    assert SegmentsEdges(w, dir, street, nodes, dist) == SegmentEdges(s, dir, data) + tail;
    ApplyAppend(g, SegmentEdges(s, dir, data), tail);
  }
}
