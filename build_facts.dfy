/**
 * What the graph built by `build_graph` contains: which ways are kept, which
 * nodes become vertices, what the segments of a way are, and that every edge
 * of the graph, with its direction, weight and street, comes from one segment
 * of one kept way.
 */
module BuildFacts {
  import opened Osm
  import opened Build

  // =====================================================================
  // Kept ways
  // =====================================================================

  /** Exactly the way elements tagged `highway` are kept. */
  lemma {:induction false} HighwaysKept(els: seq<Element>)
    ensures forall w :: w in Highways(els) <==> WayElement(w) in els && "highway" in w.tags
    decreases |els|
  {
    if els != [] {
      var init := els[..|els| - 1];
      HighwaysKept(init);
      assert els == init + [els[|els| - 1]];
    }
  }

  // =====================================================================
  // Usage counts and vertices
  // =====================================================================

  /** `n` occurs at two distinct positions of `s`. */
  ghost predicate TwiceIn(s: seq<NodeId>, n: NodeId) {
    exists i, j :: 0 <= i < j < |s| && s[i] == n && s[j] == n
  }

  /** `n` lies on two different kept ways. */
  ghost predicate Shared(ways: seq<Way>, n: NodeId) {
    exists k1, k2 :: 0 <= k1 < k2 < |ways| && n in ways[k1].nodes && n in ways[k2].nodes
  }

  /** `n` occurs twice on one kept way. */
  ghost predicate Repeated(ways: seq<Way>, n: NodeId) {
    exists k :: 0 <= k < |ways| && TwiceIn(ways[k].nodes, n)
  }

  lemma {:induction false} CountTwo(s: seq<NodeId>, n: NodeId)
    ensures multiset(s)[n] >= 2 <==> TwiceIn(s, n)
    decreases |s|
  {
    if s != [] {
      var last := |s| - 1;
      var init := s[..last];
      CountTwo(init, n);
      assert s == init + [s[last]];
      if multiset(s)[n] >= 2 {
        if s[last] == n {
          assert n in multiset(init);
          var i :| 0 <= i < |init| && init[i] == n;
          assert s[i] == n && s[last] == n;
        } else {
          var i, j :| 0 <= i < j < |init| && init[i] == n && init[j] == n;
          assert s[i] == n && s[j] == n;
        }
      }
      if TwiceIn(s, n) {
        var i, j :| 0 <= i < j < |s| && s[i] == n && s[j] == n;
        if j == last {
          assert init[i] == n;
          assert n in multiset(init);
        } else {
          assert init[i] == n && init[j] == n;
        }
      }
    }
  }

  /** A node is counted at all iff some kept way contains it. */
  lemma {:induction false} UsageOccurs(ways: seq<Way>, n: NodeId)
    ensures n in Usage(ways) <==> exists k :: 0 <= k < |ways| && n in ways[k].nodes
    decreases |ways|
  {
    if ways != [] {
      var last := |ways| - 1;
      var init := ways[..last];
      UsageOccurs(init, n);
      if n in Usage(ways) {
        if n in ways[last].nodes {
        } else {
          var k :| 0 <= k < |init| && n in init[k].nodes;
          assert ways[k] == init[k];
        }
      }
      if exists k :: 0 <= k < |ways| && n in ways[k].nodes {
        var k :| 0 <= k < |ways| && n in ways[k].nodes;
        if k < last {
          assert init[k] == ways[k];
        }
      }
    }
  }

  /** A node counted more than once lies on two kept ways or twice on one. */
  lemma {:induction false} CountedCrossing(ways: seq<Way>, n: NodeId)
    ensures Usage(ways)[n] > 1 ==> Shared(ways, n) || Repeated(ways, n)
    decreases |ways|
  {
    if ways != [] && Usage(ways)[n] > 1 {
      var last := |ways| - 1;
      var init := ways[..last];
      CountTwo(ways[last].nodes, n);
      assert Usage(ways)[n] == Usage(init)[n] + multiset(ways[last].nodes)[n];
      if Usage(init)[n] > 1 {
        CountedCrossing(init, n);
        if Shared(init, n) {
          var k1, k2 :| 0 <= k1 < k2 < |init| && n in init[k1].nodes && n in init[k2].nodes;
          assert ways[k1] == init[k1] && ways[k2] == init[k2];
        } else {
          var k :| 0 <= k < |init| && TwiceIn(init[k].nodes, n);
          assert ways[k] == init[k];
        }
      } else if Usage(init)[n] == 1 {
        UsageOccurs(init, n);
        var k :| 0 <= k < |init| && n in init[k].nodes;
        assert ways[k] == init[k];
        assert n in ways[last].nodes;
        assert 0 <= k < last < |ways|;
      } else {
        assert 0 <= last < |ways| && TwiceIn(ways[last].nodes, n);
      }
    }
  }

  /** A node on two kept ways, or twice on one, is counted more than once. */
  lemma {:induction false} CrossingCounted(ways: seq<Way>, n: NodeId)
    ensures Shared(ways, n) || Repeated(ways, n) ==> Usage(ways)[n] > 1
    decreases |ways|
  {
    if ways != [] && (Shared(ways, n) || Repeated(ways, n)) {
      var last := |ways| - 1;
      var init := ways[..last];
      CountTwo(ways[last].nodes, n);
      assert Usage(ways)[n] == Usage(init)[n] + multiset(ways[last].nodes)[n];
      if Shared(ways, n) {
        var k1, k2 :| 0 <= k1 < k2 < |ways| && n in ways[k1].nodes && n in ways[k2].nodes;
        assert init[k1] == ways[k1];
        if k2 == last {
          UsageOccurs(init, n);
          assert n in Usage(init);
        } else {
          assert init[k2] == ways[k2];
          assert Shared(init, n);
          CrossingCounted(init, n);
        }
      } else {
        var k :| 0 <= k < |ways| && TwiceIn(ways[k].nodes, n);
        if k < last {
          assert init[k] == ways[k];
          assert Repeated(init, n);
          CrossingCounted(init, n);
        }
      }
    }
  }

  /**
   * A node's usage count exceeds one exactly when it lies on two different
   * kept ways or twice on the same one.
   */
  lemma UsageAboveOne(ways: seq<Way>, n: NodeId)
    ensures Usage(ways)[n] > 1 <==> Shared(ways, n) || Repeated(ways, n)
  {
    CountedCrossing(ways, n);
    CrossingCounted(ways, n);
  }

  /** The vertices are exactly the nodes shared by two kept ways or repeated on one. */
  lemma VerticesAreCrossings(ways: seq<Way>)
    ensures forall n :: n in Vertices(ways) <==> Shared(ways, n) || Repeated(ways, n)
  {
    forall n
      ensures n in Vertices(ways) <==> Shared(ways, n) || Repeated(ways, n)
    {
      UsageAboveOne(ways, n);
    }
  }

  // =====================================================================
  // Segments
  // =====================================================================

  /**
   * `ids[a..b+1]` is a segment of a walk that began its current path at
   * `start`: it ends at a vertex, begins at `start` or at a vertex, and has
   * no vertex strictly inside.
   */
  ghost predicate SegmentAt(ids: seq<NodeId>, vs: set<NodeId>, start: nat, a: nat, b: nat) {
    start <= a < b < |ids| && ids[b] in vs && (a == start || ids[a] in vs)
    && forall k :: a < k < b ==> ids[k] !in vs
  }

  /** `s` is the stretch `ids[a..b + 1]` of a segment the walk from `start` meets at or after `i`. */
  ghost predicate SegmentFrom(ids: seq<NodeId>, vs: set<NodeId>, start: nat, i: nat, s: seq<NodeId>) {
    exists a: nat, b: nat :: SegmentAt(ids, vs, start, a, b) && i <= b && s == ids[a..b + 1]
  }

  /** Every segment the walk emits has the shape `SegmentAt` describes. */
  lemma {:induction false} WalkSound(ids: seq<NodeId>, vs: set<NodeId>, start: nat, i: nat)
    requires start <= i <= |ids|
    requires forall k :: start < k < i ==> ids[k] !in vs
    ensures forall s :: s in Walk(ids, vs, start, i) ==> SegmentFrom(ids, vs, start, i, s)
    decreases |ids| - i
  {
    if i == |ids| {
    } else if ids[i] in vs {
      WalkSound(ids, vs, i, i + 1);
      forall s | s in Walk(ids, vs, start, i)
        ensures SegmentFrom(ids, vs, start, i, s)
      {
        if start < i && s == ids[start..i + 1] {
          assert SegmentAt(ids, vs, start, start, i);
        } else {
          assert s in Walk(ids, vs, i, i + 1);
          assert SegmentFrom(ids, vs, i, i + 1, s);
          var a: nat, b: nat :| SegmentAt(ids, vs, i, a, b) && i + 1 <= b && s == ids[a..b + 1];
          assert SegmentAt(ids, vs, start, a, b);
        }
      }
    } else {
      WalkSound(ids, vs, start, i + 1);
    }
  }

  /** Every stretch of that shape is a segment the walk emits. */
  lemma {:induction false} WalkComplete(ids: seq<NodeId>, vs: set<NodeId>, start: nat, i: nat)
    requires start <= i <= |ids|
    requires forall k :: start < k < i ==> ids[k] !in vs
    ensures forall s :: SegmentFrom(ids, vs, start, i, s) ==> s in Walk(ids, vs, start, i)
    decreases |ids| - i
  {
    if i == |ids| {
      forall s | SegmentFrom(ids, vs, start, i, s)
        ensures false
      {
      }
    } else if ids[i] in vs {
      WalkComplete(ids, vs, i, i + 1);
      forall s | SegmentFrom(ids, vs, start, i, s)
        ensures s in Walk(ids, vs, start, i)
      {
        var a: nat, b: nat :| SegmentAt(ids, vs, start, a, b) && i <= b && s == ids[a..b + 1];
        if b == i {
          assert a == start;
        } else {
          assert i <= a;
          assert SegmentAt(ids, vs, i, a, b);
          assert SegmentFrom(ids, vs, i, i + 1, s);
        }
      }
    } else {
      WalkComplete(ids, vs, start, i + 1);
      forall s | SegmentFrom(ids, vs, start, i, s)
        ensures SegmentFrom(ids, vs, start, i + 1, s)
      {
        var a: nat, b: nat :| SegmentAt(ids, vs, start, a, b) && i <= b && s == ids[a..b + 1];
        assert b != i;
      }
    }
  }

  /**
   * From position `i` on, with no vertex met since `start`, the walk emits
   * exactly the stretches that end at a vertex at or after `i`, begin at
   * `start` or at a vertex, and have no vertex inside.
   */
  lemma WalkShape(ids: seq<NodeId>, vs: set<NodeId>, start: nat, i: nat)
    requires start <= i <= |ids|
    requires forall k :: start < k < i ==> ids[k] !in vs
    ensures forall s :: s in Walk(ids, vs, start, i) <==>
      exists a: nat, b: nat :: SegmentAt(ids, vs, start, a, b) && i <= b && s == ids[a..b + 1]
  {
    WalkSound(ids, vs, start, i);
    WalkComplete(ids, vs, start, i);
  }

  /**
   * The segments of a way are exactly its stretches that end at a vertex,
   * begin at the way's first node or at a vertex, and have no vertex inside:
   * the first node emits nothing on arrival, and nodes after the last vertex
   * emit nothing.
   */
  lemma SegmentsShape(ids: seq<NodeId>, vs: set<NodeId>)
    ensures forall s :: s in Segments(ids, vs) <==>
      exists a: nat, b: nat :: SegmentAt(ids, vs, 0, a, b) && s == ids[a..b + 1]
  {
    WalkShape(ids, vs, 0, 0);
  }

  // =====================================================================
  // Edges
  // =====================================================================

  /** The edge `u -> v` is one that a segment `s` with direction `dir` adds. */
  predicate Oriented(dir: Direction, s: seq<NodeId>, u: NodeId, v: NodeId)
    requires |s| >= 2
  {
    var n1, n2 := s[0], s[|s| - 1];
    match dir
    case Forward => u == n1 && v == n2
    case Backward => u == n2 && v == n1
    case BothWays => (u == n1 && v == n2) || (u == n2 && v == n1)
  }

  /** Some segment of some kept way adds the edge `u -> v` with data `d`. */
  ghost predicate Emits(ways: seq<Way>, vs: set<NodeId>, nodes: map<NodeId, Coord>, dist: Distance,
                        u: NodeId, v: NodeId, d: EdgeData)
    requires WaysCovered(ways, vs, nodes)
  {
    exists w, s :: w in ways && s in Segments(w.nodes, vs)
      && d == EdgeData(PathLength(nodes, dist, s), StreetName(w))
      && Oriented(WayDirection(w), s, u, v)
  }

  lemma SegmentEdgesMembers(s: seq<NodeId>, dir: Direction, data: EdgeData)
    requires |s| >= 2
    ensures forall e :: e in SegmentEdges(s, dir, data) <==> e.data == data && Oriented(dir, s, e.from, e.to)
  {
  }

  lemma {:induction false} SegmentsEdgesMembers(segs: seq<seq<NodeId>>, dir: Direction, street: string,
                                                nodes: map<NodeId, Coord>, dist: Distance)
    requires forall s :: s in segs ==> |s| >= 2
    requires SegmentsCovered(segs, nodes)
    ensures forall e :: e in SegmentsEdges(segs, dir, street, nodes, dist) <==>
      exists s :: s in segs && e.data == EdgeData(PathLength(nodes, dist, s), street) && Oriented(dir, s, e.from, e.to)
    decreases |segs|
  {
    if segs != [] {
      var s0 := segs[0];
      SegmentEdgesMembers(s0, dir, EdgeData(PathLength(nodes, dist, s0), street));
      SegmentsEdgesMembers(segs[1..], dir, street, nodes, dist);
      forall e
        ensures e in SegmentsEdges(segs, dir, street, nodes, dist) <==>
          exists s :: s in segs && e.data == EdgeData(PathLength(nodes, dist, s), street) && Oriented(dir, s, e.from, e.to)
      {
        if exists s :: s in segs && e.data == EdgeData(PathLength(nodes, dist, s), street) && Oriented(dir, s, e.from, e.to) {
          var s :| s in segs && e.data == EdgeData(PathLength(nodes, dist, s), street) && Oriented(dir, s, e.from, e.to);
          if s != s0 {
            assert s in segs[1..];
          }
        }
      }
    }
  }

  /** Every `add_edge` call of the edge pass is emitted by some segment of some kept way. */
  lemma {:induction false} AllEdgesSound(ways: seq<Way>, vs: set<NodeId>, nodes: map<NodeId, Coord>, dist: Distance)
    requires WaysCovered(ways, vs, nodes)
    ensures forall u, v, d :: AddEdge(u, v, d) in AllEdges(ways, vs, nodes, dist) ==> Emits(ways, vs, nodes, dist, u, v, d)
    decreases |ways|
  {
    if ways != [] {
      var w0 := ways[0];
      SegmentsEdgesMembers(Segments(w0.nodes, vs), WayDirection(w0), StreetName(w0), nodes, dist);
      AllEdgesSound(ways[1..], vs, nodes, dist);
      forall u, v, d | AddEdge(u, v, d) in AllEdges(ways, vs, nodes, dist)
        ensures Emits(ways, vs, nodes, dist, u, v, d)
      {
        var e := AddEdge(u, v, d);
        if e in WayEdges(w0, vs, nodes, dist) {
          var s :| s in Segments(w0.nodes, vs) && d == EdgeData(PathLength(nodes, dist, s), StreetName(w0))
            && Oriented(WayDirection(w0), s, u, v);
          assert w0 in ways;
        } else {
          assert e in AllEdges(ways[1..], vs, nodes, dist);
          assert Emits(ways[1..], vs, nodes, dist, u, v, d);
          var w, s :| w in ways[1..] && s in Segments(w.nodes, vs)
            && d == EdgeData(PathLength(nodes, dist, s), StreetName(w)) && Oriented(WayDirection(w), s, u, v);
          assert w in ways;
        }
      }
    }
  }

  /** Every edge some segment of some kept way emits is an `add_edge` call of the edge pass. */
  lemma {:induction false} AllEdgesComplete(ways: seq<Way>, vs: set<NodeId>, nodes: map<NodeId, Coord>, dist: Distance)
    requires WaysCovered(ways, vs, nodes)
    ensures forall u, v, d :: Emits(ways, vs, nodes, dist, u, v, d) ==> AddEdge(u, v, d) in AllEdges(ways, vs, nodes, dist)
    decreases |ways|
  {
    if ways != [] {
      var w0 := ways[0];
      SegmentsEdgesMembers(Segments(w0.nodes, vs), WayDirection(w0), StreetName(w0), nodes, dist);
      AllEdgesComplete(ways[1..], vs, nodes, dist);
      forall u, v, d | Emits(ways, vs, nodes, dist, u, v, d)
        ensures AddEdge(u, v, d) in AllEdges(ways, vs, nodes, dist)
      {
        var w, s :| w in ways && s in Segments(w.nodes, vs)
          && d == EdgeData(PathLength(nodes, dist, s), StreetName(w)) && Oriented(WayDirection(w), s, u, v);
        if w == w0 {
          assert AddEdge(u, v, d) in WayEdges(w0, vs, nodes, dist);
        } else {
          assert w in ways[1..];
          assert Emits(ways[1..], vs, nodes, dist, u, v, d);
        }
      }
    }
  }

  /** The `add_edge` calls of the edge pass are exactly the edges the segments of the kept ways emit. */
  lemma AllEdgesMembers(ways: seq<Way>, vs: set<NodeId>, nodes: map<NodeId, Coord>, dist: Distance)
    requires WaysCovered(ways, vs, nodes)
    ensures forall u, v, d :: AddEdge(u, v, d) in AllEdges(ways, vs, nodes, dist) <==> Emits(ways, vs, nodes, dist, u, v, d)
  {
    AllEdgesSound(ways, vs, nodes, dist);
    AllEdgesComplete(ways, vs, nodes, dist);
  }

  /**
   * Performing `add_edge` calls: every pair added is present, and every
   * entry either was there before untouched or holds the data of a call.
   */
  lemma {:induction false} ApplyEntries(g: Graph, es: seq<AddEdge>)
    ensures forall k :: k in g ==> k in Apply(g, es)
    ensures forall e :: e in es ==> (e.from, e.to) in Apply(g, es)
    ensures forall u, v :: (u, v) in Apply(g, es) ==>
      ((u, v) in g && Apply(g, es)[(u, v)] == g[(u, v)]) || AddEdge(u, v, Apply(g, es)[(u, v)]) in es
    decreases |es|
  {
    if es != [] {
      var g1 := g[(es[0].from, es[0].to) := es[0].data];
      ApplyEntries(g1, es[1..]);
      assert Apply(g, es) == Apply(g1, es[1..]);
      forall e | e in es
        ensures (e.from, e.to) in Apply(g, es)
      {
        if e != es[0] {
          assert e in es[1..];
        }
      }
      forall u, v | (u, v) in Apply(g, es)
        ensures ((u, v) in g && Apply(g, es)[(u, v)] == g[(u, v)]) || AddEdge(u, v, Apply(g, es)[(u, v)]) in es
      {
        var d := Apply(g, es)[(u, v)];
        if AddEdge(u, v, d) in es[1..] {
        } else if (u, v) == (es[0].from, es[0].to) {
          assert AddEdge(u, v, d) == es[0];
        }
      }
    }
  }

  /** The last `add_edge` call for a pair decides that pair's data. */
  lemma {:induction false} ApplyLastWins(g: Graph, es: seq<AddEdge>, k: nat)
    requires k < |es|
    requires forall j :: k < j < |es| ==> (es[j].from, es[j].to) != (es[k].from, es[k].to)
    ensures (es[k].from, es[k].to) in Apply(g, es)
    ensures Apply(g, es)[(es[k].from, es[k].to)] == es[k].data
    decreases |es|
  {
    var g1 := g[(es[0].from, es[0].to) := es[0].data];
    if k == 0 {
      ApplyUntouched(g1, es[1..], (es[0].from, es[0].to));
    } else {
      ApplyLastWins(g1, es[1..], k - 1);
    }
  }

  /** Calls for other pairs leave a pair's entry as it was. */
  lemma {:induction false} ApplyUntouched(g: Graph, es: seq<AddEdge>, key: (NodeId, NodeId))
    requires key in g
    requires forall j :: 0 <= j < |es| ==> (es[j].from, es[j].to) != key
    ensures key in Apply(g, es) && Apply(g, es)[key] == g[key]
    decreases |es|
  {
    if es != [] {
      ApplyUntouched(g[(es[0].from, es[0].to) := es[0].data], es[1..], key);
    }
  }

  /**
   * Every edge of the built graph comes from a segment of a kept way, in a
   * direction its `oneway` value allows, weighted by the segment's length
   * and labelled with the way's street name; and every edge some segment
   * adds is present.
   */
  lemma GraphEdges(ways: seq<Way>, vs: set<NodeId>, nodes: map<NodeId, Coord>, dist: Distance)
    requires WaysCovered(ways, vs, nodes)
    ensures forall u, v :: (u, v) in GraphOf(ways, vs, nodes, dist) ==>
      Emits(ways, vs, nodes, dist, u, v, GraphOf(ways, vs, nodes, dist)[(u, v)])
    ensures forall u, v, d :: Emits(ways, vs, nodes, dist, u, v, d) ==> (u, v) in GraphOf(ways, vs, nodes, dist)
  {
    var es := AllEdges(ways, vs, nodes, dist);
    ApplyEntries(map[], es);
    AllEdgesMembers(ways, vs, nodes, dist);
    forall u, v, d | Emits(ways, vs, nodes, dist, u, v, d)
      ensures (u, v) in GraphOf(ways, vs, nodes, dist)
    {
      assert AddEdge(u, v, d) in es;
    }
  }
}
