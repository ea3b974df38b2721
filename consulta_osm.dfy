/**
 * The street label of a node: the names of every way that passes through
 * it, each once, sorted and joined with " / ".
 */
module ConsultaOsm {
  import opened Osm
  import opened Strings

  /** The label used for a node no named way passes through. */
  function UnnamedLabel(nodeId: NodeId): string {
    "rua sem nome (Node " + IntToString(nodeId) + ")"
  }

  /** What one way through the node contributes: its `name` tag, or the unnamed label. */
  function WayLabel(w: Way, nodeId: NodeId): string {
    TagOr(w.tags, "name", UnnamedLabel(nodeId))
  }

  /** The set `ruas`: labels of all ways whose node list contains the node. */
  ghost function StreetNames(nodeId: NodeId, ways: seq<Way>): set<string> {
    set w | w in ways && nodeId in w.nodes :: WayLabel(w, nodeId)
  }

  /** The full result: the unnamed label when no way passes, otherwise the sorted names joined. */
  ghost function StreetLabel(nodeId: NodeId, ways: seq<Way>): string {
    var names := StreetNames(nodeId, ways);
    if names == {} then UnnamedLabel(nodeId) else Join(SortedOf(names), " / ")
  }

  /**
   * `get_node_street_name`: gathers the labels of the ways through the node
   * into a set, then sorts and joins them.
   */
  method GetNodeStreetName(nodeId: NodeId, ways: seq<Way>) returns (r: string)
    ensures r == StreetLabel(nodeId, ways)
    ensures StreetNames(nodeId, ways) == {} ==> r == UnnamedLabel(nodeId)
  {
    var ruas: set<string> := {};
    var i := 0;
    while i < |ways|
      invariant 0 <= i <= |ways|
      invariant ruas == StreetNames(nodeId, ways[..i])
    {
      if nodeId in ways[i].nodes {
        ruas := ruas + {WayLabel(ways[i], nodeId)};
      }
      assert ways[..i + 1] == ways[..i] + [ways[i]];
      i := i + 1;
    }
    assert ways[..i] == ways;
    if ruas == {} {
      return UnnamedLabel(nodeId);
    }
    var ordenadas := Sorted(ruas);
    StrictlySortedUnique(ordenadas, SortedOf(ruas));
    r := Join(ordenadas, " / ");
  }

  /** Only the set of ways matters: reordering or repeating ways leaves the label unchanged. */
  lemma StreetLabelIgnoresOrder(nodeId: NodeId, ways1: seq<Way>, ways2: seq<Way>)
    requires forall w :: w in ways1 <==> w in ways2
    ensures StreetLabel(nodeId, ways1) == StreetLabel(nodeId, ways2)
  {
    assert StreetNames(nodeId, ways1) == StreetNames(nodeId, ways2);
  }

  /** The label lists every name exactly once, in increasing order. */
  lemma StreetLabelParts(nodeId: NodeId, ways: seq<Way>)
    requires StreetNames(nodeId, ways) != {}
    ensures var q := SortedOf(StreetNames(nodeId, ways));
      && StreetLabel(nodeId, ways) == Join(q, " / ")
      && StrictlySorted(q)
      && (forall i, j :: 0 <= i < j < |q| ==> q[i] != q[j])
      && (forall x :: x in q <==> exists w :: w in ways && nodeId in w.nodes && x == WayLabel(w, nodeId))
  {
  }

  /** A way through the node without a `name` tag contributes the unnamed label. */
  lemma UnnamedWayContributes(nodeId: NodeId, ways: seq<Way>, w: Way)
    requires w in ways && nodeId in w.nodes && "name" !in w.tags
    ensures UnnamedLabel(nodeId) in StreetNames(nodeId, ways)
  {
  }
}
