/**
 * `dijkstra(G, start_id, end_id, node_id_to_index, index_to_node_id)`: a
 * binary-heap shortest-path search over an index graph. Entries are popped
 * least first; the search stops as soon as the target index is popped;
 * entries whose distance exceeds the recorded one are skipped; every strict
 * improvement records a predecessor and pushes a new entry. The path is
 * rebuilt by following predecessors from the target and reversing.
 *
 * The graph is its node index set and a map from an ordered index pair to
 * the edge weight. The heap is the multiset of its entries; popping takes
 * the least `(distance, index)` pair in tuple order, which is what `heappop`
 * returns. An infinite distance is `Inf`.
 */
module Dijkstra {
  import opened Wrappers
  import opened Osm
  import opened Seqs
  import opened Entries

  /** The index graph: `G.node_indices()` and the weight of each edge. */
  datatype IndexGraph = IndexGraph(nodes: set<Idx>, weight: map<(Idx, Idx), nat>)

  /** A tentative distance: `float('inf')` or a finite value. */
  datatype Dist = Fin(n: nat) | Inf

  /** Every edge joins two nodes of the graph. */
  predicate WellFormed(G: IndexGraph) {
    forall e :: e in G.weight ==> e.0 in G.nodes && e.1 in G.nodes
  }

  /** The two maps passed in are inverse to each other and cover exactly the graph's nodes. */
  predicate Bijection(G: IndexGraph, toIndex: map<NodeId, Idx>, toId: map<Idx, NodeId>) {
    (forall id :: id in toIndex ==> toIndex[id] in G.nodes && toIndex[id] in toId && toId[toIndex[id]] == id)
    && (forall i :: i in G.nodes ==> i in toId && toId[i] in toIndex && toIndex[toId[i]] == i)
  }

  /** The id of a node index maps back to that index. */
  lemma IdOfIndex(G: IndexGraph, toIndex: map<NodeId, Idx>, toId: map<Idx, NodeId>, x: Idx)
    requires Bijection(G, toIndex, toId) && x in G.nodes
    ensures x in toId && toId[x] in toIndex && toIndex[toId[x]] == x
  {
  }

  /** `x < d`, where every finite value is below infinity. */
  predicate Less(x: nat, d: Dist) {
    d.Inf? || x < d.n
  }

  // =====================================================================
  // Paths
  // =====================================================================

  /** Consecutive indices of `p` are joined by edges. */
  predicate IsWalk(G: IndexGraph, p: seq<Idx>) {
    forall i :: 0 <= i < |p| - 1 ==> (p[i], p[i + 1]) in G.weight
  }

  /** `p` is a path from `s` to `t`. */
  predicate IsPath(G: IndexGraph, p: seq<Idx>, s: Idx, t: Idx) {
    |p| >= 1 && p[0] == s && p[|p| - 1] == t && IsWalk(G, p)
  }

  /** The summed edge weights along `p`. */
  function PathWeight(G: IndexGraph, p: seq<Idx>): nat
    requires IsWalk(G, p)
    decreases |p|
  {
    if |p| < 2 then 0
    else
      WalkTail(G, p);
      G.weight[(p[0], p[1])] + PathWeight(G, p[1..])
  }

  /** Dropping the first node of a walk leaves a walk. */
  lemma WalkTail(G: IndexGraph, p: seq<Idx>)
    requires |p| >= 1 && IsWalk(G, p)
    ensures IsWalk(G, p[1..])
  {
    forall i | 0 <= i < |p| - 2
      ensures (p[1..][i], p[1..][i + 1]) in G.weight
    {
      assert (p[i + 1], p[i + 2]) in G.weight;
    }
  }

  /** Dropping the last node of a walk leaves a walk. */
  lemma WalkInit(G: IndexGraph, p: seq<Idx>)
    requires |p| >= 1 && IsWalk(G, p)
    ensures IsWalk(G, p[..|p| - 1])
  {
    var q := p[..|p| - 1];
    forall i | 0 <= i < |q| - 1
      ensures (q[i], q[i + 1]) in G.weight
    {
      assert (p[i], p[i + 1]) in G.weight;
    }
  }

  /** The node indices of a sequence of ids. */
  function IndicesOf(toIndex: map<NodeId, Idx>, ids: seq<NodeId>): (p: seq<Idx>)
    requires forall i :: 0 <= i < |ids| ==> ids[i] in toIndex
    ensures |p| == |ids|
    ensures forall i :: 0 <= i < |p| ==> p[i] == toIndex[ids[i]]
  {
    if ids == [] then [] else [toIndex[ids[0]]] + IndicesOf(toIndex, ids[1..])
  }

  /** `d` is no more than the weight of any path from `s` to `t`. */
  ghost predicate Optimal(G: IndexGraph, s: Idx, t: Idx, d: nat) {
    forall p :: IsPath(G, p, s, t) ==> d <= PathWeight(G, p)
  }

  /** The last edge of a walk adds its weight. */
  lemma {:induction false} PathWeightSnoc(G: IndexGraph, p: seq<Idx>)
    requires |p| >= 2 && IsWalk(G, p)
    ensures IsWalk(G, p[..|p| - 1])
    ensures PathWeight(G, p) == PathWeight(G, p[..|p| - 1]) + G.weight[(p[|p| - 2], p[|p| - 1])]
    decreases |p|
  {
    var q := p[..|p| - 1];
    WalkInit(G, p);
    WalkTail(G, p);
    if |p| > 2 {
      WalkTail(G, q);
      PathWeightSnoc(G, p[1..]);
      assert p[1..][..|p| - 2] == q[1..];
    }
  }

  // =====================================================================
  // Relaxing the edges out of one node
  // =====================================================================

  /** The successors of `u`: `G.successor_indices(u)`. */
  function Succ(G: IndexGraph, u: Idx): set<Idx> {
    set v | v in G.nodes && (u, v) in G.weight
  }

  /** Going through `u`, reached at `k`, improves the distance recorded for `v`. */
  predicate Improves(G: IndexGraph, u: Idx, k: nat, D: map<Idx, Dist>, v: Idx) {
    (u, v) in G.weight && v in D && Less(k + G.weight[(u, v)], D[v])
  }

  /** The distances once the successors in `A` have been relaxed. */
  function RelaxD(G: IndexGraph, u: Idx, k: nat, D: map<Idx, Dist>, A: set<Idx>): map<Idx, Dist> {
    map v | v in D :: if v in A && Improves(G, u, k, D, v) then Fin(k + G.weight[(u, v)]) else D[v]
  }

  /** The predecessors once the successors in `A` have been relaxed. */
  function RelaxPred(G: IndexGraph, u: Idx, k: nat, D: map<Idx, Dist>, Pred: map<Idx, Option<Idx>>,
                     A: set<Idx>): map<Idx, Option<Idx>> {
    map v | v in Pred :: if v in A && Improves(G, u, k, D, v) then Some(u) else Pred[v]
  }

  /** The entries pushed while relaxing the successors in `A`. */
  function Pushed(G: IndexGraph, u: Idx, k: nat, D: map<Idx, Dist>, A: set<Idx>): set<Entry> {
    set v | v in A && Improves(G, u, k, D, v) :: (k + G.weight[(u, v)], v)
  }

  /** Relaxing never raises a distance, and moves a predecessor to `u` only where the distance strictly drops. */
  lemma RelaxOnlyImproves(G: IndexGraph, u: Idx, k: nat, D: map<Idx, Dist>, Pred: map<Idx, Option<Idx>>, A: set<Idx>)
    requires forall x :: x in D <==> x in Pred
    ensures forall x :: x in D ==> x in RelaxD(G, u, k, D, A) && x in RelaxPred(G, u, k, D, Pred, A)
    ensures forall x :: x in D && RelaxD(G, u, k, D, A)[x] != D[x] ==>
      RelaxD(G, u, k, D, A)[x].Fin? && Less(RelaxD(G, u, k, D, A)[x].n, D[x])
    ensures forall x :: x in D && RelaxPred(G, u, k, D, Pred, A)[x] != Pred[x] ==>
      RelaxPred(G, u, k, D, Pred, A)[x] == Some(u) && RelaxD(G, u, k, D, A)[x] != D[x]
  {
  }

  /**
   * Lines 27-34: relax every edge out of `u`, in whatever order the graph
   * lists the successors; each successor is visited once, so the outcome
   * does not depend on that order.
   */
  method Relax(G: IndexGraph, u: Idx, k: nat, D0: map<Idx, Dist>, Pred0: map<Idx, Option<Idx>>,
               Q0: multiset<Entry>)
    returns (D: map<Idx, Dist>, Pred: map<Idx, Option<Idx>>, Q: multiset<Entry>)
    requires WellFormed(G) && (forall x :: x in D0 <==> x in G.nodes) && (forall x :: x in Pred0 <==> x in G.nodes)
    ensures D == RelaxD(G, u, k, D0, Succ(G, u))
    ensures Pred == RelaxPred(G, u, k, D0, Pred0, Succ(G, u))
    ensures Q == Q0 + multiset(Pushed(G, u, k, D0, Succ(G, u)))
  {
    D, Pred, Q := D0, Pred0, Q0;
    var todo := Succ(G, u);
    ghost var done: set<Idx> := {};
    while todo != {}
      invariant forall x :: x in Succ(G, u) <==> x in todo || x in done
      invariant forall x :: x in todo ==> x !in done
      invariant PartlyRelaxed(G, u, k, D0, Pred0, Q0, done, D, Pred, Q)
      decreases |todo|
    {
      var v := Pick(todo);
      var nova := k + G.weight[(u, v)];
      assert v in D && D[v] == D0[v];
      if Less(nova, D[v]) {
        RelaxImproves(G, u, k, D0, Pred0, Q0, done, D, Pred, Q, v);
        D := D[v := Fin(nova)];
        Pred := Pred[v := Some(u)];
        Q := Q + multiset{(nova, v)};
      } else {
        RelaxKeeps(G, u, k, D0, Pred0, Q0, done, D, Pred, Q, v);
      }
      todo := todo - {v};
      done := done + {v};
    }
    RelaxDone(G, u, k, D0, Pred0, Q0, done, D, Pred, Q);
  }

  /** Some element of a non-empty set, as iteration over it yields next. */
  method Pick(s: set<Idx>) returns (x: Idx)
    requires s != {}
    ensures x in s
  {
    if forall y :: y !in s {
      assert false;
    }
    x :| x in s;
  }

  /** The state of the relaxation once the successors in `done` have been visited. */
  ghost predicate PartlyRelaxed(G: IndexGraph, u: Idx, k: nat, D0: map<Idx, Dist>, Pred0: map<Idx, Option<Idx>>,
                                Q0: multiset<Entry>, done: set<Idx>,
                                D: map<Idx, Dist>, Pred: map<Idx, Option<Idx>>, Q: multiset<Entry>) {
    (forall x :: x in D <==> x in D0) && (forall x :: x in Pred <==> x in Pred0)
    && (forall x :: x in D0 ==>
          D[x] == if x in done && Improves(G, u, k, D0, x) then Fin(k + G.weight[(u, x)]) else D0[x])
    && (forall x :: x in Pred0 ==>
          Pred[x] == if x in done && Improves(G, u, k, D0, x) then Some(u) else Pred0[x])
    && Q == Q0 + multiset(Pushed(G, u, k, D0, done))
  }

  /** Visiting a successor `v` whose distance improves performs exactly the update the source performs for it. */
  lemma RelaxImproves(G: IndexGraph, u: Idx, k: nat, D0: map<Idx, Dist>, Pred0: map<Idx, Option<Idx>>,
                      Q0: multiset<Entry>, done: set<Idx>,
                      D: map<Idx, Dist>, Pred: map<Idx, Option<Idx>>, Q: multiset<Entry>, v: Idx)
    requires (forall x :: x in D0 <==> x in Pred0) && v in D0 && v !in done && (u, v) in G.weight
    requires PartlyRelaxed(G, u, k, D0, Pred0, Q0, done, D, Pred, Q)
    requires Less(k + G.weight[(u, v)], D0[v])
    ensures PartlyRelaxed(G, u, k, D0, Pred0, Q0, done + {v}, D[v := Fin(k + G.weight[(u, v)])],
                          Pred[v := Some(u)], Q + multiset{(k + G.weight[(u, v)], v)})
  {
    var nova := k + G.weight[(u, v)];
    var done1 := done + {v};
    var D1, Pred1 := D[v := Fin(nova)], Pred[v := Some(u)];
    assert Improves(G, u, k, D0, v);
    forall x | x in D0
      ensures D1[x] == if x in done1 && Improves(G, u, k, D0, x) then Fin(k + G.weight[(u, x)]) else D0[x]
    {
    }
    forall x | x in Pred0
      ensures Pred1[x] == if x in done1 && Improves(G, u, k, D0, x) then Some(u) else Pred0[x]
    {
    }
    PushedGrows(G, u, k, D0, done, v);
  }

  /** The entries pushed grow by the one for `v` when its distance improves. */
  lemma PushedGrows(G: IndexGraph, u: Idx, k: nat, D0: map<Idx, Dist>, done: set<Idx>, v: Idx)
    requires v !in done && Improves(G, u, k, D0, v)
    ensures multiset(Pushed(G, u, k, D0, done + {v}))
         == multiset(Pushed(G, u, k, D0, done)) + multiset{(k + G.weight[(u, v)], v)}
  {
    var P, e := Pushed(G, u, k, D0, done), (k + G.weight[(u, v)], v);
    assert e !in P;
    assert Pushed(G, u, k, D0, done + {v}) == P + {e};
    assert multiset(P + {e}) == multiset(P) + multiset{e};
  }

  /** Visiting a successor `v` whose distance does not improve changes nothing. */
  lemma RelaxKeeps(G: IndexGraph, u: Idx, k: nat, D0: map<Idx, Dist>, Pred0: map<Idx, Option<Idx>>,
                   Q0: multiset<Entry>, done: set<Idx>,
                   D: map<Idx, Dist>, Pred: map<Idx, Option<Idx>>, Q: multiset<Entry>, v: Idx)
    requires (forall x :: x in D0 <==> x in Pred0) && v in D0 && v !in done && (u, v) in G.weight
    requires PartlyRelaxed(G, u, k, D0, Pred0, Q0, done, D, Pred, Q)
    requires !Less(k + G.weight[(u, v)], D0[v])
    ensures PartlyRelaxed(G, u, k, D0, Pred0, Q0, done + {v}, D, Pred, Q)
  {
    assert Pushed(G, u, k, D0, done + {v}) == Pushed(G, u, k, D0, done);
  }

  /** Once every successor is visited, the state is the relaxed one. */
  lemma RelaxDone(G: IndexGraph, u: Idx, k: nat, D0: map<Idx, Dist>, Pred0: map<Idx, Option<Idx>>,
                  Q0: multiset<Entry>, done: set<Idx>,
                  D: map<Idx, Dist>, Pred: map<Idx, Option<Idx>>, Q: multiset<Entry>)
    requires forall x :: x in Succ(G, u) <==> x in done
    requires PartlyRelaxed(G, u, k, D0, Pred0, Q0, done, D, Pred, Q)
    ensures D == RelaxD(G, u, k, D0, Succ(G, u))
    ensures Pred == RelaxPred(G, u, k, D0, Pred0, Succ(G, u))
    ensures Q == Q0 + multiset(Pushed(G, u, k, D0, Succ(G, u)))
  {
    var A := Succ(G, u);
    forall x | x in A
      ensures x in done
    {
    }
    forall x | x in done
      ensures x in A
    {
    }
    assert done == A;
    var D1 := RelaxD(G, u, k, D0, A);
    forall x | x in D
      ensures x in D1 && D[x] == D1[x]
    {
    }
    assert D == D1;
    var Pred1 := RelaxPred(G, u, k, D0, Pred0, A);
    forall x | x in Pred
      ensures x in Pred1 && Pred[x] == Pred1[x]
    {
    }
    assert Pred == Pred1;
  }

  // =====================================================================
  // Loop invariant of the search
  // =====================================================================

  /** The distance and predecessor tables cover the nodes; the start is at 0 with no predecessor. */
  ghost predicate Tables(G: IndexGraph, si: Idx, D: map<Idx, Dist>, Pred: map<Idx, Option<Idx>>) {
    (forall x :: x in D <==> x in G.nodes) && (forall x :: x in Pred <==> x in G.nodes)
    && si in G.nodes && D[si] == Fin(0) && Pred[si] == None
  }

  /** `p` is a settled predecessor of `v` and `v`'s distance goes through it. */
  ghost predicate PredEdge(G: IndexGraph, D: map<Idx, Dist>, S: set<Idx>, p: Idx, v: Idx) {
    p in S && (p, v) in G.weight && p in D && v in D && D[p].Fin? && D[v].Fin?
    && D[v].n == D[p].n + G.weight[(p, v)]
  }

  /** Every recorded predecessor is settled and explains the distance; every reached node but the start has one. */
  ghost predicate PredOk(G: IndexGraph, si: Idx, D: map<Idx, Dist>, Pred: map<Idx, Option<Idx>>, S: set<Idx>) {
    Tables(G, si, D, Pred) && S <= G.nodes
    && (forall v :: v in G.nodes && Pred[v].Some? ==> PredEdge(G, D, S, Pred[v].value, v))
    && (forall v :: v in G.nodes && v != si && D[v].Fin? ==> Pred[v].Some?)
  }

  /** Settled nodes have optimal distances, and the edges out of them are relaxed. */
  ghost predicate SettledOk(G: IndexGraph, si: Idx, D: map<Idx, Dist>, S: set<Idx>) {
    WellFormed(G) && S <= G.nodes && (forall x :: x in D <==> x in G.nodes)
    && (forall x :: x in S ==> D[x].Fin? && Optimal(G, si, x, D[x].n))
    && (forall x, v :: x in S && (x, v) in G.weight ==>
          D[x].Fin? && D[v].Fin? && D[v].n <= D[x].n + G.weight[(x, v)])
  }

  /**
   * Every heap entry is present once, bounds its node's distance from above
   * and lies at or above `lo`, the last key popped; a settled node's entries
   * are all stale.
   */
  ghost predicate QueueEntries(G: IndexGraph, D: map<Idx, Dist>, Q: multiset<Entry>, S: set<Idx>, lo: nat) {
    forall e :: e in Q ==>
      Q[e] == 1 && e.1 in G.nodes && e.1 in D && D[e.1].Fin? && D[e.1].n <= e.0 && lo <= e.0
      && (e.1 in S ==> D[e.1].n < e.0)
  }

  /** Every reached, unsettled node has an entry at its distance. */
  ghost predicate QueueCovers(G: IndexGraph, D: map<Idx, Dist>, Q: multiset<Entry>, S: set<Idx>) {
    forall v :: v in G.nodes && v !in S && v in D && D[v].Fin? ==> (D[v].n, v) in Q
  }

  /** The heap invariant; besides, settled distances are at most `lo`. */
  ghost predicate QueueOk(G: IndexGraph, D: map<Idx, Dist>, Q: multiset<Entry>, S: set<Idx>, lo: nat) {
    S <= G.nodes && (forall x :: x in D <==> x in G.nodes)
    && QueueEntries(G, D, Q, S, lo)
    && (forall x :: x in S ==> x in D && D[x].Fin? && D[x].n <= lo)
    && QueueCovers(G, D, Q, S)
  }

  /** Nodes are ranked in the order they were settled; a predecessor ranks below its node. */
  ghost predicate RankOk(G: IndexGraph, Pred: map<Idx, Option<Idx>>, S: set<Idx>, rank: map<Idx, nat>, count: nat) {
    (forall x :: x in Pred <==> x in G.nodes) && S <= G.nodes && (forall x :: x in rank <==> x in S)
    && forall x :: x in S ==> rank[x] < count && (Pred[x].Some? ==> Pred[x].value in S && rank[Pred[x].value] < rank[x])
  }

  ghost predicate Inv(G: IndexGraph, si: Idx, ei: Idx, D: map<Idx, Dist>, Pred: map<Idx, Option<Idx>>,
                      Q: multiset<Entry>, S: set<Idx>, lo: nat, rank: map<Idx, nat>, count: nat) {
    WellFormed(G) && ei in G.nodes && ei !in S
    && PredOk(G, si, D, Pred, S) && SettledOk(G, si, D, S) && QueueOk(G, D, Q, S, lo)
    && RankOk(G, Pred, S, rank, count)
  }

  // =====================================================================
  // Lemmas about one step of the search
  // =====================================================================

  /**
   * A path from the start to an unsettled node leaves the settled set at a
   * node whose heap entry is at most the path's weight.
   */
  lemma {:induction false} FrontierBound(G: IndexGraph, si: Idx, D: map<Idx, Dist>, Q: multiset<Entry>,
                                         S: set<Idx>, lo: nat, p: seq<Idx>, x: Idx)
    requires si in G.nodes && si in D && D[si] == Fin(0)
    requires SettledOk(G, si, D, S) && QueueOk(G, D, Q, S, lo)
    requires IsPath(G, p, si, x) && x !in S
    ensures exists e :: e in Q && e.0 <= PathWeight(G, p)
    decreases |p|
  {
    if |p| == 1 {
      assert (D[si].n, si) in Q;
    } else {
      var q := p[..|p| - 1];
      var y := p[|p| - 2];
      PathWeightSnoc(G, p);
      assert q[0] == si && q[|q| - 1] == y;
      if y in S {
        assert Optimal(G, si, y, D[y].n);
        assert IsPath(G, q, si, y);
        assert (y, x) in G.weight;
        assert (D[x].n, x) in Q;
      } else {
        FrontierBound(G, si, D, Q, S, lo, q, y);
      }
    }
  }

  /** When the heap runs empty, the target is unreachable. */
  lemma EmptyMeansUnreachable(G: IndexGraph, si: Idx, ei: Idx, D: map<Idx, Dist>, Pred: map<Idx, Option<Idx>>,
                              S: set<Idx>, lo: nat, rank: map<Idx, nat>, count: nat)
    requires Inv(G, si, ei, D, Pred, multiset{}, S, lo, rank, count)
    ensures forall p :: !IsPath(G, p, si, ei)
  {
    forall p | IsPath(G, p, si, ei)
      ensures false
    {
      FrontierBound(G, si, D, multiset{}, S, lo, p, ei);
    }
  }

  /** The least entry bounds every path to its unsettled node from below. */
  lemma LeastIsOptimal(G: IndexGraph, si: Idx, ei: Idx, D: map<Idx, Dist>, Pred: map<Idx, Option<Idx>>,
                       Q: multiset<Entry>, S: set<Idx>, lo: nat, rank: map<Idx, nat>, count: nat, k: nat, u: Idx)
    requires Inv(G, si, ei, D, Pred, Q, S, lo, rank, count)
    requires (k, u) in Q && forall e :: e in Q ==> DistEntryLe((k, u), e)
    requires u !in S
    ensures Optimal(G, si, u, k)
  {
    forall p | IsPath(G, p, si, u)
      ensures k <= PathWeight(G, p)
    {
      FrontierBound(G, si, D, Q, S, lo, p, u);
    }
  }

  /** The first time the target is popped, its entry is its recorded, optimal distance. */
  lemma TargetPopped(G: IndexGraph, si: Idx, ei: Idx, D: map<Idx, Dist>, Pred: map<Idx, Option<Idx>>,
                     Q: multiset<Entry>, S: set<Idx>, lo: nat, rank: map<Idx, nat>, count: nat, k: nat)
    requires Inv(G, si, ei, D, Pred, Q, S, lo, rank, count)
    requires (k, ei) in Q && forall e :: e in Q ==> DistEntryLe((k, ei), e)
    ensures D[ei] == Fin(k) && Optimal(G, si, ei, k)
  {
    LeastIsOptimal(G, si, ei, D, Pred, Q, S, lo, rank, count, k, ei);
    assert (D[ei].n, ei) in Q;
  }

  /** A popped entry names a reached node whose distance is at most the entry's key. */
  lemma PoppedEntry(G: IndexGraph, si: Idx, ei: Idx, D: map<Idx, Dist>, Pred: map<Idx, Option<Idx>>,
                    Q: multiset<Entry>, S: set<Idx>, lo: nat, rank: map<Idx, nat>, count: nat, e: Entry)
    requires Inv(G, si, ei, D, Pred, Q, S, lo, rank, count) && e in Q
    ensures e.1 in G.nodes && e.1 in D && D[e.1].Fin? && D[e.1].n <= e.0
  {
  }

  /** Settling one more node leaves fewer unsettled nodes. */
  lemma SettleShrinks(nodes: set<Idx>, S: set<Idx>, u: Idx)
    requires u in nodes && u !in S
    ensures |nodes - (S + {u})| < |nodes - S|
  {
    assert nodes - S == (nodes - (S + {u})) + {u};
  }

  /** Skipping a stale entry keeps the invariant. */
  lemma SkipStale(G: IndexGraph, si: Idx, ei: Idx, D: map<Idx, Dist>, Pred: map<Idx, Option<Idx>>,
                  Q: multiset<Entry>, S: set<Idx>, lo: nat, rank: map<Idx, nat>, count: nat, k: nat, u: Idx)
    requires Inv(G, si, ei, D, Pred, Q, S, lo, rank, count)
    requires (k, u) in Q && forall e :: e in Q ==> DistEntryLe((k, u), e)
    requires D[u].n < k
    ensures Inv(G, si, ei, D, Pred, Q - multiset{(k, u)}, S, k, rank, count)
  {
    var Q1 := Q - multiset{(k, u)};
    forall v | v in G.nodes && v !in S && D[v].Fin?
      ensures (D[v].n, v) in Q1
    {
      assert (D[v].n, v) in Q;
    }
  }

  /** Facts about the state once `u` is settled at `k` and its edges relaxed. */
  lemma RelaxedFacts(G: IndexGraph, si: Idx, ei: Idx, D: map<Idx, Dist>, Pred: map<Idx, Option<Idx>>,
                     Q: multiset<Entry>, S: set<Idx>, lo: nat, rank: map<Idx, nat>, count: nat, k: nat, u: Idx)
    requires Inv(G, si, ei, D, Pred, Q, S, lo, rank, count)
    requires (k, u) in Q && forall e :: e in Q ==> DistEntryLe((k, u), e)
    requires D[u] == Fin(k)
    ensures u !in S && lo <= k
    ensures forall x :: x in S + {u} ==> !Improves(G, u, k, D, x)
  {
    assert lo <= k;
  }

  /** Settling the least entry's node and relaxing its edges keeps the invariant. */
  lemma SettleKeepsInv(G: IndexGraph, si: Idx, ei: Idx, D: map<Idx, Dist>, Pred: map<Idx, Option<Idx>>,
                       Q: multiset<Entry>, S: set<Idx>, lo: nat, rank: map<Idx, nat>, count: nat, k: nat, u: Idx,
                       D1: map<Idx, Dist>, Pred1: map<Idx, Option<Idx>>, Q1: multiset<Entry>)
    requires Inv(G, si, ei, D, Pred, Q, S, lo, rank, count)
    requires (k, u) in Q && forall e :: e in Q ==> DistEntryLe((k, u), e)
    requires D[u] == Fin(k) && u != ei
    requires D1 == RelaxD(G, u, k, D, Succ(G, u)) && Pred1 == RelaxPred(G, u, k, D, Pred, Succ(G, u))
    requires Q1 == (Q - multiset{(k, u)}) + multiset(Pushed(G, u, k, D, Succ(G, u)))
    ensures u in G.nodes && u !in S
    ensures Inv(G, si, ei, D1, Pred1, Q1, S + {u}, k, rank[u := count], count + 1)
  {
    LeastIsOptimal(G, si, ei, D, Pred, Q, S, lo, rank, count, k, u);
    RelaxedFacts(G, si, ei, D, Pred, Q, S, lo, rank, count, k, u);
    SettleKeepsPred(G, si, D, Pred, S, k, u);
    SettleKeepsSettled(G, si, D, S, k, u);
    SettleKeepsQueue(G, D, Q, S, lo, k, u);
    SettleKeepsRank(G, D, Pred, S, rank, count, k, u);
  }

  lemma SettleKeepsRank(G: IndexGraph, D: map<Idx, Dist>, Pred: map<Idx, Option<Idx>>, S: set<Idx>,
                        rank: map<Idx, nat>, count: nat, k: nat, u: Idx)
    requires RankOk(G, Pred, S, rank, count) && u in G.nodes && u !in S
    requires Pred[u].Some? ==> Pred[u].value in S
    requires forall x :: x in S + {u} ==> !Improves(G, u, k, D, x)
    ensures RankOk(G, RelaxPred(G, u, k, D, Pred, Succ(G, u)), S + {u}, rank[u := count], count + 1)
  {
    var Pred1 := RelaxPred(G, u, k, D, Pred, Succ(G, u));
    forall x | x in S + {u}
      ensures Pred1[x] == Pred[x]
    {
      assert !Improves(G, u, k, D, x);
    }
  }

  lemma SettleKeepsPred(G: IndexGraph, si: Idx, D: map<Idx, Dist>, Pred: map<Idx, Option<Idx>>,
                        S: set<Idx>, k: nat, u: Idx)
    requires WellFormed(G) && PredOk(G, si, D, Pred, S) && u in G.nodes && D[u] == Fin(k)
    requires forall x :: x in S + {u} ==> !Improves(G, u, k, D, x)
    ensures PredOk(G, si, RelaxD(G, u, k, D, Succ(G, u)), RelaxPred(G, u, k, D, Pred, Succ(G, u)), S + {u})
  {
    var A := Succ(G, u);
    var D1 := RelaxD(G, u, k, D, A);
    var Pred1 := RelaxPred(G, u, k, D, Pred, A);
    assert D1[si] == D[si] && Pred1[si] == Pred[si] by {
      assert !Improves(G, u, k, D, si);
    }
    forall v | v in G.nodes && Pred1[v].Some?
      ensures PredEdge(G, D1, S + {u}, Pred1[v].value, v)
    {
      if v in A && Improves(G, u, k, D, v) {
        assert D1[u] == D[u];
      } else {
        var p := Pred[v].value;
        assert PredEdge(G, D, S, p, v);
        assert D1[p] == D[p];
      }
    }
  }

  lemma SettleKeepsSettled(G: IndexGraph, si: Idx, D: map<Idx, Dist>, S: set<Idx>, k: nat, u: Idx)
    requires SettledOk(G, si, D, S) && u in G.nodes && D[u] == Fin(k) && Optimal(G, si, u, k)
    requires forall x :: x in S + {u} ==> !Improves(G, u, k, D, x)
    ensures SettledOk(G, si, RelaxD(G, u, k, D, Succ(G, u)), S + {u})
  {
    var D1 := RelaxD(G, u, k, D, Succ(G, u));
    forall x | x in S + {u}
      ensures D1[x] == D[x]
    {
    }
    forall x, v | x in S + {u} && (x, v) in G.weight
      ensures D1[x].Fin? && D1[v].Fin? && D1[v].n <= D1[x].n + G.weight[(x, v)]
    {
      assert v in G.nodes;
    }
  }

  /** An entry pushed while settling `u` is new to the heap and records its node's new distance. */
  lemma PushedFresh(G: IndexGraph, D: map<Idx, Dist>, Q: multiset<Entry>, S: set<Idx>, lo: nat, k: nat, u: Idx)
    requires QueueOk(G, D, Q, S, lo)
    requires forall x :: x in S + {u} ==> !Improves(G, u, k, D, x)
    ensures forall e :: e in Pushed(G, u, k, D, Succ(G, u)) ==>
      e !in Q && e.1 in D && e.1 !in S + {u} && k <= e.0 && RelaxD(G, u, k, D, Succ(G, u))[e.1] == Fin(e.0)
  {
    var A := Succ(G, u);
    forall e | e in Pushed(G, u, k, D, A)
      ensures e !in Q && e.1 in D && e.1 !in S + {u} && k <= e.0 && RelaxD(G, u, k, D, A)[e.1] == Fin(e.0)
    {
      var v :| v in A && Improves(G, u, k, D, v) && e == (k + G.weight[(u, v)], v);
    }
  }

  /** Popping `(k, u)` and pushing the improved successors keeps every entry valid. */
  lemma SettleQueueEntries(G: IndexGraph, D: map<Idx, Dist>, Q: multiset<Entry>, S: set<Idx>, lo: nat, k: nat, u: Idx)
    requires QueueOk(G, D, Q, S, lo)
    requires (k, u) in Q && forall e :: e in Q ==> DistEntryLe((k, u), e)
    requires u in D && D[u] == Fin(k) && lo <= k
    requires forall x :: x in S + {u} ==> !Improves(G, u, k, D, x)
    ensures QueueEntries(G, RelaxD(G, u, k, D, Succ(G, u)),
                         (Q - multiset{(k, u)}) + multiset(Pushed(G, u, k, D, Succ(G, u))), S + {u}, k)
  {
    var A := Succ(G, u);
    var D1 := RelaxD(G, u, k, D, A);
    var P := Pushed(G, u, k, D, A);
    var R := Q - multiset{(k, u)};
    var Q1 := R + multiset(P);
    var S1 := S + {u};
    PushedFresh(G, D, Q, S, lo, k, u);
    forall e: Entry | e in Q1
      ensures Q1[e] == 1 && e.1 in G.nodes && e.1 in D1 && D1[e.1].Fin? && D1[e.1].n <= e.0 && k <= e.0
              && (e.1 in S1 ==> D1[e.1].n < e.0)
    {
      if e in P {
        assert R[e] == 0;
      } else {
        assert e in R && e != (k, u);
        assert DistEntryLe((k, u), e);
      }
    }
  }

  /** After settling `u`, every reached, unsettled node still has an entry at its distance. */
  lemma SettleQueueCovers(G: IndexGraph, D: map<Idx, Dist>, Q: multiset<Entry>, S: set<Idx>, lo: nat, k: nat, u: Idx)
    requires QueueOk(G, D, Q, S, lo)
    ensures QueueCovers(G, RelaxD(G, u, k, D, Succ(G, u)),
                        (Q - multiset{(k, u)}) + multiset(Pushed(G, u, k, D, Succ(G, u))), S + {u})
  {
    var A := Succ(G, u);
    var D1 := RelaxD(G, u, k, D, A);
    var P := Pushed(G, u, k, D, A);
    var R := Q - multiset{(k, u)};
    forall v | v in G.nodes && v !in S + {u} && v in D1 && D1[v].Fin?
      ensures (D1[v].n, v) in R + multiset(P)
    {
      if v in A && Improves(G, u, k, D, v) {
        assert (D1[v].n, v) in P;
      } else {
        assert (D[v].n, v) in Q;
        assert (D[v].n, v) in R;
      }
    }
  }

  lemma SettleKeepsQueue(G: IndexGraph, D: map<Idx, Dist>, Q: multiset<Entry>, S: set<Idx>, lo: nat, k: nat, u: Idx)
    requires QueueOk(G, D, Q, S, lo)
    requires (k, u) in Q && forall e :: e in Q ==> DistEntryLe((k, u), e)
    requires u in D && D[u] == Fin(k) && lo <= k
    requires forall x :: x in S + {u} ==> !Improves(G, u, k, D, x)
    ensures QueueOk(G, RelaxD(G, u, k, D, Succ(G, u)),
                    (Q - multiset{(k, u)}) + multiset(Pushed(G, u, k, D, Succ(G, u))), S + {u}, k)
  {
    var D1 := RelaxD(G, u, k, D, Succ(G, u));
    SettleQueueEntries(G, D, Q, S, lo, k, u);
    SettleQueueCovers(G, D, Q, S, lo, k, u);
    forall x | x in S + {u}
      ensures x in D1 && D1[x] == D[x]
    {
    }
  }

  // =====================================================================
  // The search
  // =====================================================================

  /** The initial tables and heap satisfy the invariant of the search. */
  lemma SearchStarts(G: IndexGraph, si: Idx, ei: Idx, D: map<Idx, Dist>, Pred: map<Idx, Option<Idx>>)
    requires WellFormed(G) && si in G.nodes && ei in G.nodes
    requires D == (map v | v in G.nodes :: Inf)[si := Fin(0)]
    requires Pred == map v | v in G.nodes :: None
    ensures Inv(G, si, ei, D, Pred, multiset{(0, si)}, {}, 0, map[], 0)
  {
  }

  /**
   * Lines 9-37: the search loop, from the start index `si` until the target
   * index `ei` is popped or the heap runs empty. On success the tables hold
   * the target's optimal distance and a predecessor chain back to the start.
   */
  method Search(G: IndexGraph, si: Idx, ei: Idx)
    returns (found: bool, D: map<Idx, Dist>, Pred: map<Idx, Option<Idx>>,
             ghost S: set<Idx>, ghost rank: map<Idx, nat>, ghost count: nat)
    requires WellFormed(G) && si in G.nodes && ei in G.nodes
    ensures !found ==> forall p :: !IsPath(G, p, si, ei)
    ensures found ==>
      PredOk(G, si, D, Pred, S) && RankOk(G, Pred, S, rank, count) && ei !in S
      && D[ei].Fin? && Optimal(G, si, ei, D[ei].n)
    ensures si == ei ==> found && D[ei] == Fin(0)
  {
    D := map v | v in G.nodes :: Inf;
    D := D[si := Fin(0)];
    var Q: multiset<Entry> := multiset{(0, si)};
    Pred := map v | v in G.nodes :: None;
    S, rank, count := {}, map[], 0;
    ghost var lo: nat := 0;
    SearchStarts(G, si, ei, D, Pred);
    while Q != multiset{}
      invariant Inv(G, si, ei, D, Pred, Q, S, lo, rank, count)
      invariant si == ei ==> Q == multiset{(0, si)}
      decreases |G.nodes - S|, |Q|
    {
      var hit, popped;
      hit, popped, D, Pred, Q, S, lo, rank, count := Step(G, si, ei, D, Pred, Q, S, lo, rank, count);
      if hit {
        return true, D, Pred, S, rank, count;
      }
    }
    EmptyMeansUnreachable(G, si, ei, D, Pred, S, lo, rank, count);
    found := false;
  }

  /**
   * One pass of the loop body, lines 17-34: pop the least entry; stop if it
   * is the target; skip it if stale; otherwise settle its node and relax the
   * edges out of it. `popped` is the entry `heappop` returned.
   */
  method Step(G: IndexGraph, si: Idx, ei: Idx, D: map<Idx, Dist>, Pred: map<Idx, Option<Idx>>, Q: multiset<Entry>,
              ghost S: set<Idx>, ghost lo: nat, ghost rank: map<Idx, nat>, ghost count: nat)
    returns (hit: bool, popped: Entry, D1: map<Idx, Dist>, Pred1: map<Idx, Option<Idx>>, Q1: multiset<Entry>,
             ghost S1: set<Idx>, ghost lo1: nat, ghost rank1: map<Idx, nat>, ghost count1: nat)
    requires Inv(G, si, ei, D, Pred, Q, S, lo, rank, count) && Q != multiset{}
    requires si == ei ==> Q == multiset{(0, si)}
    ensures popped in Q && forall e :: e in Q ==> DistEntryLe(popped, e)
    ensures hit <==> popped.1 == ei
    ensures !hit ==> popped.1 in D && D[popped.1].Fin? && D[popped.1].n <= popped.0
    ensures !hit && D[popped.1].n < popped.0 ==>
      D1 == D && Pred1 == Pred && Q1 == Q - multiset{popped}
    ensures !hit && D[popped.1].n == popped.0 ==>
      D1 == RelaxD(G, popped.1, popped.0, D, Succ(G, popped.1))
      && Pred1 == RelaxPred(G, popped.1, popped.0, D, Pred, Succ(G, popped.1))
      && Q1 == (Q - multiset{popped}) + multiset(Pushed(G, popped.1, popped.0, D, Succ(G, popped.1)))
    ensures hit ==>
      D1 == D && Pred1 == Pred && S1 == S && rank1 == rank && count1 == count
      && D[ei].Fin? && Optimal(G, si, ei, D[ei].n) && (si == ei ==> D[ei] == Fin(0))
    ensures !hit ==> si != ei && Inv(G, si, ei, D1, Pred1, Q1, S1, lo1, rank1, count1)
    ensures !hit ==>
      |G.nodes - S1| < |G.nodes - S| || (|G.nodes - S1| == |G.nodes - S| && |Q1| < |Q|)
  {
    var e := PopLeast(Q);
    popped := e;
    var k, u := e.0, e.1;
    PoppedEntry(G, si, ei, D, Pred, Q, S, lo, rank, count, e);
    Q1 := Q - multiset{e};
    if u == ei {
      TargetPopped(G, si, ei, D, Pred, Q, S, lo, rank, count, k);
      return true, e, D, Pred, Q1, S, lo, rank, count;
    }
    if k > D[u].n {
      SkipStale(G, si, ei, D, Pred, Q, S, lo, rank, count, k, u);
      return false, e, D, Pred, Q1, S, k, rank, count;
    }
    D1, Pred1, Q1 := Relax(G, u, k, D, Pred, Q1);
    SettleKeepsInv(G, si, ei, D, Pred, Q, S, lo, rank, count, k, u, D1, Pred1, Q1);
    SettleShrinks(G.nodes, S, u);
    hit, S1, lo1, rank1, count1 := false, S + {u}, k, rank[u := count], count + 1;
  }

  /** The least entry of a non-empty heap: what `heappop` returns. */
  method PopLeast(Q: multiset<Entry>) returns (e: Entry)
    requires Q != multiset{}
    ensures e in Q && forall e' :: e' in Q ==> DistEntryLe(e, e')
  {
    LeastEntryExists(Q);
    e :| e in Q && forall e' :: e' in Q ==> DistEntryLe(e, e');
  }

  /**
   * Lines 39-45: follow the predecessors back from the target, collecting
   * ids, then reverse. The result is a path from the start whose weight is
   * the target's recorded distance.
   */
  method Rebuild(G: IndexGraph, si: Idx, ei: Idx, D: map<Idx, Dist>, Pred: map<Idx, Option<Idx>>,
                 toIndex: map<NodeId, Idx>, toId: map<Idx, NodeId>,
                 ghost S: set<Idx>, ghost rank: map<Idx, nat>, ghost count: nat)
    returns (ids: seq<NodeId>)
    requires WellFormed(G) && Bijection(G, toIndex, toId)
    requires PredOk(G, si, D, Pred, S) && RankOk(G, Pred, S, rank, count) && ei in G.nodes && ei !in S
    requires D[ei].Fin?
    ensures forall i :: 0 <= i < |ids| ==> ids[i] in toIndex
    ensures IsPath(G, IndicesOf(toIndex, ids), si, ei)
    ensures PathWeight(G, IndicesOf(toIndex, ids)) == D[ei].n
    ensures si == ei ==> ids == [toId[ei]]
  {
    var caminho: seq<NodeId> := [];
    var cur: Option<Idx> := Some(ei);
    ghost var fwd: seq<Idx> := [];
    while cur.Some?
      invariant fwd == [] ==> cur == Some(ei) && caminho == []
      invariant fwd != [] ==> ChainBack(G, ei, D, fwd) && fwd[0] in Pred && cur == Pred[fwd[0]]
      invariant cur.Some? ==> cur.value in G.nodes && (cur.value == ei || cur.value in S)
      invariant Mirrors(caminho, fwd, toId)
      invariant si == ei && fwd != [] ==> fwd == [ei] && cur == None
      decreases if cur.None? then 0 else if cur.value in S then rank[cur.value] + 1 else count + 1
    {
      var x := cur.value;
      ChainExtend(G, si, ei, D, Pred, S, fwd, x);
      PredRanked(G, si, D, Pred, S, rank, count, x);
      IdOfIndex(G, toIndex, toId, x);
      MirrorsPrepend(caminho, fwd, toId, x);
      caminho := caminho + [toId[x]];
      fwd := [x] + fwd;
      cur := Pred[x];
    }
    NoPredIsStart(G, si, D, Pred, S, fwd[0]);
    ids := Reversed(caminho);
    ReversedAt(caminho);
    MirrorsIndices(G, toIndex, toId, fwd, caminho, ids);
  }

  /** `fwd` is a walk ending at `ei` along which the recorded distances add up. */
  ghost predicate ChainBack(G: IndexGraph, ei: Idx, D: map<Idx, Dist>, fwd: seq<Idx>) {
    |fwd| >= 1 && fwd[|fwd| - 1] == ei && IsWalk(G, fwd)
    && (forall i :: 0 <= i < |fwd| ==> fwd[i] in G.nodes)
    && fwd[0] in D && ei in D && D[fwd[0]].Fin? && D[ei].Fin?
    && D[ei].n == D[fwd[0]].n + PathWeight(G, fwd)
  }

  /** `caminho` lists the ids of `fwd` back to front. */
  ghost predicate Mirrors(caminho: seq<NodeId>, fwd: seq<Idx>, toId: map<Idx, NodeId>) {
    |caminho| == |fwd|
    && forall i :: 0 <= i < |fwd| ==> fwd[i] in toId && caminho[|fwd| - 1 - i] == toId[fwd[i]]
  }

  /** Following the predecessor of the chain's first node extends the chain. */
  lemma ChainExtend(G: IndexGraph, si: Idx, ei: Idx, D: map<Idx, Dist>, Pred: map<Idx, Option<Idx>>,
                    S: set<Idx>, fwd: seq<Idx>, x: Idx)
    requires WellFormed(G) && PredOk(G, si, D, Pred, S) && ei in G.nodes && D[ei].Fin?
    requires fwd == [] ==> x == ei
    requires fwd != [] ==> ChainBack(G, ei, D, fwd) && fwd[0] in Pred && Pred[fwd[0]] == Some(x)
    ensures ChainBack(G, ei, D, [x] + fwd) && x in Pred
  {
    var f := [x] + fwd;
    assert f[1..] == fwd;
    if fwd != [] {
      assert PredEdge(G, D, S, x, fwd[0]);
      assert IsWalk(G, f) by {
        forall i | 0 <= i < |f| - 1
          ensures (f[i], f[i + 1]) in G.weight
        {
          if i > 0 {
            assert f[i] == fwd[i - 1] && f[i + 1] == fwd[i];
          }
        }
      }
    }
  }

  /** The predecessor of a node ranks below it, so the walk back terminates. */
  lemma PredRanked(G: IndexGraph, si: Idx, D: map<Idx, Dist>, Pred: map<Idx, Option<Idx>>,
                   S: set<Idx>, rank: map<Idx, nat>, count: nat, x: Idx)
    requires PredOk(G, si, D, Pred, S) && RankOk(G, Pred, S, rank, count) && x in G.nodes
    ensures x in Pred
    ensures Pred[x].Some? ==>
      Pred[x].value in G.nodes && Pred[x].value in S && Pred[x].value in rank
      && rank[Pred[x].value] < (if x in S then rank[x] else count)
  {
    if Pred[x].Some? {
      assert PredEdge(G, D, S, Pred[x].value, x);
    }
  }

  /** Appending the id of `x` to `caminho` mirrors prepending `x` to `fwd`. */
  lemma MirrorsPrepend(caminho: seq<NodeId>, fwd: seq<Idx>, toId: map<Idx, NodeId>, x: Idx)
    requires Mirrors(caminho, fwd, toId) && x in toId
    ensures Mirrors(caminho + [toId[x]], [x] + fwd, toId)
  {
    var c, f := caminho + [toId[x]], [x] + fwd;
    forall i | 0 <= i < |f|
      ensures f[i] in toId && c[|f| - 1 - i] == toId[f[i]]
    {
      if i > 0 {
        assert f[i] == fwd[i - 1];
        assert c[|f| - 1 - i] == caminho[|fwd| - 1 - (i - 1)];
      }
    }
    assert |c| == |f|;
  }

  /** A reached node without a predecessor is the start. */
  lemma NoPredIsStart(G: IndexGraph, si: Idx, D: map<Idx, Dist>, Pred: map<Idx, Option<Idx>>, S: set<Idx>, v: Idx)
    requires PredOk(G, si, D, Pred, S) && v in G.nodes && D[v].Fin? && Pred[v] == None
    ensures v == si
  {
  }

  /** Reading the mirrored ids front to back gives back the chain's indices. */
  lemma MirrorsIndices(G: IndexGraph, toIndex: map<NodeId, Idx>, toId: map<Idx, NodeId>,
                       fwd: seq<Idx>, caminho: seq<NodeId>, ids: seq<NodeId>)
    requires Bijection(G, toIndex, toId) && Mirrors(caminho, fwd, toId)
    requires forall i :: 0 <= i < |fwd| ==> fwd[i] in G.nodes
    requires |ids| == |caminho| && forall i :: 0 <= i < |ids| ==> ids[i] == caminho[|caminho| - 1 - i]
    ensures forall i :: 0 <= i < |ids| ==> ids[i] in toIndex
    ensures IndicesOf(toIndex, ids) == fwd
  {
    forall i | 0 <= i < |ids|
      ensures ids[i] in toIndex && toIndex[ids[i]] == fwd[i]
    {
      assert ids[i] == caminho[|fwd| - 1 - i];
      IdOfIndex(G, toIndex, toId, fwd[i]);
    }
    var p := IndicesOf(toIndex, ids);
    assert |p| == |fwd| && forall i :: 0 <= i < |p| ==> p[i] == fwd[i];
  }


  /**
   * `dijkstra`: the id path from `startId` to `endId` and its distance, or
   * `(None, Inf)` when either id is unknown or the target is unreachable.
   */
  method Dijkstra(G: IndexGraph, startId: NodeId, endId: NodeId, toIndex: map<NodeId, Idx>, toId: map<Idx, NodeId>)
    returns (path: Option<seq<NodeId>>, d: Dist)
    requires WellFormed(G) && Bijection(G, toIndex, toId)
    ensures startId !in toIndex || endId !in toIndex ==> path == None && d == Inf
    ensures path.None? ==> d == Inf
    ensures path.None? && startId in toIndex && endId in toIndex ==>
      forall p :: !IsPath(G, p, toIndex[startId], toIndex[endId])
    ensures path.Some? ==>
      var ids := path.value;
      startId in toIndex && endId in toIndex
      && |ids| >= 1 && ids[0] == startId && ids[|ids| - 1] == endId
      && (forall i :: 0 <= i < |ids| ==> ids[i] in toIndex)
      && IsPath(G, IndicesOf(toIndex, ids), toIndex[startId], toIndex[endId])
      && d == Fin(PathWeight(G, IndicesOf(toIndex, ids)))
      && Optimal(G, toIndex[startId], toIndex[endId], d.n)
    ensures startId == endId && startId in toIndex ==> path == Some([startId]) && d == Fin(0)
  {
    if startId !in toIndex || endId !in toIndex {
      return None, Inf;
    }
    var si := toIndex[startId];
    var ei := toIndex[endId];
    var found, D, Pred, S, rank, count := Search(G, si, ei);
    if !found {
      return None, Inf;
    }
    var ids := Rebuild(G, si, ei, D, Pred, toIndex, toId, S, rank, count);
    var p := IndicesOf(toIndex, ids);
    assert toIndex[ids[0]] == si && toIndex[ids[|ids| - 1]] == ei;
    return Some(ids), D[ei];
  }
}
