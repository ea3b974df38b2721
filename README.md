# Optirota core in Dafny

Optirota is a route finder over OpenStreetMap data. This project models its
computational core and proves its properties:

- **Street-graph construction** (`build_graph`, module `Build`; facts in `BuildFacts`).
  - Keeps the ways tagged `highway`.
  - Counts how often each node occurs across them and promotes nodes used more than once to vertices (crossings).
  - Walks each way's node list and cuts a segment at every vertex. A segment's weight is the summed distance between its consecutive nodes.
  - Adds directed edges as the way's lower-cased `oneway` tag says.
  - The graph is a map from an ordered node pair to `EdgeData(weight, street)`. Adding an edge for a pair that already has one overwrites it, as `DiGraph.add_edge` does.
  - `build_graph` keeps its imperative shape. The element loop fills `nodes`, `ways` and the usage counter; the vertex loop fills `vertices`; the edge loop rebuilds `path`, accumulates the distance and updates the graph. Each loop is proved against a specification function: `NodeMap`, `Highways`, `Usage`, `Vertices`, `Walk`/`Segments`, `AllEdges`/`GraphOf`. The lemmas in `BuildFacts` characterise those functions independently.
- **Shortest path** (`dijkstra`, module `Dijkstra`; heap order in `Entries`).
  - A binary-heap search over an index graph that:
    - settles on pop;
    - stops as soon as the target is popped;
    - skips stale entries;
    - records a predecessor on every strict improvement;
    - rebuilds the path by following predecessors and reversing.
  - The heap is the multiset of its `(distance, index)` entries. Popping takes the least entry in tuple order, which is what `heappop` returns. The list layout of that heap is not modelled inside the search; `FilaPrioridade` proves the same sift-up/sift-down algorithm on another entry type.
  - `float('inf')` is the `Inf` case of `Dist`.
  - The search loop is proved with an invariant (`Inv`): settled distances are optimal, every queued entry is covered, predecessor edges explain the distances, and settled nodes carry ranks, so the predecessor chain is acyclic.
- **Street naming** (`get_node_street_name`, module `ConsultaOsm`). Collects the names of the ways through a node into a set, then sorts and joins them with `" / "`. String order and sorting are in `Strings`.
- **Containers** (module `Filas`).
  - `FilaSimples` is a FIFO queue, `Pilha` a LIFO stack, `FilaPrioridade` a `heapq`-backed min-priority queue.
  - Each is a class whose list field the methods update.
  - `FilaPrioridade` keeps its list a binary min-heap: sift-up on insert and a classic sift-down on removal. `heapq`'s bottom-up `_siftup` variant is not modelled, so the list layout may differ from `heapq`'s on ties; the popped values do not.
  - The demo methods replay the scenarios in `optirota/test_estruturas.py` and prove their outcomes.

The distance function `haversine` is a parameter `dist: (Coord, Coord) -> nat`, so weights are non-negative whole numbers.

## Model

| member | source | states |
|---|---|---|
| Build.BuildGraph | src/Grafo/build.py:15-69 | returns the coordinate map of all node elements (a later element wins), the `highway` ways in input order, the vertex set of those ways and the graph `GraphOf` of their segments |
| Build.SeparateElements | src/Grafo/build.py:21-28 | the element loop yields exactly `NodeMap`, `Highways` and the occurrence multiset `Usage` of the kept ways |
| Build.AddWayVertices | src/Grafo/build.py:33-35 | a node is in the result iff it was already there or it lies on the way with usage above one |
| Build.SelectVertices | src/Grafo/build.py:30-35 | the vertex loop yields exactly `Vertices(ways)`, the nodes whose usage exceeds one |
| Build.AddEdges | src/Grafo/build.py:37-67 | the edge loop over all ways yields `GraphOf`: the empty graph updated with every way's edges in way order |
| Build.AddWayEdges | src/Grafo/build.py:38-67 | walking one way applies exactly that way's segment edges, in order, to the graph |
| Build.VisitNode | src/Grafo/build.py:44-67 | one node of the walk: a vertex reached after more than one node closes `ids[start..i+1]`, whose nodes all have coordinates, and the graph becomes `g0` updated with exactly that segment's oriented edges; any other node leaves the graph unchanged; the path restarts at a vertex and otherwise grows by the node; the edges still to add plus those added equal the way's edges |
| Build.SegmentLength | src/Grafo/build.py:49-53 | the accumulated distance is the sum of `dist` over consecutive pairs of the path |
| Build.AddSegmentEdges | src/Grafo/build.py:55-64 | adds n1→n2 for `yes`/`true`/`1`, n2→n1 for `-1` and both otherwise, each with the segment's weight and street |
| Build.ApplySegmentEdges | src/Grafo/build.py:55-64 | the edges of one segment, applied to a graph, are those map updates in that order |
| Build.ApplyAppend | src/Grafo/build.py:59-64 | applying two edge lists in turn is applying their concatenation |
| Build.Walk | src/Grafo/build.py:44-67 | every segment the walk emits has at least two nodes |
| Build.Segments | src/Grafo/build.py:44-67 | every segment of a way has at least two nodes |
| Build.WalkBegins | src/Grafo/build.py:42-44 | before the first node the graph is unchanged and the whole way's edges remain |
| Build.WalkEnds | src/Grafo/build.py:44-67 | after the last node no edge remains, so the graph is the target |
| Build.StepOver | src/Grafo/build.py:44-47 | a node that closes no segment (a non-vertex, or a vertex with a one-node path) adds no edge and keeps the walk state |
| Build.StepClose | src/Grafo/build.py:44-67 | a vertex reached with more than one node accumulated closes `ids[start..i+1]`, whose nodes all have coordinates, and restarts the path at the vertex |
| Build.EmitSegment | src/Grafo/build.py:46-67 | the walk's remaining edges split into the closed segment's edges followed by the rest of the walk |
| Build.AllEdgesFrom | src/Grafo/build.py:38 | the edges of ways k.. are way k's edges followed by those of ways k+1.. |
| BuildFacts.HighwaysKept | src/Grafo/build.py:22-26 | a way is kept iff it is a way element of the input whose tags contain `highway` |
| BuildFacts.CountTwo | src/Grafo/build.py:27-28 | a node is counted at least twice in one list iff it occurs at two positions |
| BuildFacts.UsageOccurs | src/Grafo/build.py:27-28 | a node has a usage count iff some kept way lists it |
| BuildFacts.CountedCrossing | src/Grafo/build.py:22-28 | usage above one implies the node lies on two kept ways or twice on one |
| BuildFacts.CrossingCounted | src/Grafo/build.py:22-28 | a node on two kept ways, or twice on one, has usage above one |
| BuildFacts.UsageAboveOne | src/Grafo/build.py:22-28 | usage above one iff on two kept ways or twice on one way |
| BuildFacts.VerticesAreCrossings | src/Grafo/build.py:30-35 | the vertices are exactly the nodes on two kept ways or twice on one way |
| BuildFacts.WalkSound | src/Grafo/build.py:42-67 | every emitted segment runs from the walk's start or a vertex to the next vertex, with no vertex strictly inside |
| BuildFacts.WalkComplete | src/Grafo/build.py:42-67 | every such stretch ending at a vertex is emitted |
| BuildFacts.WalkShape | src/Grafo/build.py:42-67 | both directions: the emitted segments are exactly those stretches |
| BuildFacts.SegmentsShape | src/Grafo/build.py:42-67 | a way's segments are exactly the stretches `ids[a..b+1]` that end at a vertex b, start at the way's first node or a vertex a, and contain no vertex in between; nothing after the last vertex is emitted |
| BuildFacts.SegmentEdgesMembers | src/Grafo/build.py:58-64 | an edge is added for a segment iff it carries the segment's data and follows the `oneway` orientation |
| BuildFacts.SegmentsEdgesMembers | src/Grafo/build.py:44-64 | an edge is added for a list of segments iff some segment of the list produces it |
| BuildFacts.AllEdgesSound | src/Grafo/build.py:38-67 | every edge added comes from a segment of a kept way, with that way's street and orientation |
| BuildFacts.AllEdgesComplete | src/Grafo/build.py:38-67 | every segment of every kept way adds its oriented edges |
| BuildFacts.AllEdgesMembers | src/Grafo/build.py:38-67 | both directions: the edges added are exactly those the segments of the kept ways produce |
| BuildFacts.ApplyEntries | src/Grafo/build.py:16 | applying edges keeps every existing pair; each added pair is present; every present pair is either untouched or carries the data of some added edge |
| BuildFacts.ApplyLastWins | src/Grafo/build.py:59-64 | a pair's data is that of the last edge added for it |
| BuildFacts.ApplyUntouched | src/Grafo/build.py:59-64 | a pair no edge mentions keeps its data |
| BuildFacts.GraphEdges | src/Grafo/build.py:15-69 | every pair of the built graph is explained by some segment edge, and every segment edge's pair is in the graph |
| Dijkstra.Dijkstra | src/Algoritimos/dijkstra.py:3-47 | an unknown id gives (None, Inf); None otherwise means no path exists; a returned path starts at `start_id`, ends at `end_id`, follows edges of G, and its weight is the returned distance, which is at most the weight of every path; equal ids give `[start_id]` and 0 |
| Dijkstra.Search | src/Algoritimos/dijkstra.py:10-37 | not found means no path from start to target; found means the target's distance is finite and optimal, with predecessor and rank invariants for the rebuild; start equal to target is found at 0 |
| Dijkstra.SearchStarts | src/Algoritimos/dijkstra.py:10-14 | the initial tables and the one-entry heap satisfy the search invariant |
| Dijkstra.Step | src/Algoritimos/dijkstra.py:17-34 | one pop: the popped entry is the least of the heap; it stops iff the popped node is the target, whose finite distance is then optimal; a stale pop (entry above the recorded distance) only removes the entry; a fresh pop relaxes every successor (`RelaxD`, `RelaxPred`) and pushes the improved ones (`Pushed`); after a non-stopping pop the invariant holds again and the (unsettled nodes, heap size) measure decreases |
| Dijkstra.PopLeast | src/Algoritimos/dijkstra.py:18 | the popped entry is in the heap and no entry is smaller in tuple order |
| Dijkstra.Relax | src/Algoritimos/dijkstra.py:27-34 | the loop over successors yields the relaxed distances, predecessors and pushed entries, independently of visiting order |
| Dijkstra.Pick | src/Algoritimos/dijkstra.py:27 | the visited successor is one still to visit |
| Dijkstra.RelaxImproves | src/Algoritimos/dijkstra.py:29-34 | a strict improvement sets the distance, sets the predecessor to u and pushes `(nova_dist, v)` |
| Dijkstra.RelaxKeeps | src/Algoritimos/dijkstra.py:31 | no improvement changes nothing |
| Dijkstra.PushedGrows | src/Algoritimos/dijkstra.py:34 | each improvement pushes exactly one new entry |
| Dijkstra.RelaxDone | src/Algoritimos/dijkstra.py:27-34 | after every successor is visited, the state is the relaxed one |
| Dijkstra.RelaxOnlyImproves | src/Algoritimos/dijkstra.py:31-34 | relaxing never raises a distance, and a predecessor changes, to u, only where the distance strictly drops |
| Dijkstra.FrontierBound | src/Algoritimos/dijkstra.py:17-34 | every path from the start to an unsettled node has a queued entry no heavier than the path |
| Dijkstra.EmptyMeansUnreachable | src/Algoritimos/dijkstra.py:16-37 | an empty heap before the target is popped means there is no path to it |
| Dijkstra.LeastIsOptimal | src/Algoritimos/dijkstra.py:18-22 | the least entry's distance is optimal for its unsettled node (settle on pop) |
| Dijkstra.TargetPopped | src/Algoritimos/dijkstra.py:18-22 | when the target is popped its recorded distance equals the entry's and is optimal |
| Dijkstra.PoppedEntry | src/Algoritimos/dijkstra.py:18 | a queued entry names a graph node whose recorded distance is finite and at most the entry's |
| Dijkstra.SkipStale | src/Algoritimos/dijkstra.py:24-25 | dropping a stale least entry without relaxing keeps the invariant |
| Dijkstra.RelaxedFacts | src/Algoritimos/dijkstra.py:24-34 | a fresh least entry names an unsettled node, and no settled node can improve through it |
| Dijkstra.SettleKeepsInv | src/Algoritimos/dijkstra.py:18-34 | settling the popped node and relaxing its edges keeps the invariant |
| Dijkstra.SettleKeepsRank | src/Algoritimos/dijkstra.py:33 | predecessors keep pointing to nodes settled earlier |
| Dijkstra.SettleKeepsPred | src/Algoritimos/dijkstra.py:31-33 | every predecessor edge still explains its node's distance, and every reached node but the start has one |
| Dijkstra.SettleKeepsSettled | src/Algoritimos/dijkstra.py:27-34 | settled distances stay optimal, and their edges stay relaxed |
| Dijkstra.PushedFresh | src/Algoritimos/dijkstra.py:34 | every pushed entry is new, names an unsettled node, is at least the popped distance and matches the new distance |
| Dijkstra.SettleQueueEntries | src/Algoritimos/dijkstra.py:34 | queued entries stay above the settled distances and name known nodes |
| Dijkstra.SettleQueueCovers | src/Algoritimos/dijkstra.py:27-34 | every unsettled node with a finite distance keeps an entry carrying that distance |
| Dijkstra.SettleKeepsQueue | src/Algoritimos/dijkstra.py:18-34 | the heap part of the invariant survives a settle-and-relax step |
| Dijkstra.SettleShrinks | src/Algoritimos/dijkstra.py:17 | settling a new node shrinks the unsettled set |
| Dijkstra.Rebuild | src/Algoritimos/dijkstra.py:39-45 | following predecessors from the target and reversing yields ids whose indices form a path from start to target whose weight is the target's distance; start equal to target gives one id |
| Dijkstra.ChainExtend | src/Algoritimos/dijkstra.py:41-43 | stepping to a predecessor extends the walk back to the target, with distances adding up |
| Dijkstra.PredRanked | src/Algoritimos/dijkstra.py:41-43 | a predecessor is settled and ranks below its node, so the walk back ends |
| Dijkstra.MirrorsPrepend | src/Algoritimos/dijkstra.py:42 | appending an id to `caminho` mirrors prepending its index to the walk |
| Dijkstra.NoPredIsStart | src/Algoritimos/dijkstra.py:41-43 | a reached node without a predecessor is the start |
| Dijkstra.MirrorsIndices | src/Algoritimos/dijkstra.py:45 | the reversed ids map back to the walk's indices |
| Dijkstra.IdOfIndex | src/Algoritimos/dijkstra.py:7-8 | an index's id maps back to the same index |
| Dijkstra.IndicesOf | src/Algoritimos/dijkstra.py:42 | the index list is the pointwise image of the id list |
| Dijkstra.PathWeightSnoc | src/Algoritimos/dijkstra.py:29 | a path's weight is that of its prefix plus the last edge |
| Entries.LeastOfSet | src/Algoritimos/dijkstra.py:18 | a non-empty set of entries has a least one in tuple order |
| Entries.LeastEntryExists | src/Algoritimos/dijkstra.py:18 | a non-empty heap has a least entry, so `heappop` is defined |
| Seqs.ReversedAt | src/Algoritimos/dijkstra.py:45 | position i of the reversed list holds position (length - 1 - i) of the original |
| ConsultaOsm.GetNodeStreetName | src/OSM/consultaOSM.py:16-25 | the result is the sorted, `" / "`-joined set of labels of the ways through the node, or exactly the unnamed label when no way passes |
| ConsultaOsm.StreetLabelParts | src/OSM/consultaOSM.py:17-25 | a non-empty result joins a strictly sorted list without duplicates whose elements are exactly the labels of the ways through the node |
| ConsultaOsm.UnnamedWayContributes | src/OSM/consultaOSM.py:20 | a containing way without a `name` tag contributes "rua sem nome (Node <id>)" |
| ConsultaOsm.StreetLabelIgnoresOrder | src/OSM/consultaOSM.py:18-25 | the result depends only on which ways are given, not on their order |
| Strings.Sorted | src/OSM/consultaOSM.py:25 | `sorted` of a set is strictly increasing and holds exactly its elements |
| Strings.SortedOf | src/OSM/consultaOSM.py:25 | the sorted list of a set is strictly increasing with exactly its elements |
| Strings.StrictlySortedUnique | src/OSM/consultaOSM.py:25 | two strictly sorted lists with the same elements are equal |
| Strings.LeastStringExists | src/OSM/consultaOSM.py:25 | a non-empty set of strings has a least one |
| Strings.StrLeTransitive | src/OSM/consultaOSM.py:25 | string order is transitive |
| Strings.StrLeTotal | src/OSM/consultaOSM.py:25 | any two strings are comparable |
| Strings.StrLeAntisymmetric | src/OSM/consultaOSM.py:25 | strings below each other are equal |
| Filas.FilaSimples.Inserir | Filas/Fila_Simples.py:7-8 | appends the item at the back; the size grows by one |
| Filas.FilaSimples.Remover | Filas/Fila_Simples.py:10-14 | a non-empty queue yields its front item and keeps the rest in order; an empty one yields None and stays as it was |
| Filas.FilaSimples.EstaVazia | Filas/Fila_Simples.py:22-23 | empty iff the size is zero |
| Filas.FilaSimples.ExibirFila | Filas/Fila_Simples.py:19-20 | lists the contents front to back, reading without changing the queue |
| Filas.Pilha.Empilhar | Filas/Pilha.py:5-6 | pushes the item on top; the size grows by one |
| Filas.Pilha.Desempilhar | Filas/Pilha.py:8-12 | a non-empty stack yields the last pushed item and drops it; an empty one yields None and stays as it was |
| Filas.Pilha.EstaVazia | Filas/Pilha.py:20-21 | empty iff the size is zero |
| Filas.Pilha.ExibirPilha | Filas/Pilha.py:17-18 | lists the items top to bottom (the reversed list), reading without changing the stack |
| Filas.FilaPrioridade.constructor | Filas/Fila_Prioridade.py:4-5 | a new queue is an empty heap |
| Filas.FilaPrioridade.Inserir | Filas/Fila_Prioridade.py:7-9 | adds exactly the entry (prioridade, item), keeps the heap order, and the size grows by one |
| Filas.FilaPrioridade.SiftDown | Filas/Fila_Prioridade.py:14 | restores heap order after the root is replaced, permuting the entries |
| Filas.FilaPrioridade.Remover | Filas/Fila_Prioridade.py:11-16 | a non-empty queue yields the item of its least (prioridade, item) entry and removes only that entry, keeping heap order; an empty one yields None and stays as it was |
| Filas.RootIsLeast | Filas/Fila_Prioridade.py:14 | the root of a heap is no larger than any position |
| Filas.RootIsLeastOf | Filas/Fila_Prioridade.py:14 | the root of a heap is the least of its entries |
| Filas.SwapPermutes | Filas/Fila_Prioridade.py:9-14 | swapping two positions keeps the multiset of entries |
| Filas.SiftUpStep | Filas/Fila_Prioridade.py:9 | swapping a too-small entry with its parent moves the only fault up |
| Filas.SiftDownStep | Filas/Fila_Prioridade.py:14 | swapping an entry with its smaller child moves the only fault down |
| Filas.LeastChild | Filas/Fila_Prioridade.py:14 | the chosen child is no larger than any child |
| Filas.SinkDone | Filas/Fila_Prioridade.py:14 | an entry no larger than its smaller child completes the heap |
| Filas.LeafDone | Filas/Fila_Prioridade.py:14 | an entry without children completes the heap |
| Filas.LastToRoot | Filas/Fila_Prioridade.py:14 | moving the last entry to the root removes exactly the old root and leaves only the root out of order |
| Filas.TaskEntryLeTransitive | Filas/Fila_Prioridade.py:9 | tuple order on entries is transitive |
| Filas.TaskEntryLeTotal | Filas/Fila_Prioridade.py:9 | any two entries are comparable; equal priorities compare by item |
| Filas.TaskEntryLeAntisymmetric | Filas/Fila_Prioridade.py:9 | entries below each other are equal |
| Filas.DemoFilaSimples | optirota/test_estruturas.py:6-15 | after inserting A, B, C: removing yields A, the queue shows [B, C] and is not empty |
| Filas.DemoPilha | optirota/test_estruturas.py:27-36 | after pushing X, Y, Z: the view is [Z, Y, X], popping yields Z, the view becomes [Y, X] and is not empty |
| Filas.DemoFilaPrioridade | optirota/test_estruturas.py:17-25 | after inserting priorities 2, 1, 3: the size is 3, and removing twice yields the urgent task, then the medium one |
| Filas.LeastOfThree | optirota/test_estruturas.py:20-24 | of three entries with increasing priorities, the least is the first, and removing it leaves the other two |
| Filas.LeastOfTwo | optirota/test_estruturas.py:20-25 | of two entries with increasing priorities, the least is the first |

## Left out

- `get_osm_data` (src/OSM/consultaOSM.py:4-14): a network request. Map data enters the model as a sequence of `Element` values.
- `print_crossings` (src/OSM/consultaOSM.py:27-102): console output over the graph library's edge shapes.
- `haversine` (src/Grafo/build.py:6-12): floating-point trigonometry. It is the parameter `dist` with whole-number, non-negative results, so segment weights are exact sums and cannot be negative. Rounding is not modelled.
- Floating-point weights in general: weights are `nat`, and Python's `float('inf')` is the `Inf` case of `Dist`.
- The graph libraries (networkx `DiGraph`, and the index graph `dijkstra` receives): modelled as maps from ordered pairs to edge data. networkx `DiGraph` keeps one edge per ordered pair (a second `add_edge` overwrites), and the model does the same. The index graph passed to `dijkstra` is assumed to have at most one edge per ordered pair as well: `get_edge_data(u, v)` reads the weight of one edge only, so a lighter parallel edge would never be relaxed, and `Dijkstra.Optimal` is relative to the one weight per pair that the map holds. The order in which `successor_indices` lists successors is not modelled; `Dijkstra.Relax` proves its result is the same for every order.
- `heapq` inside `dijkstra`: the frontier is the multiset of its entries, popped least first. The list layout of the heap is not modelled here. `Filas.FilaPrioridade` proves the same algorithm on another entry type (`(int, string)` pairs), with a classic sift-down rather than `heapq`'s bottom-up variant.
- The `id ↔ index` maps passed to `dijkstra`: no code in the repository builds them. `Dijkstra.Dijkstra` requires them to be a bijection between the ids and the graph's node indices.
- `Strings.Lower`: ASCII letters only. Python's `str.lower()` also folds non-ASCII letters; the `oneway` values the code compares with are ASCII.
- Missing coordinates: the code raises `KeyError` when a closed segment contains a node without coordinates (src/Grafo/build.py:51-52). The model follows the code: `Build.BuildGraph` requires every node of every closed segment to have coordinates (`Covered`).
- The GUI (src/Interface/app.py), the plotting modules (src/Grafo/visualizar.py, src/Grafo/visualizarSoArestas.py), main.py and optirota/test_grafos.py: user interface, rendering and scripts.
- The timing code in optirota/test_estruturas.py: only its three container scenarios are modelled, as the `Demo` methods.
- Filas.FilaPrioridade: priorities are `int` and items are `string`; Python accepts any values that compare with each other. When two entries have equal priorities and items that cannot be compared, `heapq` raises `TypeError`; the model's items are always comparable, so that error is not modelled.
- `tamanho`: the `Tamanho` functions of the three containers return the list length directly and carry no separate contract. The `Inserir`, `Empilhar` and `EstaVazia` contracts state their relation to it.
