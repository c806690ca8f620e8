# State-based LWW element graph, modelled in Dafny

This project models `LWW_Element_Graph` (`lww_element_graph.py`), a state-based
last-writer-wins element graph: a CRDT in which every replica keeps

- four timestamp maps (add and remove timestamps for vertices and for edges);
- an adjacency cache from each vertex to its neighbour list, in append order;
- two liveness predicates under an add-biased rule, where a tie between add and
  remove keeps the element;
- four mutators (`add_vertex`, `remove_vertex`, `add_edge`, `remove_edge`);
- three queries (`get_vertices`, `query_vertices`, `find_path`);
- `merge`, which joins another replica's maps into this one key by key.

Layout:

- `wrappers.dfy`, module `Wrappers`: `Option` stands for a Python value-or-`None`.
  `Outcome` is a return value or the uncaught `ValueError` that `remove_edge` can raise.
- `seqs.dfy`, module `Seqs`: the Python list behaviour the class relies on.
  `RemoveFirst` is `list.remove` (drop the first occurrence). `LexLess` and
  `LexGreater` are `<` and `>` on lists of integers.
- `lww_set.dfy`, module `LwwSet`: the bookkeeping shared by vertices and edges.
  It holds the add-biased membership rule `InLwwSet` and `KeepLatest`, which
  records a remove timestamp that only ever grows. It also holds `merge_sets` twice:
  as the loop it is (`MergeSets`) and as the function that loop computes (`Join`).
  The lemmas there prove the order, idempotence and unit laws of `Join`.
- `lww_element_graph.dfy`, module `Graph`: the class `LwwElementGraph`.
  - Its fields mirror the Python dictionaries.
  - One extra field, `vertexOrder`, is the insertion order of the add-vertex
    dictionary's keys, which is the order `get_vertices` returns.
  - `Valid()` is the invariant every operation keeps, `merge` included. It says the key
    order lists each added vertex once, every live vertex has an adjacency entry,
    and every listed neighbour has an add timestamp.
  - `CacheExact()` is the stronger invariant the four mutators keep and `merge`
    does not: the cached vertices are exactly the live ones.
  - `find_path` is written on `VertexView`, an immutable snapshot of the vertex maps
    and the cache, as the mutual recursion `Search` / `TryNeighbours`.
- `scenarios.dfy`, module `Scenarios`: histories from the test file, with a frozen
  clock, and what the model says they end in.

Choices of representation:

- Timestamps are integers: the code only compares them.
- The clock read of `add_vertex` is the parameter `now`.
- A vertex is an `int`, and an edge is an ordered pair of vertices.
- Every graph starts empty, as every caller in the repository builds it.

Where the code departs from the usual LWW element graph, the model follows the code:

- Edges are ordered pairs and are never canonicalised: `(u, w)` and `(w, u)` are two keys.
- `add_vertex` returns `None`, not `False`, when a later remove timestamp blocks the add.
- `remove_vertex` lowers a stored remove timestamp to the argument when the removal
  loses to the add timestamp (`lww_element_graph.py:165`). It does not keep the maximum there.
- `merge` takes, per vertex, the lexicographically larger adjacency list. It does
  not take the union of the two lists.
- The cache is not the symmetric closure of the live edges. An edge whose endpoint
  was removed and added again is live again but absent from the fresh list.
  `remove_edge` on it then raises `ValueError` after writing the remove timestamp
  (`Scenarios.StaleEdge`). The exception is not caught, so the caller sees a crash.

## Model

| member | source | states |
|---|---|---|
| LwwSet.KeepLatest | lww_element_graph.py:203-207 | Recording a remove timestamp adds the key if missing, never lowers a stored value, takes `t` when it is larger, and leaves the other keys alone |
| LwwSet.Join | lww_element_graph.py:295-300 | The merged map has the union of both key sets; each value comes from one of the two maps; a key only one side holds keeps that side's value |
| LwwSet.MergeSets | lww_element_graph.py:286-300 | The loop over the second map's keys, overwriting entries of the first, ends with exactly `Join` of the two maps |
| LwwSet.JoinLaterIsMax | lww_element_graph.py:299-300 | Merging timestamp maps never lowers a timestamp: each key ends with a value at least that of either side |
| LwwSet.JoinIdempotent | lww_element_graph.py:295-300 | Merging a map with itself gives the same map |
| LwwSet.JoinEmpty | lww_element_graph.py:295-300 | The empty map is a unit of the merge on both sides |
| LwwSet.JoinLaterCommutes | lww_element_graph.py:295-300 | Merging timestamp maps does not depend on argument order |
| LwwSet.JoinLaterAssociates | lww_element_graph.py:295-300 | Merging timestamp maps does not depend on grouping |
| LwwSet.JoinLexCommutes | lww_element_graph.py:299-300 | Merging adjacency maps by Python's list order does not depend on argument order |
| LwwSet.JoinLexAssociates | lww_element_graph.py:299-300 | Merging adjacency maps by Python's list order does not depend on grouping |
| LwwSet.JoinedLiveWasLive | lww_element_graph.py:277-278 | An element live after merging the add and remove maps of two replicas was live in one of them |
| LwwSet.JoinedLivenessCommutes | lww_element_graph.py:277-278 | Replicas merged in either order agree on which elements are live |
| Seqs.IndexOf | lww_element_graph.py:195 | The position found holds `x`, and no earlier position does |
| Seqs.RemoveFirst | lww_element_graph.py:195-196 | Drops the first `x`, so a list holding `x` shrinks by one; on a list without `x` it returns the list unchanged, where `list.remove` raises `ValueError`; every caller tests membership first (the guard at line 159, and `RemoveEdge` returning `RaisedValueError` at 195-196) |
| Seqs.RemoveFirstAt | lww_element_graph.py:160 | `list.remove` drops exactly the first occurrence and keeps the rest in order |
| Seqs.RemoveFirstShrinks | lww_element_graph.py:160 | Removing an element never introduces one |
| Seqs.LexIrreflexive | lww_element_graph.py:299 | No list is greater than itself under Python's list order |
| Seqs.LexTrichotomy | lww_element_graph.py:299 | Two lists are equal exactly when neither is smaller, and never both smaller than each other |
| Seqs.LexTransitive | lww_element_graph.py:299 | Python's list order is transitive |
| Seqs.DisjointConcat | lww_element_graph.py:297 | Appending keys new to a dictionary keeps its key order free of repeats |
| Graph.Unseen | lww_element_graph.py:296-297 | The keys `merge_sets` appends are those of the other replica's order that this replica lacks, once each |
| Graph.MergeKeepsCacheInvariants | lww_element_graph.py:277-281 | Merging two replicas that keep the cache invariants gives a state that keeps them |
| Graph.MergeKeepsOrder | lww_element_graph.py:277 | After merging add-vertex maps, the extended key order lists exactly the merged keys, once each |
| Graph.MergeBreaksExactCache | lww_element_graph.py:281 | Two replicas whose cached vertices are exactly their live ones can merge into a state caching a dead vertex |
| Graph.UnlinkedEverywhere | lww_element_graph.py:158-160 | Unlinking a vertex from every list keeps every adjacency key |
| Graph.RemoveEverywhere | lww_element_graph.py:158-160 | The loop over the adjacency dictionary ends with one occurrence of the vertex dropped from each list that holds it |
| Graph.UnlinkKeepsCache | lww_element_graph.py:157-161 | Killing a vertex by a later remove timestamp and unlinking it keeps both cache invariants, and keeps the cache exact if it was |
| Graph.VertexView.UnvisitedShrinks | lww_element_graph.py:260-261 | Extending the path with a known vertex not yet on it lowers the count of unvisited known vertices: the search terminates |
| Graph.VertexView.Search | lww_element_graph.py:253-265 | Dead endpoints give `None`; a live `start == end` gives the prefix plus `start`; any result is the prefix followed by a simple path from `start` to `end` over live vertices and cached adjacency, never re-entering the prefix |
| Graph.VertexView.TryNeighbours | lww_element_graph.py:259-264 | A result found through the neighbour loop is the prefix followed by a simple path from one of the neighbours to `end`, outside the prefix |
| Graph.LwwElementGraph.constructor | lww_element_graph.py:22-27 | A new graph has all maps empty and keeps both invariants |
| Graph.LwwElementGraph.CheckVertexExists | lww_element_graph.py:60-80 | The cascade of tests agrees with the add-biased rule: an add timestamp and no later remove timestamp, so a tie keeps the vertex |
| Graph.LwwElementGraph.CheckEdgeExists | lww_element_graph.py:38-58 | An edge is live exactly when both endpoints are live and the edge maps satisfy the add-biased rule |
| Graph.LwwElementGraph.AddVertex | lww_element_graph.py:89-107 | A live vertex gives `Some(false)` with no change; a later remove timestamp gives `None` with no change; otherwise the add timestamp becomes the larger of `timestamp` and `now`, the adjacency entry is reset to empty, the vertex is live, and the remove and edge maps are untouched; both invariants are kept |
| Graph.LwwElementGraph.RemoveVertex | lww_element_graph.py:150-175 | Returns true exactly when the vertex was live and `timestamp` exceeds its add timestamp; then the remove timestamp is the larger one, the vertex is unlinked from every list and its entry dropped, and every incident edge is dead; a dead vertex only gets its remove timestamp raised; a live vertex that survives gets its remove timestamp set to `timestamp`; edge maps never change |
| Graph.LwwElementGraph.AddEdge | lww_element_graph.py:119-138 | Adds exactly when both endpoints are live and the edge is not; then `add_edge_set[e]` is overwritten with `timestamp` and each endpoint is appended to the other's list; otherwise nothing changes; the edge is then live exactly when its remove timestamp is not later |
| Graph.LwwElementGraph.RemoveEdge | lww_element_graph.py:188-209 | The remove timestamp always becomes the larger one; a dead or surviving edge gives `false` with the cache untouched; otherwise one occurrence of each endpoint leaves the other's list, or `ValueError` is raised at the first list lacking it, with the earlier changes kept; vertex maps and `add_edge_set` never change |
| Graph.LwwElementGraph.LiveInOrder | lww_element_graph.py:221-224 | The filtered order holds exactly the live vertices of the given order, without repeats if the order has none |
| Graph.LwwElementGraph.GetVertices | lww_element_graph.py:219-225 | Returns the live vertices in key-insertion order, each exactly once, and every live vertex |
| Graph.LwwElementGraph.QueryVertices | lww_element_graph.py:236-238 | Returns the cached neighbour list exactly when the vertex is live, and `None` otherwise |
| Graph.LwwElementGraph.FindPath | lww_element_graph.py:250-265 | `None` for a dead endpoint; `[start]` when `start == end`; otherwise any result is a simple path from `start` to `end` over live vertices, each step following the cached adjacency |
| Graph.LwwElementGraph.Merge | lww_element_graph.py:269-282 | Each of the five maps becomes the join of the two replicas' maps, by timestamp order or Python's list order; new vertex keys are appended in the other replica's order; `Valid` is kept |
| Scenarios.AddThenRemove | lww_element_graph_test.py:44-68 | On a fresh graph, add then remove keeps the vertex exactly when the remove is not later |
| Scenarios.RemoveThenAdd | lww_element_graph_test.py:49-73 | The same operations in the other order give the same vertices |
| Scenarios.VertexCommutativity | lww_element_graph_test.py:37-73 | The tie, earlier-remove and later-remove pairs of the commutativity test, each in both orders: the vertex survives the first two and not the third |
| Scenarios.AddVertexIdempotent | lww_element_graph_test.py:8-21 | The first add reports true; the three re-adds at an earlier, a later and a still later timestamp each report false, and the vertex is listed once |
| Scenarios.AddRemoveEdge | lww_element_graph_test.py:91-103 | An edge added and then removed later is live, then removed, then dead |
| Scenarios.RemoveVertexTakesEdge | lww_element_graph_test.py:148-160 | Removing an endpoint kills the edge and leaves the other endpoint live |
| Scenarios.ThreeVertices | lww_element_graph_test.py:216-218 | Three adds on a fresh graph give three empty adjacency entries |
| Scenarios.Neighbours | lww_element_graph_test.py:209-227 | Neighbour lists follow the order in which edges were added |
| Scenarios.PathGraph | lww_element_graph_test.py:236-240 | The graph of the path test has the expected adjacency lists |
| Scenarios.SearchThroughMiddle | lww_element_graph_test.py:241-244 | On that graph the search from 1 finds `[1, 2, 3]` and `[1, 2]` |
| Scenarios.PathThroughMiddle | lww_element_graph_test.py:229-244 | `find_path(1, 3)` and `find_path(1, 2)` return the paths of the test |
| Scenarios.Replica | lww_element_graph_test.py:111-118 | A replica with three vertices and one edge has exactly those maps |
| Scenarios.MergeReplicas | lww_element_graph_test.py:105-121 | After merging, both replicas' vertices and edges are present, and both edges are live |
| Scenarios.StaleEdge | lww_element_graph.py:195 | An edge whose endpoint was removed and re-added is live, but removing it raises `ValueError` |

## Left out

- The clock read `time.time()` becomes the `now` argument of `AddVertex`.
- Float timestamps become integers, since they are only compared.
- Logging and `__str__` are left out: they are diagnostics only.
- The `except TypeError` handlers and their `None` results for unhashable keys are
  left out. Vertices are integers and edges are integer pairs, so those paths cannot arise.
- Aliasing is not modelled, because the fields are Dafny values:
  - the constructor storing the caller's dictionary (the model always starts empty);
  - `merge_sets` sharing list objects between replicas, so a later `append` on one would show in the other.
- The `KeyError` paths are excluded by `Valid`. One is `adjacency_list[e[0]]` of a live edge whose endpoint has no entry. `Valid` holds from an empty start and is kept by every operation on a replica whose lists are shared with no other replica, so these paths are unreachable there. Sharing changes only list contents, never dictionary keys, so it cannot open a `KeyError` path either.
- Graph.LwwElementGraph.FindPath: does not prove that a path is found whenever one exists. It proves only what a returned path is.
- Graph.LwwElementGraph.FindPath: the optional `path` prefix argument is modelled only through `VertexView.Search` (as the argument `path`). The method itself takes no prefix, as in every call in the repository.
- Graph.LwwElementGraph.Merge: requires `Valid()` of both replicas, which the code does not check. Every state reachable from `LWW_Element_Graph({})` in which no list is shared between replicas satisfies it. With sharing, a replica can break it. For example, merging `b` into `a` makes `a`'s list for vertex 1 the same object as `b`'s, and a later `a.add_edge((1, 2), t)` then puts 2 into `b`'s list although `b` never added 2. Such a state is outside this model; `FindPath` and `QueryVertices` require `Valid()` as well.
- The test file is not a modelled unit. Its histories appear as `Scenarios` with chosen integer times and a clock frozen at the add timestamp.
