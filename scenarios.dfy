/**
 * Concrete histories of one or two replicas and what the model says they end in.
 * `time.time()` becomes a fixed clock reading: every call below passes the same
 * `now`, so the recorded add timestamp is the larger of the argument and that value.
 */
module Scenarios {
  import opened Wrappers
  import opened LwwSet
  import opened Graph

  /**
   * On a fresh replica, add then remove: the vertex stays unless the remove is
   * strictly later. The clock does not run ahead of `addAt`.
   */
  method AddThenRemove(v: Vertex, addAt: Time, removeAt: Time) returns (vertices: seq<Vertex>)
    ensures vertices == if removeAt <= addAt then [v] else []
  {
    var g := new LwwElementGraph();
    var _ := g.AddVertex(v, addAt, addAt);
    var _ := g.RemoveVertex(v, removeAt);
    vertices := g.GetVertices();
  }

  /** The same two operations on a fresh replica, in the other order. */
  method RemoveThenAdd(v: Vertex, addAt: Time, removeAt: Time) returns (vertices: seq<Vertex>)
    ensures vertices == if removeAt <= addAt then [v] else []
  {
    var g := new LwwElementGraph();
    var _ := g.RemoveVertex(v, removeAt);
    var _ := g.AddVertex(v, addAt, addAt);
    vertices := g.GetVertices();
  }

  /** The three timestamp pairs of the commutativity history, in both orders. */
  method VertexCommutativity() returns (tie: seq<Vertex>, tieSwapped: seq<Vertex>,
                                        earlier: seq<Vertex>, earlierSwapped: seq<Vertex>,
                                        later: seq<Vertex>, laterSwapped: seq<Vertex>)
    ensures tie == [1] && tieSwapped == [1]
    ensures earlier == [1] && earlierSwapped == [1]
    ensures later == [] && laterSwapped == []
  {
    tie := AddThenRemove(1, 100, 100);
    tieSwapped := RemoveThenAdd(1, 100, 100);
    earlier := AddThenRemove(1, 101, 99);
    earlierSwapped := RemoveThenAdd(1, 101, 99);
    later := AddThenRemove(1, 101, 102);
    laterSwapped := RemoveThenAdd(1, 101, 102);
  }

  /** Adding a live vertex again reports `false`, whatever the timestamp. */
  method AddVertexIdempotent() returns (first: Option<bool>, before: Option<bool>, after: Option<bool>,
                                         wellAfter: Option<bool>, vertices: seq<Vertex>)
    ensures first == Some(true)
    ensures before == Some(false) && after == Some(false) && wellAfter == Some(false)
    ensures vertices == [1]
  {
    var g := new LwwElementGraph();
    first := g.AddVertex(1, 100, 100);
    before := g.AddVertex(1, 99, 100);
    after := g.AddVertex(1, 101, 100);
    wellAfter := g.AddVertex(1, 102, 100);
    vertices := g.GetVertices();
  }

  /** An edge added, then removed at a later timestamp. */
  method AddRemoveEdge() returns (before: bool, removed: Outcome<bool>, after: bool)
    ensures before && removed == Returned(true) && !after
  {
    var g := new LwwElementGraph();
    var _ := g.AddVertex(1, 100, 100);
    var _ := g.AddVertex(2, 110, 100);
    var _ := g.AddVertex(3, 120, 100);
    var _ := g.AddEdge((2, 3), 100);
    before := g.CheckEdgeExists((2, 3));
    removed := g.RemoveEdge((2, 3), 110);
    after := g.CheckEdgeExists((2, 3));
  }

  /** Removing an endpoint takes the edge with it, whatever the edge's own timestamps. */
  method RemoveVertexTakesEdge() returns (one: bool, edge: bool)
    ensures one && !edge
  {
    var g := new LwwElementGraph();
    var _ := g.AddVertex(1, 100, 100);
    var _ := g.AddVertex(2, 100, 100);
    var _ := g.AddEdge((1, 2), 110);
    var _ := g.RemoveVertex(2, 110);
    one := g.CheckVertexExists(1);
    edge := g.CheckEdgeExists((1, 2));
  }

  /** A fresh replica holding vertices 1, 2 and 3, all added at 100 and no edge. */
  method ThreeVertices() returns (g: LwwElementGraph)
    ensures fresh(g) && g.Valid()
    ensures g.addVertexSet == map[1 := 100, 2 := 100, 3 := 100] && g.removeVertexSet == map[]
    ensures g.addEdgeSet == map[] && g.removeEdgeSet == map[]
    ensures g.adjacencyList == map[1 := [], 2 := [], 3 := []]
  {
    g := new LwwElementGraph();
    var _ := g.AddVertex(1, 100, 100);
    var _ := g.AddVertex(2, 100, 100);
    var _ := g.AddVertex(3, 100, 100);
  }

  /** Each edge lists each endpoint in the other's entry, in the order the edges came. */
  method Neighbours() returns (of1: Option<seq<Vertex>>, of2: Option<seq<Vertex>>, of3: Option<seq<Vertex>>)
    ensures of1 == Some([2, 3]) && of2 == Some([1, 3]) && of3 == Some([1, 2])
  {
    var g := ThreeVertices();
    var added := g.AddEdge((1, 2), 100);
    assert added;
    assert g.adjacencyList[1] == [2] && g.adjacencyList[2] == [1] && g.adjacencyList[3] == [];
    added := g.AddEdge((3, 1), 100);
    assert added;
    assert g.adjacencyList[1] == [2, 3] && g.adjacencyList[2] == [1] && g.adjacencyList[3] == [1];
    added := g.AddEdge((3, 2), 100);
    assert added;
    assert g.adjacencyList[1] == [2, 3] && g.adjacencyList[2] == [1, 3] && g.adjacencyList[3] == [1, 2];
    of1 := g.QueryVertices(1);
    of2 := g.QueryVertices(2);
    of3 := g.QueryVertices(3);
  }

  /** Vertices 1, 2 and 3 with edges (1, 2) and (3, 2). */
  method PathGraph() returns (g: LwwElementGraph)
    ensures fresh(g) && g.Valid()
    ensures g.addVertexSet == map[1 := 100, 2 := 100, 3 := 100] && g.removeVertexSet == map[]
    ensures g.adjacencyList.Keys == {1, 2, 3}
    ensures g.adjacencyList[1] == [2] && g.adjacencyList[2] == [1, 3] && g.adjacencyList[3] == [2]
  {
    g := ThreeVertices();
    var added := g.AddEdge((1, 2), 100);
    assert added;
    assert g.adjacencyList[1] == [2] && g.adjacencyList[2] == [1] && g.adjacencyList[3] == [];
    added := g.AddEdge((3, 2), 100);
    assert added;
  }

  /** On that graph the search from 1 reaches 3 through 2, and 2 directly. */
  lemma SearchThroughMiddle(v: VertexView)
    requires v.added == map[1 := 100, 2 := 100, 3 := 100] && v.removed == map[]
    requires v.adjacency.Keys == {1, 2, 3}
    requires v.adjacency[1] == [2] && v.adjacency[2] == [1, 3] && v.adjacency[3] == [2]
    ensures v.Search(1, 3, []) == Some([1, 2, 3])
    ensures v.Search(1, 2, []) == Some([1, 2])
  {
    // The search step by step, innermost call first.
    assert v.Live(1) && v.Live(2) && v.Live(3);
    var root: seq<Vertex> := [];
    assert root + [1] == [1];
    assert [1] + [2] == [1, 2] && [1, 2] + [3] == [1, 2, 3];
    assert v.Search(2, 2, [1]) == Some([1, 2]);
    assert v.TryNeighbours([2], 2, [1]) == Some([1, 2]);
    assert v.Search(3, 3, [1, 2]) == Some([1, 2, 3]);
    assert v.TryNeighbours([3], 3, [1, 2]) == Some([1, 2, 3]);
    assert v.TryNeighbours([1, 3], 3, [1, 2]) == Some([1, 2, 3]);
    assert v.Search(2, 3, [1]) == Some([1, 2, 3]);
    assert v.TryNeighbours([2], 3, [1]) == Some([1, 2, 3]);
  }

  /** `find_path(1, 3)` and `find_path(1, 2)` on that graph. */
  method PathThroughMiddle() returns (toThree: Option<seq<Vertex>>, toTwo: Option<seq<Vertex>>)
    ensures toThree == Some([1, 2, 3]) && toTwo == Some([1, 2])
  {
    var g := PathGraph();
    SearchThroughMiddle(g.View());
    toThree := g.FindPath(1, 3);
    toTwo := g.FindPath(1, 2);
  }

  /** A fresh replica holding vertices `u`, `w` and `x`, added at 100, and the edge `(u, w)`. */
  method Replica(u: Vertex, w: Vertex, x: Vertex) returns (g: LwwElementGraph)
    requires u != w && w != x && u != x
    ensures fresh(g) && g.Valid()
    ensures g.addVertexSet == map[u := 100, w := 100, x := 100] && g.removeVertexSet == map[]
    ensures g.addEdgeSet == map[(u, w) := 100] && g.removeEdgeSet == map[]
  {
    g := new LwwElementGraph();
    var _ := g.AddVertex(x, 100, 100);
    var _ := g.AddVertex(w, 100, 100);
    var _ := g.AddVertex(u, 100, 100);
    var added := g.AddEdge((u, w), 100);
    assert added;
  }

  /** Two replicas with a shared vertex: the merge holds the vertices and edges of both, all live. */
  method MergeReplicas() returns (vertices: set<Vertex>, edges: set<Edge>, bothLive: bool)
    ensures {0, 1, 2, 3, 6} <= vertices
    ensures {(3, 2), (3, 0)} <= edges
    ensures bothLive
  {
    var a := Replica(3, 2, 6);
    var b := Replica(3, 0, 1);
    var merged := a.Merge(b);
    vertices := merged.addVertexSet.Keys;
    edges := merged.addEdgeSet.Keys;
    assert forall v | v in vertices :: merged.CheckVertexExists(v);
    assert merged.removeEdgeSet == map[];
    bothLive := merged.CheckEdgeExists((3, 2)) && merged.CheckEdgeExists((3, 0));
  }

  /**
   * An edge whose endpoint was removed and added again is live once more, but the
   * fresh adjacency entry does not list it, so removing the edge raises `ValueError`.
   */
  method StaleEdge() returns (live: bool, removed: Outcome<bool>)
    ensures live && removed == RaisedValueError
  {
    var g := new LwwElementGraph();
    var _ := g.AddVertex(1, 0, 0);
    var _ := g.AddVertex(2, 0, 0);
    var _ := g.AddEdge((1, 2), 0);
    var _ := g.RemoveVertex(2, 5);
    var _ := g.AddVertex(2, 6, 6);
    live := g.CheckEdgeExists((1, 2));
    removed := g.RemoveEdge((1, 2), 7);
  }
}
