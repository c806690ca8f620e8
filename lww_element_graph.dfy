/**
 * The state-based last-writer-wins element graph: four timestamp maps, an adjacency
 * cache derived from them, the two liveness checks, four mutators, three queries
 * and the merge of two replicas.
 */
module Graph {
  import opened Wrappers
  import opened Seqs
  import opened LwwSet

  type Vertex = int

  /** An ordered pair of vertices: `(u, w)` and `(w, u)` are different keys. */
  type Edge = (Vertex, Vertex)

  /** Every live vertex has an adjacency entry. */
  ghost predicate LiveAreCached(add: map<Vertex, Time>, remove: map<Vertex, Time>, lists: map<Vertex, seq<Vertex>>) {
    forall v | InLwwSet(add, remove, v) :: v in lists
  }

  /** Every vertex that appears in an adjacency list has an add timestamp. */
  ghost predicate NeighboursKnown(add: map<Vertex, Time>, lists: map<Vertex, seq<Vertex>>) {
    forall v, w | v in lists && w in lists[v] :: w in add
  }

  /** The adjacency entries are exactly those of the live vertices. */
  ghost predicate CacheExactOn(add: map<Vertex, Time>, remove: map<Vertex, Time>, lists: map<Vertex, seq<Vertex>>) {
    forall v :: v in lists <==> InLwwSet(add, remove, v)
  }

  /**
   * The invariant of a replica: `order` lists the added vertices once each, and the
   * cache keeps its two invariants.
   */
  ghost predicate ValidOn(order: seq<Vertex>, add: map<Vertex, Time>, remove: map<Vertex, Time>,
                          lists: map<Vertex, seq<Vertex>>) {
    && NoDuplicates(order)
    && (forall v :: v in order <==> v in add)
    && LiveAreCached(add, remove, lists)
    && NeighboursKnown(add, lists)
  }

  /** The vertices of `order` that `known` lacks, in the order of `order`. */
  function Unseen(order: seq<Vertex>, known: map<Vertex, Time>): (r: seq<Vertex>)
    ensures forall v :: v in r <==> v in order && v !in known
    ensures NoDuplicates(order) ==> NoDuplicates(r)
  {
    if order == [] then []
    else (if order[0] in known then [] else [order[0]]) + Unseen(order[1..], known)
  }

  /**
   * Merging two replicas that each keep their cache invariants yields a state that
   * keeps them too: what is live after the merge was live, hence cached, in one replica.
   */
  lemma MergeKeepsCacheInvariants(
    a1: map<Vertex, Time>, r1: map<Vertex, Time>, c1: map<Vertex, seq<Vertex>>,
    a2: map<Vertex, Time>, r2: map<Vertex, Time>, c2: map<Vertex, seq<Vertex>>)
    requires LiveAreCached(a1, r1, c1) && LiveAreCached(a2, r2, c2)
    requires NeighboursKnown(a1, c1) && NeighboursKnown(a2, c2)
    ensures LiveAreCached(Join(a1, a2, Later), Join(r1, r2, Later), Join(c1, c2, LexGreater))
    ensures NeighboursKnown(Join(a1, a2, Later), Join(c1, c2, LexGreater))
  {
    forall v | InLwwSet(Join(a1, a2, Later), Join(r1, r2, Later), v)
      ensures v in Join(c1, c2, LexGreater)
    {
      JoinedLiveWasLive(a1, r1, a2, r2, v);
    }
  }

  /**
   * Appending the keys new to the first replica, in the second replica's order, keeps
   * the key order a duplicate-free listing of the joined add-vertex map.
   */
  lemma MergeKeepsOrder(o1: seq<Vertex>, a1: map<Vertex, Time>, o2: seq<Vertex>, a2: map<Vertex, Time>)
    requires NoDuplicates(o1) && forall v :: v in o1 <==> v in a1
    requires NoDuplicates(o2) && forall v :: v in o2 <==> v in a2
    ensures NoDuplicates(o1 + Unseen(o2, a1))
    ensures forall v :: v in o1 + Unseen(o2, a1) <==> v in Join(a1, a2, Later)
  {
    var incoming := Unseen(o2, a1);
    assert forall x | x in o1 :: x !in incoming;
    DisjointConcat(o1, incoming);
  }

  /**
   * Merging does not keep "the cached vertices are the live ones": replica 1 removed
   * vertex 1 after adding it, replica 2 holds an older add and its cache entry.
   */
  lemma MergeBreaksExactCache(
    a1: map<Vertex, Time>, r1: map<Vertex, Time>, c1: map<Vertex, seq<Vertex>>,
    a2: map<Vertex, Time>, r2: map<Vertex, Time>, c2: map<Vertex, seq<Vertex>>)
    requires a1 == map[1 := 10] && r1 == map[1 := 20] && c1 == map[]
    requires a2 == map[1 := 5] && r2 == map[] && c2 == map[1 := []]
    ensures CacheExactOn(a1, r1, c1) && CacheExactOn(a2, r2, c2)
    ensures !CacheExactOn(Join(a1, a2, Later), Join(r1, r2, Later), Join(c1, c2, LexGreater))
  {
    assert 1 in Join(c1, c2, LexGreater);
  }

  /** Every list after one occurrence of `x` has been removed from it (where there is one). */
  function UnlinkedEverywhere<K>(lists: map<K, seq<Vertex>>, x: Vertex): (r: map<K, seq<Vertex>>)
    ensures r.Keys == lists.Keys
  {
    map j | j in lists :: RemoveFirst(lists[j], x)
  }

  /** The loop of `remove_vertex` over the adjacency dictionary. */
  method RemoveEverywhere<K(==)>(lists: map<K, seq<Vertex>>, x: Vertex) returns (r: map<K, seq<Vertex>>)
    ensures r == UnlinkedEverywhere(lists, x)
  {
    r := lists;
    var pending := lists.Keys;
    while pending != {}
      invariant pending <= lists.Keys
      invariant r.Keys == lists.Keys
      invariant forall j | j in r :: r[j] == if j in pending then lists[j] else RemoveFirst(lists[j], x)
      decreases pending
    {
      var j :| j in pending;
      if x in r[j] {
        r := r[j := RemoveFirst(r[j], x)];
      }
      pending := pending - {j};
    }
  }

  /**
   * Killing `vertex` by a later remove timestamp and unlinking it from the cache keeps
   * both cache invariants, and keeps the cached vertices equal to the live ones.
   */
  lemma UnlinkKeepsCache(add: map<Vertex, Time>, remove: map<Vertex, Time>, remove': map<Vertex, Time>,
                         lists: map<Vertex, seq<Vertex>>, vertex: Vertex)
    requires LiveAreCached(add, remove, lists) && NeighboursKnown(add, lists)
    requires remove'.Keys == remove.Keys + {vertex}
    requires forall v | v in remove && v != vertex :: remove'[v] == remove[v]
    requires !InLwwSet(add, remove', vertex)
    ensures LiveAreCached(add, remove', UnlinkedEverywhere(lists, vertex) - {vertex})
    ensures NeighboursKnown(add, UnlinkedEverywhere(lists, vertex) - {vertex})
    ensures CacheExactOn(add, remove, lists) ==> CacheExactOn(add, remove', UnlinkedEverywhere(lists, vertex) - {vertex})
  {
    forall j | j in lists {
      RemoveFirstShrinks(lists[j], vertex);
    }
    assert forall v | v != vertex :: InLwwSet(add, remove', v) == InLwwSet(add, remove, v);
  }

  /**
   * An immutable snapshot of the vertex maps and the adjacency cache: what
   * `find_path` reads. Its recursion is written on this value.
   */
  datatype VertexView = VertexView(added: map<Vertex, Time>, removed: map<Vertex, Time>,
                                   adjacency: map<Vertex, seq<Vertex>>)
  {
    predicate Live(v: Vertex) {
      InLwwSet(added, removed, v)
    }

    /** How many known vertices `path` does not hold: each step of the search uses one up. */
    ghost function Unvisited(path: seq<Vertex>): nat {
      |added.Keys - set x | x in path|
    }

    lemma UnvisitedShrinks(path: seq<Vertex>, x: Vertex)
      requires x in added && x !in path
      ensures Unvisited(path + [x]) < Unvisited(path)
    {
      var before := added.Keys - set y | y in path;
      var after := added.Keys - set y | y in path + [x];
      assert before == after + {x} by {
        assert x in before && x !in after;
        forall y | y in after ensures y in before {
          assert y in path + [x] <== y in path;
        }
      }
    }

    /**
     * A path of the graph from `start` to `end`: live vertices, no repeats, and each
     * vertex listed in the adjacency entry of the one before.
     */
    ghost predicate IsSimplePath(q: seq<Vertex>, start: Vertex, end: Vertex) {
      && |q| > 0 && q[0] == start && q[|q| - 1] == end
      && NoDuplicates(q)
      && (forall i | 0 <= i < |q| :: Live(q[i]))
      && (forall i | 0 <= i < |q| - 1 :: q[i] in adjacency && q[i + 1] in adjacency[q[i]])
    }

    /**
     * A search result below the prefix `path` that went on from `start`: the prefix, then
     * a simple path from `start` to `end` that does not come back into the prefix.
     */
    ghost predicate ExtendsFrom(r: Option<seq<Vertex>>, path: seq<Vertex>, start: Vertex, end: Vertex) {
      r.Some? ==>
        && |r.value| > |path| && r.value[..|path|] == path
        && IsSimplePath(r.value[|path|..], start, end)
        && forall i | |path| < i < |r.value| :: r.value[i] !in path
    }

    /** A search result that went on from one of `nodes`, none of it inside the prefix `path`. */
    ghost predicate ExtendsVia(r: Option<seq<Vertex>>, path: seq<Vertex>, nodes: seq<Vertex>, end: Vertex) {
      r.Some? ==>
        && |r.value| > |path| && r.value[..|path|] == path
        && r.value[|path|] in nodes
        && IsSimplePath(r.value[|path|..], r.value[|path|], end)
        && forall i | |path| <= i < |r.value| :: r.value[i] !in path
    }

    /** `find_path(start, end, path)`: depth-first search below the prefix `path`. */
    function Search(start: Vertex, end: Vertex, path: seq<Vertex>): (r: Option<seq<Vertex>>)
      requires NeighboursKnown(added, adjacency)
      decreases Unvisited(path + [start]), 1, 0
      ensures !Live(start) || !Live(end) ==> r == None
      ensures Live(start) && start == end ==> r == Some(path + [start])
      ensures ExtendsFrom(r, path, start, end)
    {
      if Live(start) && Live(end) then
        var visited := path + [start];
        if start == end then Some(visited)
        else if start !in adjacency then None
        else TryNeighbours(adjacency[start], end, visited)
      else None
    }

    /** The loop over the neighbours of the vertex last added to `path`. */
    function TryNeighbours(nodes: seq<Vertex>, end: Vertex, path: seq<Vertex>): (r: Option<seq<Vertex>>)
      requires NeighboursKnown(added, adjacency)
      requires forall x | x in nodes :: x in added
      decreases Unvisited(path), 0, |nodes|
      ensures ExtendsVia(r, path, nodes, end)
    {
      if nodes == [] then None
      else if nodes[0] !in path then
        UnvisitedShrinks(path, nodes[0]);
        var found := Search(nodes[0], end, path);
        if found.Some? then found else TryNeighbours(nodes[1..], end, path)
      else TryNeighbours(nodes[1..], end, path)
    }
  }

  class LwwElementGraph {
    var addVertexSet: map<Vertex, Time>
    var removeVertexSet: map<Vertex, Time>
    var addEdgeSet: map<Edge, Time>
    var removeEdgeSet: map<Edge, Time>
    var adjacencyList: map<Vertex, seq<Vertex>>
    /** The keys of `addVertexSet` in the order they were first inserted. */
    var vertexOrder: seq<Vertex>

    /** The invariant every operation keeps, merge included. */
    ghost predicate Valid()
      reads this
    {
      ValidOn(vertexOrder, addVertexSet, removeVertexSet, adjacencyList)
    }

    /** The stronger invariant the four mutators keep and merge does not. */
    ghost predicate CacheExact()
      reads this
    {
      CacheExactOn(addVertexSet, removeVertexSet, adjacencyList)
    }

    /** A graph built, as every caller does, with an empty adjacency dictionary. */
    constructor ()
      ensures Valid() && CacheExact()
      ensures addVertexSet == map[] && removeVertexSet == map[]
      ensures addEdgeSet == map[] && removeEdgeSet == map[]
      ensures adjacencyList == map[] && vertexOrder == []
    {
      addVertexSet, removeVertexSet := map[], map[];
      addEdgeSet, removeEdgeSet := map[], map[];
      adjacencyList, vertexOrder := map[], [];
    }

    function CheckVertexExists(vertex: Vertex): (live: bool)
      reads this
      ensures live == InLwwSet(addVertexSet, removeVertexSet, vertex)
    {
      if vertex !in addVertexSet then false
      else if vertex !in removeVertexSet then true
      else if removeVertexSet[vertex] < addVertexSet[vertex] then true
      else if removeVertexSet[vertex] == addVertexSet[vertex] then true
      else false
    }

    function CheckEdgeExists(edge: Edge): (live: bool)
      reads this
      ensures live == (CheckVertexExists(edge.0) && CheckVertexExists(edge.1)
                       && InLwwSet(addEdgeSet, removeEdgeSet, edge))
    {
      if CheckVertexExists(edge.0) && CheckVertexExists(edge.1) then
        if edge !in addEdgeSet then false
        else if edge !in removeEdgeSet then true
        else if removeEdgeSet[edge] <= addEdgeSet[edge] then true
        else false
      else false
    }

    /**
     * `None` is the path that ends without a return statement: the vertex is dead and
     * its remove timestamp is later than `timestamp`. `now` is the clock reading.
     */
    method AddVertex(vertex: Vertex, timestamp: Time, now: Time) returns (r: Option<bool>)
      requires Valid()
      modifies this
      ensures Valid()
      ensures old(CacheExact()) ==> CacheExact()
      ensures old(CheckVertexExists(vertex)) ==> r == Some(false)
      ensures (!old(CheckVertexExists(vertex)) && vertex in old(removeVertexSet)
               && timestamp < old(removeVertexSet[vertex])) ==> r == None
      ensures r == Some(true) <==> (!old(CheckVertexExists(vertex))
               && (vertex !in old(removeVertexSet) || old(removeVertexSet[vertex]) <= timestamp))
      ensures r != Some(true) ==> unchanged(this)
      ensures r == Some(true) ==>
        && addVertexSet == old(addVertexSet)[vertex := if timestamp < now then now else timestamp]
        && adjacencyList == old(adjacencyList)[vertex := []]
        && vertexOrder == (if vertex in old(addVertexSet) then old(vertexOrder) else old(vertexOrder) + [vertex])
        && CheckVertexExists(vertex)
      ensures removeVertexSet == old(removeVertexSet)
      ensures addEdgeSet == old(addEdgeSet) && removeEdgeSet == old(removeEdgeSet)
    {
      if CheckVertexExists(vertex) {
        return Some(false);
      }
      if vertex in removeVertexSet && !(removeVertexSet[vertex] <= timestamp) {
        return None;
      }
      var recorded := if timestamp < now then now else timestamp;
      if vertex !in addVertexSet {
        DisjointConcat(vertexOrder, [vertex]);
        vertexOrder := vertexOrder + [vertex];
      }
      addVertexSet := addVertexSet[vertex := recorded];
      adjacencyList := adjacencyList[vertex := []];
      return Some(true);
    }

    /**
     * `false` leaves the adjacency cache alone; `true` drops the first occurrence of
     * `vertex` from every list and its own entry. The remove timestamp is always
     * written, and on the add-biased path it is set to `timestamp` even if lower.
     */
    method RemoveVertex(vertex: Vertex, timestamp: Time) returns (removed: bool)
      requires Valid()
      modifies this
      ensures Valid()
      ensures old(CacheExact()) ==> CacheExact()
      ensures removed <==> old(CheckVertexExists(vertex)) && old(addVertexSet[vertex]) < timestamp
      ensures !old(CheckVertexExists(vertex)) ==>
        removeVertexSet == KeepLatest(old(removeVertexSet), vertex, timestamp) && adjacencyList == old(adjacencyList)
      ensures removed ==>
        && removeVertexSet == KeepLatest(old(removeVertexSet), vertex, timestamp)
        && adjacencyList == UnlinkedEverywhere(old(adjacencyList), vertex) - {vertex}
      ensures old(CheckVertexExists(vertex)) && !removed ==>
        removeVertexSet == old(removeVertexSet)[vertex := timestamp] && adjacencyList == old(adjacencyList)
      ensures CheckVertexExists(vertex) <==> old(CheckVertexExists(vertex)) && !removed
      ensures removed ==> forall e: Edge | e.0 == vertex || e.1 == vertex :: !CheckEdgeExists(e)
      ensures addVertexSet == old(addVertexSet) && vertexOrder == old(vertexOrder)
      ensures addEdgeSet == old(addEdgeSet) && removeEdgeSet == old(removeEdgeSet)
    {
      if CheckVertexExists(vertex) {
        removeVertexSet := KeepLatest(removeVertexSet, vertex, timestamp);
        if removeVertexSet[vertex] > addVertexSet[vertex] {
          var lists := RemoveEverywhere(adjacencyList, vertex);
          UnlinkKeepsCache(addVertexSet, old(removeVertexSet), removeVertexSet, adjacencyList, vertex);
          adjacencyList := lists - {vertex};
          removed := true;
        } else {
          removeVertexSet := removeVertexSet[vertex := timestamp];
          removed := false;
        }
      } else {
        removeVertexSet := KeepLatest(removeVertexSet, vertex, timestamp);
        removed := false;
      }
    }

    /** Links two live endpoints when the edge is not live, overwriting its add timestamp. */
    method AddEdge(edge: Edge, timestamp: Time) returns (added: bool)
      requires Valid()
      modifies this
      ensures Valid()
      ensures old(CacheExact()) ==> CacheExact()
      ensures added <==> old(CheckVertexExists(edge.0)) && old(CheckVertexExists(edge.1)) && !old(CheckEdgeExists(edge))
      ensures !added ==> unchanged(this)
      ensures added ==>
        && addEdgeSet == old(addEdgeSet)[edge := timestamp]
        && var once := old(adjacencyList)[edge.0 := old(adjacencyList)[edge.0] + [edge.1]];
           adjacencyList == once[edge.1 := once[edge.1] + [edge.0]]
      ensures added ==> (CheckEdgeExists(edge) <==> edge !in removeEdgeSet || removeEdgeSet[edge] <= timestamp)
      ensures addVertexSet == old(addVertexSet) && removeVertexSet == old(removeVertexSet)
      ensures removeEdgeSet == old(removeEdgeSet) && vertexOrder == old(vertexOrder)
    {
      if CheckVertexExists(edge.0) && CheckVertexExists(edge.1) {
        if !CheckEdgeExists(edge) {
          addEdgeSet := addEdgeSet[edge := timestamp];
          adjacencyList := adjacencyList[edge.0 := adjacencyList[edge.0] + [edge.1]];
          adjacencyList := adjacencyList[edge.1 := adjacencyList[edge.1] + [edge.0]];
          return true;
        }
        return false;
      }
      return false;
    }

    /**
     * The remove timestamp is always written first. When that unlinks a live edge,
     * each endpoint's list loses one occurrence of the other; a list that lacks it
     * raises `ValueError`, with whatever was already changed left changed.
     */
    method RemoveEdge(edge: Edge, timestamp: Time) returns (r: Outcome<bool>)
      requires Valid()
      modifies this
      ensures Valid()
      ensures old(CacheExact()) ==> CacheExact()
      ensures removeEdgeSet == KeepLatest(old(removeEdgeSet), edge, timestamp)
      ensures addVertexSet == old(addVertexSet) && removeVertexSet == old(removeVertexSet)
      ensures addEdgeSet == old(addEdgeSet) && vertexOrder == old(vertexOrder)
      ensures !(old(CheckEdgeExists(edge)) && removeEdgeSet[edge] > addEdgeSet[edge]) ==>
        r == Returned(false) && adjacencyList == old(adjacencyList)
      ensures old(CheckEdgeExists(edge)) && removeEdgeSet[edge] > addEdgeSet[edge] ==>
        var lists := old(adjacencyList);
        if edge.1 !in lists[edge.0] then r == RaisedValueError && adjacencyList == lists
        else
          var once := lists[edge.0 := RemoveFirst(lists[edge.0], edge.1)];
          if edge.0 !in once[edge.1] then r == RaisedValueError && adjacencyList == once
          else r == Returned(true) && adjacencyList == once[edge.1 := RemoveFirst(once[edge.1], edge.0)]
      ensures r == Returned(true) ==> !CheckEdgeExists(edge)
    {
      var wasLive := CheckEdgeExists(edge);
      removeEdgeSet := KeepLatest(removeEdgeSet, edge, timestamp);
      if wasLive && removeEdgeSet[edge] > addEdgeSet[edge] {
        if edge.1 !in adjacencyList[edge.0] {
          return RaisedValueError;
        }
        RemoveFirstShrinks(adjacencyList[edge.0], edge.1);
        adjacencyList := adjacencyList[edge.0 := RemoveFirst(adjacencyList[edge.0], edge.1)];
        if edge.0 !in adjacencyList[edge.1] {
          return RaisedValueError;
        }
        RemoveFirstShrinks(adjacencyList[edge.1], edge.0);
        adjacencyList := adjacencyList[edge.1 := RemoveFirst(adjacencyList[edge.1], edge.0)];
        return Returned(true);
      }
      return Returned(false);
    }

    /** The live vertices among `order`, in the order of `order`. */
    function LiveInOrder(order: seq<Vertex>): (live: seq<Vertex>)
      reads this
      ensures forall v :: v in live <==> v in order && CheckVertexExists(v)
      ensures NoDuplicates(order) ==> NoDuplicates(live)
    {
      if order == [] then []
      else
        var last := order[|order| - 1];
        LiveInOrder(order[..|order| - 1]) + (if CheckVertexExists(last) then [last] else [])
    }

    method GetVertices() returns (vertices: seq<Vertex>)
      requires Valid()
      ensures vertices == LiveInOrder(vertexOrder)
      ensures forall v :: v in vertices <==> CheckVertexExists(v)
      ensures NoDuplicates(vertices)
    {
      vertices := [];
      var i := 0;
      while i < |vertexOrder|
        invariant 0 <= i <= |vertexOrder|
        invariant vertices == LiveInOrder(vertexOrder[..i])
      {
        var vertex := vertexOrder[i];
        if vertex !in removeVertexSet || addVertexSet[vertex] >= removeVertexSet[vertex] {
          vertices := vertices + [vertex];
        }
        assert vertexOrder[..i + 1][..i] == vertexOrder[..i];
        i := i + 1;
      }
      assert vertexOrder[..i] == vertexOrder;
    }

    function QueryVertices(vertex: Vertex): (r: Option<seq<Vertex>>)
      reads this
      requires Valid()
      ensures r.Some? <==> CheckVertexExists(vertex)
      ensures r.Some? ==> vertex in adjacencyList && r.value == adjacencyList[vertex]
      ensures r.Some? ==> forall w | w in r.value :: w in addVertexSet
    {
      if CheckVertexExists(vertex) then Some(adjacencyList[vertex]) else None
    }

    /** The vertex maps and the cache, as the search reads them. */
    function View(): (g: VertexView)
      reads this
      ensures g.added == addVertexSet && g.removed == removeVertexSet && g.adjacency == adjacencyList
    {
      VertexView(addVertexSet, removeVertexSet, adjacencyList)
    }

    /** `find_path(start, end)` as callers use it, with no prefix. */
    function FindPath(start: Vertex, end: Vertex): (r: Option<seq<Vertex>>)
      reads this
      requires Valid()
      ensures !CheckVertexExists(start) || !CheckVertexExists(end) ==> r == None
      ensures CheckVertexExists(start) && start == end ==> r == Some([start])
      ensures r.Some? ==> View().IsSimplePath(r.value, start, end)
    {
      var found := View().Search(start, end, []);
      assert found.Some? ==> found.value[0..] == found.value;
      found
    }

    /**
     * `merge(other)`: every map of this replica becomes its join with the matching map
     * of `other`; keys new to the add-vertex map go to the end of the key order, in
     * `other`'s order. Returns this replica.
     */
    method Merge(other: LwwElementGraph) returns (merged: LwwElementGraph)
      requires Valid() && other.Valid()
      modifies this
      ensures merged == this && Valid()
      ensures addVertexSet == Join(old(addVertexSet), old(other.addVertexSet), Later)
      ensures removeVertexSet == Join(old(removeVertexSet), old(other.removeVertexSet), Later)
      ensures addEdgeSet == Join(old(addEdgeSet), old(other.addEdgeSet), Later)
      ensures removeEdgeSet == Join(old(removeEdgeSet), old(other.removeEdgeSet), Later)
      ensures adjacencyList == Join(old(adjacencyList), old(other.adjacencyList), LexGreater)
      ensures vertexOrder == old(vertexOrder) + Unseen(old(other.vertexOrder), old(addVertexSet))
    {
      MergeKeepsCacheInvariants(addVertexSet, removeVertexSet, adjacencyList,
                                other.addVertexSet, other.removeVertexSet, other.adjacencyList);
      MergeKeepsOrder(vertexOrder, addVertexSet, other.vertexOrder, other.addVertexSet);
      var order := vertexOrder + Unseen(other.vertexOrder, addVertexSet);
      var addV := MergeSets(addVertexSet, other.addVertexSet, Later);
      var removeV := MergeSets(removeVertexSet, other.removeVertexSet, Later);
      var addE := MergeSets(addEdgeSet, other.addEdgeSet, Later);
      var removeE := MergeSets(removeEdgeSet, other.removeEdgeSet, Later);
      var lists := MergeSets(adjacencyList, other.adjacencyList, LexGreater);
      assert ValidOn(order, addV, removeV, lists);
      vertexOrder, addVertexSet, removeVertexSet := order, addV, removeV;
      addEdgeSet, removeEdgeSet, adjacencyList := addE, removeE, lists;
      merged := this;
    }
  }
}
