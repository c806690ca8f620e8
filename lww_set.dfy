/**
 * The last-writer-wins bookkeeping shared by vertices and edges: timestamp maps
 * ("add sets" and "remove sets"), the add-biased membership rule, the way a
 * remove timestamp is recorded, and `merge_sets`, the per-key join of two maps.
 */
module LwwSet {
  import opened Seqs

  /** Timestamps are supplied by the caller and only ever compared. */
  type Time = int

  /**
   * Membership under the add-biased rule: the key has an add timestamp, and either
   * no remove timestamp or one that is not later than the add (a tie keeps it).
   */
  predicate InLwwSet<K(==)>(add: map<K, Time>, remove: map<K, Time>, k: K) {
    k in add && (k !in remove || remove[k] <= add[k])
  }

  /**
   * Records the remove timestamp `t` for `k`: a stored value is replaced only by a
   * strictly larger one, a missing one is created.
   */
  function KeepLatest<K(==)>(m: map<K, Time>, k: K, t: Time): (r: map<K, Time>)
    ensures r.Keys == m.Keys + {k}
    ensures r[k] >= t && (k in m ==> r[k] >= m[k])
    ensures r[k] == t || (k in m && r[k] == m[k])
    ensures forall j | j in m && j != k :: r[j] == m[j]
  {
    if k in m && !(m[k] < t) then m else m[k := t]
  }

  /** Python's `>` on timestamps: the order `merge_sets` uses on the four timestamp maps. */
  predicate Later(a: Time, b: Time) {
    a > b
  }

  /**
   * The value of `first` after `merge_sets(first, second)`: every key of `second`
   * that `first` lacks is copied, and a shared key takes `second`'s value only when
   * it is `greater` than `first`'s.
   */
  function Join<K(==), V>(first: map<K, V>, second: map<K, V>, greater: (V, V) -> bool): (r: map<K, V>)
    ensures r.Keys == first.Keys + second.Keys
    ensures forall k | k in r :: (k in first && r[k] == first[k]) || (k in second && r[k] == second[k])
    ensures forall k | k in first && k !in second :: r[k] == first[k]
    ensures forall k | k in second && k !in first :: r[k] == second[k]
  {
    map k | k in first.Keys + second.Keys ::
      if k in second && (k !in first || greater(second[k], first[k])) then second[k] else first[k]
  }

  /** `merge_sets` as the loop it is: walk the keys of `second`, overwriting entries of `first`. */
  method MergeSets<K(==), V>(first: map<K, V>, second: map<K, V>, greater: (V, V) -> bool)
    returns (merged: map<K, V>)
    ensures merged == Join(first, second, greater)
  {
    merged := first;
    var pending := second.Keys;
    assert second - pending == map[];
    while pending != {}
      invariant pending <= second.Keys
      invariant merged == Join(first, second - pending, greater)
      decreases pending
    {
      var key :| key in pending;
      if key !in merged {
        merged := merged[key := second[key]];
      } else if greater(second[key], merged[key]) {
        merged := merged[key := second[key]];
      }
      pending := pending - {key};
    }
    assert second - pending == second;
  }

  /** Merging never lowers a timestamp: each key ends with the larger of its two values. */
  lemma JoinLaterIsMax<K>(a: map<K, Time>, b: map<K, Time>)
    ensures forall k | k in a :: Join(a, b, Later)[k] >= a[k]
    ensures forall k | k in b :: Join(a, b, Later)[k] >= b[k]
  {
  }

  /** Merging a state with itself changes nothing, whatever the order on values. */
  lemma JoinIdempotent<K, V>(a: map<K, V>, greater: (V, V) -> bool)
    ensures Join(a, a, greater) == a
  {
  }

  /** The empty map is a unit on both sides. */
  lemma JoinEmpty<K, V>(a: map<K, V>, greater: (V, V) -> bool)
    ensures Join(a, map[], greater) == a
    ensures Join(map[], a, greater) == a
  {
  }

  lemma JoinLaterCommutes<K>(a: map<K, Time>, b: map<K, Time>)
    ensures Join(a, b, Later) == Join(b, a, Later)
  {
  }

  lemma JoinLaterAssociates<K>(a: map<K, Time>, b: map<K, Time>, c: map<K, Time>)
    ensures Join(Join(a, b, Later), c, Later) == Join(a, Join(b, c, Later), Later)
  {
  }

  /** Merging adjacency lists by Python's list order is independent of argument order. */
  lemma JoinLexCommutes<K>(a: map<K, seq<int>>, b: map<K, seq<int>>)
    ensures Join(a, b, LexGreater) == Join(b, a, LexGreater)
  {
    forall k | k in a && k in b
      ensures Join(a, b, LexGreater)[k] == Join(b, a, LexGreater)[k]
    {
      LexTrichotomy(a[k], b[k]);
    }
  }

  lemma JoinLexAssociates<K>(a: map<K, seq<int>>, b: map<K, seq<int>>, c: map<K, seq<int>>)
    ensures Join(Join(a, b, LexGreater), c, LexGreater) == Join(a, Join(b, c, LexGreater), LexGreater)
  {
    var left := Join(Join(a, b, LexGreater), c, LexGreater);
    var right := Join(a, Join(b, c, LexGreater), LexGreater);
    forall k | k in left
      ensures k in right && left[k] == right[k]
    {
      if k in a && k in b { LexTrichotomy(a[k], b[k]); }
      if k in b && k in c { LexTrichotomy(b[k], c[k]); }
      if k in a && k in c { LexTrichotomy(a[k], c[k]); }
      if k in a && k in b && k in c {
        if LexLess(a[k], b[k]) && LexLess(b[k], c[k]) { LexTransitive(a[k], b[k], c[k]); }
        if LexLess(c[k], b[k]) && LexLess(b[k], a[k]) { LexTransitive(c[k], b[k], a[k]); }
      }
    }
  }

  /**
   * What is live after a merge was live in one of the two replicas: the replica that
   * holds the larger add timestamp has a remove timestamp no later than it.
   */
  lemma JoinedLiveWasLive<K>(a1: map<K, Time>, r1: map<K, Time>, a2: map<K, Time>, r2: map<K, Time>, k: K)
    requires InLwwSet(Join(a1, a2, Later), Join(r1, r2, Later), k)
    ensures InLwwSet(a1, r1, k) || InLwwSet(a2, r2, k)
  {
  }

  /** Replicas that merged in either order agree on what is live. */
  lemma JoinedLivenessCommutes<K>(a1: map<K, Time>, r1: map<K, Time>, a2: map<K, Time>, r2: map<K, Time>, k: K)
    ensures InLwwSet(Join(a1, a2, Later), Join(r1, r2, Later), k) == InLwwSet(Join(a2, a1, Later), Join(r2, r1, Later), k)
  {
    JoinLaterCommutes(a1, a2);
    JoinLaterCommutes(r1, r2);
  }
}
