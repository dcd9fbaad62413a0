/** Removing entries from a map while iterating over it, as
    `MutableIterator.remove` does: the order of the iteration is the map's
    own and is left open here. */
module MapEviction {
  /** The entries whose value `drop` selects are removed and each removed
      value is reported once; the other entries are kept untouched. */
  method Evict<K(==), V(==)>(m: map<K, V>, drop: V -> bool) returns (kept: map<K, V>, removed: seq<V>)
    ensures kept == map k | k in m && !drop(m[k]) :: m[k]
    ensures |removed| + |kept| == |m|
    ensures forall i :: 0 <= i < |removed| ==> removed[i] in m.Values && drop(removed[i])
    ensures forall k :: k in m && drop(m[k]) ==> m[k] in removed
  {
    kept := map k | k in m && !drop(m[k]) :: m[k];
    var todo := set k | k in m && drop(m[k]);
    Partition(m, drop);
    removed := [];
    ghost var done: set<K> := {};
    while todo != {}
      invariant Progress(m, drop, todo, done, removed)
      decreases |todo|
    {
      var k :| k in todo;
      Step(m, drop, todo, done, removed, k);
      removed := removed + [m[k]];
      todo, done := todo - {k}, done + {k};
    }
  }

  /** The loop invariant: `done` holds the keys already removed, `todo`
      the selected keys still to go. */
  ghost predicate Progress<K, V>(m: map<K, V>, drop: V -> bool, todo: set<K>, done: set<K>, removed: seq<V>) {
    && todo + done == (set k | k in m && drop(m[k])) && todo !! done
    && |removed| == |done|
    && (forall i :: 0 <= i < |removed| ==> removed[i] in m.Values && drop(removed[i]))
    && (forall k :: k in done ==> m[k] in removed)
  }

  lemma Step<K, V>(m: map<K, V>, drop: V -> bool, todo: set<K>, done: set<K>, removed: seq<V>, k: K)
    requires Progress(m, drop, todo, done, removed) && k in todo
    ensures Progress(m, drop, todo - {k}, done + {k}, removed + [m[k]])
    ensures |todo - {k}| < |todo|
  {
    assert |done + {k}| == |done| + 1;
    assert m[k] in m.Values;
  }

  /** Selected and kept keys partition the map. */
  lemma Partition<K, V>(m: map<K, V>, drop: V -> bool)
    ensures |set k | k in m && drop(m[k])| + |map k | k in m && !drop(m[k]) :: m[k]| == |m|
  {
    var a := set k | k in m && drop(m[k]);
    var b := (map k | k in m && !drop(m[k]) :: m[k]).Keys;
    assert a + b == m.Keys && a !! b;
    assert |a + b| == |a| + |b|;
  }
}
