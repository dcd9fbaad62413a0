/** A bounded least-recently-used map, as Apache Commons `LRUMap` behaves
    for the operations the thumbnail cache uses: the entries are a sequence
    from least (index 0) to most recently used, with distinct keys. */
module LruMaps {
  import opened Wrappers

  /** Keys and values are references into the state and thumbnail stores. */
  type K = nat
  type V = nat
  type Lru = seq<(K, V)>

  /** The keys, in recency order. */
  function Keys(l: Lru): (ks: seq<K>)
    ensures |ks| == |l|
    ensures forall i :: 0 <= i < |l| ==> ks[i] == l[i].0
  {
    seq(|l|, i requires 0 <= i < |l| => l[i].0)
  }

  predicate DistinctKeys(l: Lru) {
    forall i, j :: 0 <= i < j < |l| ==> l[i].0 != l[j].0
  }

  /** The value stored under `k`. */
  function Lookup(l: Lru, k: K): (r: Option<V>)
    ensures r.Some? <==> k in Keys(l)
    ensures r.Some? ==> (k, r.value) in l
  {
    if |l| == 0 then None
    else if l[0].0 == k then Some(l[0].1)
    else
      assert Keys(l) == [l[0].0] + Keys(l[1..]);
      assert forall e :: e in l[1..] ==> e in l;
      Lookup(l[1..], k)
  }

  /** `isFull()`: as many entries as the maximum size. */
  predicate IsFull(l: Lru, maxSize: nat) {
    |l| >= maxSize
  }

  /** `remove(k)`, and the removal half of moving an entry to the MRU end:
      every other entry stays, in order. */
  function Remove(l: Lru, k: K): (r: Lru)
    ensures |r| <= |l|
    ensures k !in Keys(r)
    ensures forall e :: e in r <==> e in l && e.0 != k
  {
    var r := if |l| == 0 then [] else if l[0].0 == k then Remove(l[1..], k) else [l[0]] + Remove(l[1..], k);
    KeyAbsent(r, k);
    r
  }

  /** A key no entry carries is not among the keys. */
  lemma KeyAbsent(l: Lru, k: K)
    requires forall e :: e in l ==> e.0 != k
    ensures k !in Keys(l)
  {
    forall i | 0 <= i < |l| ensures Keys(l)[i] != k {
      assert l[i] in l;
    }
  }

  /** `keySet().retainAll(keep)`: the entries whose key is kept, in order. */
  function Retain(l: Lru, keep: set<K>): (r: Lru)
    ensures |r| <= |l|
    ensures forall e :: e in r <==> e in l && e.0 in keep
  {
    if |l| == 0 then []
    else if l[0].0 in keep then [l[0]] + Retain(l[1..], keep)
    else Retain(l[1..], keep)
  }

  /** `put(k, v)`: a present key gets the new value and becomes the most
      recently used; an absent key is added as the most recently used,
      after dropping the least recently used entry when the map is full. */
  function Put(l: Lru, k: K, v: V, maxSize: nat): (r: Lru)
    requires maxSize > 0
  {
    if k in Keys(l) then Remove(l, k) + [(k, v)]
    else if IsFull(l, maxSize) then l[1..] + [(k, v)]
    else l + [(k, v)]
  }

  /** `get(k, updateToMRU)`: the value, and a found entry moves to the MRU
      end when asked to. */
  function Get(l: Lru, k: K, updateToMru: bool): (r: (Option<V>, Lru))
    ensures r.0 == Lookup(l, k)
    ensures r.0.None? || !updateToMru ==> r.1 == l
  {
    match Lookup(l, k)
    case None => (None, l)
    case Some(v) => (Some(v), if updateToMru then Remove(l, k) + [(k, v)] else l)
  }

  /** A removal in a map with distinct keys drops exactly one entry when
      the key is present, and keeps the keys distinct. */
  lemma {:induction false} RemoveDistinct(l: Lru, k: K)
    requires DistinctKeys(l)
    ensures DistinctKeys(Remove(l, k))
    ensures k in Keys(l) ==> |Remove(l, k)| == |l| - 1
    ensures k !in Keys(l) ==> Remove(l, k) == l
  {
    if |l| > 0 {
      RemoveDistinct(l[1..], k);
      HeadFresh(l);
      if l[0].0 != k {
        ConsDistinct(l[0], Remove(l[1..], k));
      }
    }
  }

  /** In a map with distinct keys the first key does not recur. */
  lemma HeadFresh(l: Lru)
    requires |l| > 0 && DistinctKeys(l)
    ensures DistinctKeys(l[1..])
    ensures forall e :: e in l[1..] ==> e.0 != l[0].0
    ensures Keys(l) == [l[0].0] + Keys(l[1..])
  {
    forall e | e in l[1..] ensures e.0 != l[0].0 {
      var j :| 0 <= j < |l[1..]| && l[1..][j] == e;
      assert l[j + 1] == e;
    }
  }

  lemma ConsDistinct(e: (K, V), rest: Lru)
    requires DistinctKeys(rest) && forall x :: x in rest ==> x.0 != e.0
    ensures DistinctKeys([e] + rest)
  {
    forall j | 0 < j < |[e] + rest| ensures ([e] + rest)[j].0 != e.0 {
      assert ([e] + rest)[j] == rest[j - 1];
    }
  }

  /** Retaining keeps the keys distinct. */
  lemma {:induction false} RetainDistinct(l: Lru, keep: set<K>)
    requires DistinctKeys(l)
    ensures DistinctKeys(Retain(l, keep))
  {
    if |l| > 0 {
      RetainDistinct(l[1..], keep);
      HeadFresh(l);
      if l[0].0 in keep {
        ConsDistinct(l[0], Retain(l[1..], keep));
      }
    }
  }

  /** A put keeps the keys distinct and the size within the maximum, and
      the key then maps to the new value as the most recently used entry. */
  lemma PutSpec(l: Lru, k: K, v: V, maxSize: nat)
    requires maxSize > 0 && DistinctKeys(l) && |l| <= maxSize
    ensures var r := Put(l, k, v, maxSize);
      DistinctKeys(r) && |r| <= maxSize && |r| > 0 && r[|r| - 1] == (k, v) && Lookup(r, k) == Some(v)
  {
    var body;
    if k in Keys(l) {
      body := PutPresentBody(l, k, v, maxSize);
    } else if IsFull(l, maxSize) {
      body := PutFullBody(l, k, v, maxSize);
    } else {
      body := PutRoomBody(l, k, v, maxSize);
    }
    LookupLast(body, k, v);
    ConsLastDistinct(body, (k, v));
  }

  /** The entries a put keeps before the new last one, for a present key. */
  lemma PutPresentBody(l: Lru, k: K, v: V, maxSize: nat) returns (body: Lru)
    requires maxSize > 0 && DistinctKeys(l) && |l| <= maxSize && k in Keys(l)
    ensures Put(l, k, v, maxSize) == body + [(k, v)]
    ensures DistinctKeys(body) && |body| < maxSize && forall e :: e in body ==> e.0 != k
  {
    RemoveDistinct(l, k);
    body := Remove(l, k);
  }

  /** The same for an absent key in a full map. */
  lemma PutFullBody(l: Lru, k: K, v: V, maxSize: nat) returns (body: Lru)
    requires maxSize > 0 && DistinctKeys(l) && |l| <= maxSize && k !in Keys(l) && IsFull(l, maxSize)
    ensures Put(l, k, v, maxSize) == body + [(k, v)]
    ensures DistinctKeys(body) && |body| < maxSize && forall e :: e in body ==> e.0 != k
  {
    body := l[1..];
    HeadFresh(l);
    forall e | e in body ensures e.0 != k {
      var j :| 0 <= j < |body| && body[j] == e;
      assert e.0 == Keys(l)[j + 1];
    }
  }

  /** The same for an absent key in a map with room. */
  lemma PutRoomBody(l: Lru, k: K, v: V, maxSize: nat) returns (body: Lru)
    requires maxSize > 0 && DistinctKeys(l) && |l| <= maxSize && k !in Keys(l) && !IsFull(l, maxSize)
    ensures Put(l, k, v, maxSize) == body + [(k, v)]
    ensures DistinctKeys(body) && |body| < maxSize && forall e :: e in body ==> e.0 != k
  {
    body := l;
    forall e | e in body ensures e.0 != k {
      var j :| 0 <= j < |body| && body[j] == e;
      assert e.0 == Keys(l)[j];
    }
  }

  /** Appending an entry whose key is new keeps the keys distinct. */
  lemma ConsLastDistinct(body: Lru, e: (K, V))
    requires DistinctKeys(body) && forall x :: x in body ==> x.0 != e.0
    ensures DistinctKeys(body + [e])
  {
    forall i | 0 <= i < |body| ensures (body + [e])[i].0 != e.0 {
      assert (body + [e])[i] == body[i];
    }
  }

  lemma LookupLast(body: Lru, k: K, v: V)
    requires forall e :: e in body ==> e.0 != k
    ensures Lookup(body + [(k, v)], k) == Some(v)
  {
    if |body| > 0 {
      assert (body + [(k, v)])[1..] == body[1..] + [(k, v)];
      LookupLast(body[1..], k, v);
    }
  }

  /** Which entries a put keeps: all others when the key was present or the
      map had room; all but the least recently used one otherwise. */
  lemma PutKeeps(l: Lru, k: K, v: V, maxSize: nat, e: (K, V))
    requires maxSize > 0 && DistinctKeys(l) && e in l && e.0 != k
    ensures e in Put(l, k, v, maxSize) <==> k in Keys(l) || !IsFull(l, maxSize) || e != l[0]
  {
    if k !in Keys(l) && IsFull(l, maxSize) {
      var j :| 0 <= j < |l| && l[j] == e;
      if e != l[0] {
        assert l[1..][j - 1] == e;
      } else {
        forall i | 0 <= i < |l[1..]| ensures l[1..][i] != e {
          assert l[1..][i].0 == l[i + 1].0;
        }
      }
    }
  }

  /** A get never adds or drops an entry. */
  lemma GetKeepsEntries(l: Lru, k: K, updateToMru: bool)
    requires DistinctKeys(l)
    ensures var r := Get(l, k, updateToMru).1;
      DistinctKeys(r) && |r| == |l| && forall e :: e in r <==> e in l
  {
    var r := Get(l, k, updateToMru);
    if r.0.Some? && updateToMru {
      RemoveDistinct(l, k);
      var i :| 0 <= i < |l| && l[i] == (k, r.0.value);
      forall e | e in l && e.0 == k ensures e == (k, r.0.value) {
        var j :| 0 <= j < |l| && l[j] == e;
        assert j == i;
      }
      forall e | e in Remove(l, k) ensures e.0 != k { }
    }
  }
}
