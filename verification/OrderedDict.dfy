/** Insertion-ordered dictionaries with distinct keys, used as bounded recency caches. */
module OrderedDict {
  import opened Wrappers

  datatype Entry<K, V> = Entry(key: K, value: V)

  type Dict<K, V> = seq<Entry<K, V>>

  ghost predicate Distinct<K, V>(d: Dict<K, V>) {
    forall i, j | 0 <= i < j < |d| :: d[i].key != d[j].key
  }

  function Get<K(==), V>(d: Dict<K, V>, k: K): (v: Option<V>)
    ensures v.Some? ==> Entry(k, v.value) in d
    ensures v.None? ==> forall e | e in d :: e.key != k
  {
    if d == [] then None
    else if d[|d| - 1].key == k then Some(d[|d| - 1].value)
    else Get(d[..|d| - 1], k)
  }

  function Remove<K(==, !new), V(!new)>(d: Dict<K, V>, k: K): (r: Dict<K, V>)
    ensures forall e :: e in r <==> e in d && e.key != k
  {
    if d == [] then []
    else if d[|d| - 1].key == k then Remove(d[..|d| - 1], k)
    else Remove(d[..|d| - 1], k) + [d[|d| - 1]]
  }

  /** `d[k] = v; d.move_to_end(k)`. */
  function Put<K(==, !new), V(!new)>(d: Dict<K, V>, k: K, v: V): Dict<K, V> {
    Remove(d, k) + [Entry(k, v)]
  }

  /** `while len(d) > max: d.popitem(last=False)`. */
  function Trim<K, V>(d: Dict<K, V>, max: nat): Dict<K, V> {
    if |d| <= max then d else d[|d| - max..]
  }

  /** Keep the entries that satisfy `p`, in order. */
  function Keep<K(!new), V(!new)>(d: Dict<K, V>, p: Entry<K, V> -> bool): (r: Dict<K, V>)
    ensures forall e :: e in r <==> e in d && p(e)
    ensures |r| <= |d|
  {
    if d == [] then []
    else Keep(d[..|d| - 1], p) + (if p(d[|d| - 1]) then [d[|d| - 1]] else [])
  }

  lemma AppendDistinct<K(!new), V(!new)>(d: Dict<K, V>, e: Entry<K, V>)
    requires Distinct(d) && forall x | x in d :: x.key != e.key
    ensures Distinct(d + [e])
  {
    assert forall i | 0 <= i < |d| :: d[i] in d;
  }

  lemma {:induction false} RemoveFacts<K(!new), V(!new)>(d: Dict<K, V>, k: K)
    requires Distinct(d)
    ensures Distinct(Remove(d, k)) && |Remove(d, k)| <= |d|
    decreases |d|
  {
    if d != [] {
      var init, last := d[..|d| - 1], d[|d| - 1];
      RemoveFacts(init, k);
      forall x | x in Remove(init, k)
        ensures x.key != last.key
      {
        var i :| 0 <= i < |init| && init[i] == x;
        assert d[i].key != d[|d| - 1].key;
      }
      AppendDistinct(Remove(init, k), last);
    }
  }

  lemma PutFacts<K(!new), V(!new)>(d: Dict<K, V>, k: K, v: V)
    requires Distinct(d)
    ensures Distinct(Put(d, k, v)) && |Put(d, k, v)| <= |d| + 1
    ensures Get(Put(d, k, v), k) == Some(v)
  {
    RemoveFacts(d, k);
    AppendDistinct(Remove(d, k), Entry(k, v));
    assert Put(d, k, v)[..|Put(d, k, v)| - 1] == Remove(d, k);
  }

  lemma TrimFacts<K(!new), V(!new)>(d: Dict<K, V>, max: nat)
    requires Distinct(d)
    ensures Distinct(Trim(d, max)) && |Trim(d, max)| <= max
    ensures forall e | e in Trim(d, max) :: e in d
  {
  }

  lemma {:induction false} KeepFacts<K(!new), V(!new)>(d: Dict<K, V>, p: Entry<K, V> -> bool)
    requires Distinct(d)
    ensures Distinct(Keep(d, p))
    decreases |d|
  {
    if d != [] {
      var init, last := d[..|d| - 1], d[|d| - 1];
      KeepFacts(init, p);
      forall x | x in Keep(init, p)
        ensures x.key != last.key
      {
        var i :| 0 <= i < |init| && init[i] == x;
        assert d[i].key != d[|d| - 1].key;
      }
      if p(last) {
        AppendDistinct(Keep(init, p), last);
      }
    }
  }

  /** With distinct keys, membership of the pair is the same as a hit. */
  lemma GetIsMember<K(!new), V(!new)>(d: Dict<K, V>, k: K, v: V)
    requires Distinct(d)
    ensures Get(d, k) == Some(v) <==> Entry(k, v) in d
  {
    if Entry(k, v) in d && Get(d, k).Some? {
      var i :| 0 <= i < |d| && d[i] == Entry(k, v);
      var j :| 0 <= j < |d| && d[j] == Entry(k, Get(d, k).value);
    }
  }

  /** Shrinking a dictionary keeps every surviving answer. */
  lemma SubsetHits<K(!new), V(!new)>(small: Dict<K, V>, big: Dict<K, V>, k: K)
    requires Distinct(small) && Distinct(big) && forall e | e in small :: e in big
    ensures Get(small, k).Some? ==> Get(big, k) == Get(small, k)
  {
    if Get(small, k).Some? {
      GetIsMember(big, k, Get(small, k).value);
    }
  }

  // ---------------------------------------------------------------- suffixes

  ghost predicate IsSuffix<K, V>(small: Dict<K, V>, big: Dict<K, V>) {
    |small| <= |big| && small == big[|big| - |small|..]
  }

  lemma {:induction false} RemoveSuffix<K(!new), V(!new)>(small: Dict<K, V>, big: Dict<K, V>, k: K)
    requires IsSuffix(small, big)
    ensures IsSuffix(Remove(small, k), Remove(big, k))
    decreases |small|
  {
    if small != [] {
      var s, b := small[..|small| - 1], big[..|big| - 1];
      assert small[|small| - 1] == big[|big| - 1];
      RemoveSuffix(s, b, k);
    }
  }

  lemma {:induction false} KeepSuffix<K(!new), V(!new)>(small: Dict<K, V>, big: Dict<K, V>, p: Entry<K, V> -> bool)
    requires IsSuffix(small, big)
    ensures IsSuffix(Keep(small, p), Keep(big, p))
    decreases |small|
  {
    if small != [] {
      var s, b := small[..|small| - 1], big[..|big| - 1];
      assert small[|small| - 1] == big[|big| - 1];
      KeepSuffix(s, b, p);
    }
  }

  lemma TrimSuffix<K(!new), V(!new)>(small: Dict<K, V>, big: Dict<K, V>, max: nat)
    requires IsSuffix(small, big)
    ensures IsSuffix(Trim(small, max), big)
  {
  }

  // ---------------------------------------------------------------- concatenation

  lemma {:induction false} RemoveConcat<K(!new), V(!new)>(a: Dict<K, V>, b: Dict<K, V>, k: K)
    ensures Remove(a + b, k) == Remove(a, k) + Remove(b, k)
    decreases |b|
  {
    if b == [] {
      assert a + b == a;
    } else {
      var b' := b[..|b| - 1];
      assert (a + b)[..|a + b| - 1] == a + b';
      RemoveConcat(a, b', k);
    }
  }

  lemma {:induction false} KeepConcat<K(!new), V(!new)>(a: Dict<K, V>, b: Dict<K, V>, p: Entry<K, V> -> bool)
    ensures Keep(a + b, p) == Keep(a, p) + Keep(b, p)
    decreases |b|
  {
    if b == [] {
      assert a + b == a;
    } else {
      var b' := b[..|b| - 1];
      assert (a + b)[..|a + b| - 1] == a + b';
      KeepConcat(a, b', p);
    }
  }

  /** Distinct keys drawn from a set are no more than the set. */
  lemma {:induction false} CountKeys<K(!new), V(!new)>(d: Dict<K, V>, keys: set<K>)
    requires Distinct(d) && forall e | e in d :: e.key in keys
    ensures |d| <= |keys|
    decreases |d|
  {
    if d != [] {
      var init, k := d[..|d| - 1], d[|d| - 1].key;
      assert d[|d| - 1] in d;
      forall e | e in init
        ensures e.key in keys - {k}
      {
        var i :| 0 <= i < |init| && init[i] == e;
        assert d[i].key != d[|d| - 1].key;
      }
      CountKeys(init, keys - {k});
    }
  }
}
