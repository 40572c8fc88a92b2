/** Which places of a list something is taken from. */
module Places {

  /** Places in rising order, all before `n`. */
  ghost predicate Rising(at: seq<nat>, n: nat) {
    (forall i, j | 0 <= i < j < |at| :: at[i] < at[j]) && forall i | 0 <= i < |at| :: at[i] < n
  }

  /** Exactly the places of the items chosen. */
  ghost predicate Chosen<T>(items: seq<T>, choose: T -> bool, at: seq<nat>) {
    Rising(at, |items|) && forall j | 0 <= j < |items| :: j in at <==> choose(items[j])
  }

  lemma OneMoreItem<T>(items: seq<T>, choose: T -> bool, at: seq<nat>)
    requires items != [] && Chosen(items[..|items| - 1], choose, at)
    ensures Chosen(items, choose, if choose(items[|items| - 1]) then at + [|items| - 1] else at)
  {
    var n := |items| - 1;
    assert forall j | 0 <= j < n :: items[..n][j] == items[j];
    assert n !in at;
    assert n == (at + [n])[|at|] && forall j | j in at :: j in at + [n];
  }

  /** What the items at these places are. */
  ghost predicate At<T>(items: seq<T>, at: seq<nat>, taken: seq<T>) {
    |taken| == |at| && Rising(at, |items|) && forall i | 0 <= i < |at| :: taken[i] == items[at[i]]
  }

  lemma OneMoreAt<T>(items: seq<T>, at: seq<nat>, taken: seq<T>)
    requires items != [] && At(items[..|items| - 1], at, taken)
    ensures At(items, at, taken) && At(items, at + [|items| - 1], taken + [items[|items| - 1]])
  {
    assert forall i | 0 <= i < |at| :: items[..|items| - 1][at[i]] == items[at[i]];
  }

  // ---------------------------------------------------------------- first occurrences

  ghost predicate First<T>(keys: seq<T>, j: nat)
    requires j < |keys|
  {
    forall i | 0 <= i < j :: keys[i] != keys[j]
  }

  /** The places, in order, where a wanted key stands for the first time. */
  ghost predicate Firsts<T>(keys: seq<T>, wanted: T -> bool, at: seq<nat>) {
    Rising(at, |keys|) && forall j | 0 <= j < |keys| :: j in at <==> wanted(keys[j]) && First(keys, j)
  }

  lemma OneMoreKey<T>(keys: seq<T>, wanted: T -> bool, at: seq<nat>)
    requires keys != [] && Firsts(keys[..|keys| - 1], wanted, at)
    ensures var n := |keys| - 1;
            Firsts(keys, wanted, if wanted(keys[n]) && First(keys, n) then at + [n] else at)
  {
    var n := |keys| - 1;
    forall j | 0 <= j < n
      ensures keys[..n][j] == keys[j] && (First(keys[..n], j) <==> First(keys, j))
    {
    }
    assert n !in at;
    assert n == (at + [n])[|at|] && forall j | j in at :: j in at + [n];
  }

  lemma {:induction false} FirstOf<T>(keys: seq<T>, j: nat) returns (i: nat)
    requires j < |keys|
    ensures i <= j && keys[i] == keys[j] && First(keys, i)
  {
    i := j;
    if !First(keys, j) {
      var k :| 0 <= k < j && keys[k] == keys[j];
      i := FirstOf(keys, k);
    }
  }

  /** A wanted key is among those taken exactly when it stands anywhere. */
  lemma TakenIffThere<T>(keys: seq<T>, wanted: T -> bool, at: seq<nat>, taken: seq<T>, key: T)
    requires Firsts(keys, wanted, at) && At(keys, at, taken)
    ensures wanted(key) ==> (key in taken <==> key in keys)
  {
    if wanted(key) && key in keys {
      var j :| 0 <= j < |keys| && keys[j] == key;
      var k := FirstOf(keys, j);
      assert k in at;
      var i :| 0 <= i < |at| && at[i] == k;
      assert taken[i] == key;
    }
  }

  // ---------------------------------------------------------------- one list of places

  /** The largest place that is possible is the last, if it is there at all. */
  lemma LastPlace(at: seq<nat>, m: nat)
    requires Rising(at, m + 1)
    ensures m in at <==> at != [] && at[|at| - 1] == m
  {
    assert forall i | 0 <= i < |at| - 1 :: at[i] < at[|at| - 1];
  }

  lemma LessPlaces(at: seq<nat>, m: nat)
    requires Rising(at, m + 1)
    ensures if m in at then at != [] && Rising(at[..|at| - 1], m) && at == at[..|at| - 1] + [m] else Rising(at, m)
  {
    LastPlace(at, m);
    assert forall i | 0 <= i < |at| :: at[i] in at;
  }

  lemma SameRest(c: seq<nat>, d: seq<nat>, m: nat)
    requires Rising(c, m) && Rising(d, m) && forall j | 0 <= j <= m :: j in c + [m] <==> j in d + [m]
    ensures forall j | 0 <= j < m :: j in c <==> j in d
  {
    forall j | 0 <= j < m
      ensures j in c <==> j in d
    {
      assert (j in c + [m] <==> j in c) && (j in d + [m] <==> j in d);
    }
  }

  /** There are no more places than there is room for. */
  lemma {:induction false} PlacesWithin(at: seq<nat>, n: nat)
    requires Rising(at, n)
    ensures |at| <= n
    decreases |at|
  {
    if at != [] {
      var last := at[|at| - 1];
      PlacesWithin(at[..|at| - 1], last);
    }
  }

  /** Two rising lists of the same places are the same list. */
  lemma {:induction false} OneListOfPlaces(a: seq<nat>, b: seq<nat>, n: nat)
    requires Rising(a, n) && Rising(b, n) && forall j | 0 <= j < n :: j in a <==> j in b
    ensures a == b
    decreases n
  {
    if n == 0 {
      PlacesWithin(a, 0);
      PlacesWithin(b, 0);
    } else {
      var m := n - 1;
      LessPlaces(a, m);
      LessPlaces(b, m);
      assert m in a <==> m in b;
      if m in a {
        SameRest(a[..|a| - 1], b[..|b| - 1], m);
        OneListOfPlaces(a[..|a| - 1], b[..|b| - 1], m);
      } else {
        OneListOfPlaces(a, b, m);
      }
    }
  }
}
