/** `list.sort(key=lambda item: (-score, name))`. */
module Ranking {
  import opened Text

  datatype Ranked<T> = Ranked(score: int, name: string, item: T)

  predicate Before<T>(a: Ranked<T>, b: Ranked<T>) {
    a.score > b.score || (a.score == b.score && LexLeq(a.name, b.name))
  }

  ghost predicate IsSorted<T>(s: seq<Ranked<T>>) {
    forall i, j | 0 <= i < j < |s| :: Before(s[i], s[j])
  }

  function Insert<T>(x: Ranked<T>, s: seq<Ranked<T>>): seq<Ranked<T>> {
    if s == [] then [x]
    else if Before(s[0], x) then [s[0]] + Insert(x, s[1..])
    else [x] + s
  }

  function Sort<T>(s: seq<Ranked<T>>): seq<Ranked<T>> {
    if s == [] then [] else Insert(s[|s| - 1], Sort(s[..|s| - 1]))
  }

  lemma {:induction false} InsertKeepsItems<T>(x: Ranked<T>, s: seq<Ranked<T>>)
    ensures multiset(Insert(x, s)) == multiset(s) + multiset{x} && |Insert(x, s)| == |s| + 1
  {
    if s != [] {
      assert s == [s[0]] + s[1..];
      if Before(s[0], x) {
        InsertKeepsItems(x, s[1..]);
      }
    }
  }

  lemma BeforeAll<T>(x: Ranked<T>, s: seq<Ranked<T>>)
    requires IsSorted(s) && s != [] && !Before(s[0], x)
    ensures forall i | 0 <= i < |s| :: Before(x, s[i])
  {
    LexTotal(s[0].name, x.name);
    forall i | 0 <= i < |s|
      ensures Before(x, s[i])
    {
      if x.score == s[0].score == s[i].score && i > 0 {
        LexTransitive(x.name, s[0].name, s[i].name);
      }
    }
  }

  lemma {:induction false} InsertKeepsSorted<T>(x: Ranked<T>, s: seq<Ranked<T>>)
    requires IsSorted(s)
    ensures IsSorted(Insert(x, s))
  {
    if s != [] {
      if Before(s[0], x) {
        InsertKeepsSorted(x, s[1..]);
        InsertKeepsItems(x, s[1..]);
        var r := Insert(x, s[1..]);
        forall y | y in r
          ensures Before(s[0], y)
        {
          assert y in multiset(r);
        }
      } else {
        BeforeAll(x, s);
      }
    }
  }

  lemma {:induction false} SortKeepsItems<T>(s: seq<Ranked<T>>)
    ensures IsSorted(Sort(s)) && multiset(Sort(s)) == multiset(s) && |Sort(s)| == |s|
    decreases |s|
  {
    if s != [] {
      SortKeepsItems(s[..|s| - 1]);
      InsertKeepsSorted(s[|s| - 1], Sort(s[..|s| - 1]));
      InsertKeepsItems(s[|s| - 1], Sort(s[..|s| - 1]));
      assert s == s[..|s| - 1] + [s[|s| - 1]];
    }
  }

  lemma SameMembers<T>(a: seq<T>, b: seq<T>)
    requires multiset(a) == multiset(b)
    ensures forall x :: x in a <==> x in b
  {
    assert forall x :: x in a <==> x in multiset(a);
    assert forall x :: x in b <==> x in multiset(b);
  }

  /** Sorting orders by score and then name, and neither loses nor invents an item. */
  lemma SortFacts<T>(s: seq<Ranked<T>>)
    ensures IsSorted(Sort(s)) && multiset(Sort(s)) == multiset(s) && |Sort(s)| == |s|
    ensures forall x :: x in Sort(s) <==> x in s
    ensures s != [] ==> forall x | x in s :: x.score <= Sort(s)[0].score
  {
    SortKeepsItems(s);
    SameMembers(Sort(s), s);
    forall x | x in s
      ensures x.score <= Sort(s)[0].score
    {
      var i :| 0 <= i < |Sort(s)| && Sort(s)[i] == x;
    }
  }
}
