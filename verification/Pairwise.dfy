/** Lists that are read item by item. */
module Pairwise {
  import opened Wrappers

  /** Item for item, in order. */
  ghost predicate Each<A, B>(items: seq<A>, results: seq<B>, agree: (A, B) -> bool) {
    |results| == |items| && forall i | 0 <= i < |items| :: agree(items[i], results[i])
  }

  lemma EachLast<A, B>(items: seq<A>, results: seq<B>, agree: (A, B) -> bool)
    requires items != [] && results != []
    ensures var (m, n) := (|items| - 1, |results| - 1);
            Each(items, results, agree) <==> Each(items[..m], results[..n], agree) && agree(items[m], results[n])
  {
  }

  lemma EachBoth<A, B>(items: seq<A>, results: seq<B>, agree: (A, B) -> bool, both: (A, B) -> bool, ok: B -> bool)
    requires forall x, y :: both(x, y) <==> agree(x, y) && ok(y)
    ensures Each(items, results, both) <==> Each(items, results, agree) && forall y | y in results :: ok(y)
  {
    if Each(items, results, agree) && forall y | y in results :: ok(y) {
      assert forall i | 0 <= i < |results| :: results[i] in results;
    }
  }

  /** A list read up to its last item, and that item. */
  function Joined<B, E>(init: Result<seq<B>, E>, last: Result<B, E>): Result<seq<B>, E> {
    var results :- init;
    var result :- last;
    Ok(results + [result])
  }

  lemma JoinedIs<B, E>(init: Result<seq<B>, E>, last: Result<B, E>, results: seq<B>)
    requires results != []
    ensures Joined(init, last) == Ok(results)
            <==> init == Ok(results[..|results| - 1]) && last == Ok(results[|results| - 1])
  {
    assert results == results[..|results| - 1] + [results[|results| - 1]];
  }
}
