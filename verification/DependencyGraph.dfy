/** Depth-first cycle detection over a dependency graph of any size. */
module DependencyGraph {

  type Graph = map<string, set<string>>

  /** `dependencies.get(node, ())`. */
  function Deps(g: Graph, n: string): set<string> {
    if n in g then g[n] else {}
  }

  function Nodes(g: Graph): set<string> {
    g.Keys + set n, d | n in g && d in g[n] :: d
  }

  /** Every dependency ranks below its dependent: an execution order in waves. */
  ghost predicate IsRank(g: Graph, rank: map<string, nat>) {
    forall n, d | n in g && d in g[n] :: n in rank && d in rank && rank[d] < rank[n]
  }

  ghost predicate HasRank(g: Graph) {
    exists rank: map<string, nat> :: IsRank(g, rank)
  }

  ghost predicate IsWalk(g: Graph, p: seq<string>) {
    forall i | 0 <= i < |p| - 1 :: p[i + 1] in Deps(g, p[i])
  }

  ghost predicate IsCycle(g: Graph, p: seq<string>) {
    |p| >= 2 && IsWalk(g, p) && p[0] == p[|p| - 1]
  }

  ghost predicate HasCycle(g: Graph) {
    exists p: seq<string> :: IsCycle(g, p)
  }

  lemma {:induction false} RankFallsAlongWalk(g: Graph, rank: map<string, nat>, p: seq<string>)
    requires IsRank(g, rank) && IsWalk(g, p) && |p| >= 2
    ensures p[0] in rank && p[|p| - 1] in rank && rank[p[|p| - 1]] < rank[p[0]]
    decreases |p|
  {
    var last := |p| - 1;
    assert p[last - 1 + 1] in Deps(g, p[last - 1]);
    var n, d := p[last - 1], p[last];
    assert n in g && d in g[n];
    assert rank[d] < rank[n];
    if |p| > 2 {
      RankFallsAlongWalk(g, rank, p[..last]);
    }
  }

  lemma RankOf(g: Graph) returns (rank: map<string, nat>)
    requires HasRank(g)
    ensures IsRank(g, rank)
  {
    rank :| IsRank(g, rank);
  }

  ghost predicate RankedAt(g: Graph, rank: map<string, nat>, node: string)
    requires node in rank
  {
    forall d | d in Deps(g, node) :: d in rank && rank[d] < rank[node]
  }

  /** The nodes finished so far, ranked in the order in which they finished. */
  ghost predicate Ranked(g: Graph, rank: map<string, nat>, height: nat) {
    forall n | n in rank :: rank[n] < height && RankedAt(g, rank, n)
  }

  lemma RankedGraph(g: Graph, rank: map<string, nat>, height: nat)
    requires Ranked(g, rank, height) && g.Keys <= rank.Keys
    ensures IsRank(g, rank)
  {
    forall n, d | n in g && d in g[n]
      ensures n in rank && d in rank && rank[d] < rank[n]
    {
      assert RankedAt(g, rank, n) && d in Deps(g, n);
    }
  }

  /** A ranked graph has no cyclic path. */
  lemma RankedHasNoCycle(g: Graph)
    requires HasRank(g)
    ensures !HasCycle(g)
  {
    var rank: map<string, nat> :| IsRank(g, rank);
    forall p: seq<string> | IsCycle(g, p)
      ensures false
    {
      RankFallsAlongWalk(g, rank, p);
    }
  }

  class CycleCheck {
    const g: Graph
    var visiting: set<string>
    var visited: set<string>
    ghost var stack: seq<string>         // visiting, in the order of entry
    ghost var rank: map<string, nat>     // visited, numbered in the order of exit
    ghost var height: nat                // the next number

    constructor (g: Graph)
      ensures this.g == g && Valid() && stack == [] && visited == {}
    {
      this.g := g;
      visiting, visited, stack, rank, height := {}, {}, [], map[], 0;
    }

    ghost predicate Valid()
      reads this
    {
      && (forall n :: n in visiting <==> n in stack)
      && IsWalk(g, stack)
      && visiting !! visited
      && rank.Keys == visited && Ranked(g, rank, height)
    }

    /** The node may be entered from the node on top of the stack. */
    ghost predicate Reachable(node: string)
      reads this
    {
      node in Nodes(g) && (stack != [] ==> node in Deps(g, stack[|stack| - 1]))
    }

    lemma BackEdgeClosesCycle(node: string)
      requires Valid() && Reachable(node) && node in visiting
      ensures HasCycle(g)
    {
      var i :| 0 <= i < |stack| && stack[i] == node;
      var p := stack[i..] + [node];
      forall k | 0 <= k < |p| - 1
        ensures p[k + 1] in Deps(g, p[k])
      {
        if k < |p| - 2 {
          assert stack[i + k + 1] in Deps(g, stack[i + k]);
        }
      }
      assert IsCycle(g, p);
    }

    /** `visiting.add(node)`. */
    method Enter(node: string)
      requires Valid() && Reachable(node) && node !in visiting && node !in visited
      modifies this`visiting, this`stack
      ensures Valid() && visiting == old(visiting) + {node} && stack == old(stack) + [node]
    {
      visiting := visiting + {node};
      stack := stack + [node];
      forall i | 0 <= i < |stack| - 1
        ensures stack[i + 1] in Deps(g, stack[i])
      {
        if i + 1 < |old(stack)| {
          assert old(stack)[i + 1] in Deps(g, old(stack)[i]);
        }
      }
    }

    /** `visiting.remove(node)` and `visited.add(node)`. */
    method Leave(node: string)
      requires Valid() && stack != [] && stack[|stack| - 1] == node && node !in stack[..|stack| - 1]
      requires Deps(g, node) <= visited
      modifies this`visiting, this`visited, this`stack, this`rank, this`height
      ensures Valid() && visiting == old(visiting) - {node} && stack == old(stack)[..|old(stack)| - 1]
      ensures visited == old(visited) + {node}
    {
      assert stack == stack[..|stack| - 1] + [node] && node !in visited;
      visiting := visiting - {node};
      stack := stack[..|stack| - 1];
      rank, height := rank[node := height], height + 1;
      visited := visited + {node};
    }

    /** The recursive visit: a false result means a cycle was met. */
    method Visit(node: string) returns (ok: bool)
      requires Valid() && Reachable(node)
      modifies this`visiting, this`visited, this`stack, this`rank, this`height
      decreases Nodes(g) - visiting - visited
      ensures ok ==> Valid() && visiting == old(visiting) && stack == old(stack)
                     && old(visited) + {node} <= visited
      ensures !ok ==> HasCycle(g)
    {
      if node in visiting {
        BackEdgeClosesCycle(node);
        return false;
      }
      if node in visited {
        return true;
      }
      Enter(node);
      var todo := Deps(g, node);
      while todo != {}
        invariant Valid()
        invariant visiting == old(visiting) + {node} && stack == old(stack) + [node]
        invariant old(visited) <= visited
        invariant todo <= Deps(g, node) && Deps(g, node) - todo <= visited
        decreases todo
      {
        var dependency :| dependency in todo;
        todo := todo - {dependency};
        assert node in Nodes(g) - old(visiting) - old(visited);
        ok := Visit(dependency);
        if !ok {
          return;
        }
      }
      Leave(node);
      ok := true;
    }
  }

  /**
   `_assert_acyclic`: accepts exactly the graphs that can be ranked, which are exactly the
   graphs without a cyclic path.
   */
  method AssertAcyclic(g: Graph) returns (ok: bool)
    ensures ok <==> HasRank(g)
    ensures ok <==> !HasCycle(g)
  {
    var check := new CycleCheck(g);
    var todo := g.Keys;
    while todo != {}
      invariant check.g == g && check.Valid() && check.stack == []
      invariant todo <= g.Keys && g.Keys - todo <= check.visited
      decreases todo
    {
      var node :| node in todo;
      todo := todo - {node};
      ok := check.Visit(node);
      if !ok {
        if HasRank(g) {
          RankedHasNoCycle(g);
        }
        return;
      }
    }
    RankedGraph(g, check.rank, check.height);
    RankedHasNoCycle(g);
    ok := true;
  }
}
