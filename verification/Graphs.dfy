/** Dependency graphs that are built front to back: a node's dependencies come before it. */
module Graphs {
  /** The dependencies of each node. */
  type Graph = seq<seq<nat>>

  function Elements(s: seq<nat>): (elements: set<nat>)
    ensures forall i :: i in elements <==> i in s
  {
    set i | i in s
  }

  ghost predicate Topological(g: Graph)
  {
    forall i, k :: 0 <= i < |g| && 0 <= k < |g[i]| ==> g[i][k] < i
  }

  /** i is j, or one of its ancestors. */
  ghost predicate Precedes(g: Graph, i: nat, j: nat)
    decreases j
  {
    j < |g| && (i == j || exists k :: 0 <= k < |g[j]| && g[j][k] < j && Precedes(g, i, g[j][k]))
  }

  lemma DependsDirectly(g: Graph, i: nat, j: nat)
    requires j < |g| && i in g[j] && i < j
    ensures Precedes(g, i, j)
  {
    var k :| 0 <= k < |g[j]| && g[j][k] == i;
    assert Precedes(g, i, g[j][k]);
  }

  lemma {:induction false} PrecedesTrans(g: Graph, a: nat, b: nat, c: nat)
    requires Precedes(g, a, b) && Precedes(g, b, c)
    ensures Precedes(g, a, c)
    decreases c
  {
    if b != c {
      var k :| 0 <= k < |g[c]| && g[c][k] < c && Precedes(g, b, g[c][k]);
      PrecedesTrans(g, a, b, g[c][k]);
    }
  }

  /** New nodes do not change who precedes an old one. */
  lemma {:induction false} PrecedesAppend(g: Graph, more: Graph, i: nat, j: nat)
    requires j < |g|
    ensures Precedes(g + more, i, j) <==> Precedes(g, i, j)
    decreases j
  {
    var longer := g + more;
    assert longer[j] == g[j];
    if i != j {
      forall k | 0 <= k < |g[j]| && g[j][k] < j ensures Precedes(longer, i, g[j][k]) <==> Precedes(g, i, g[j][k]) {
        PrecedesAppend(g, more, i, g[j][k]);
      }
    }
  }

  /** A node without successors, among the first n. */
  ghost predicate Waited(g: Graph, i: nat)
  {
    exists j :: i < j < |g| && i in g[j]
  }

  /** Every node that nobody waits for is listed. */
  ghost predicate OpenEnds(g: Graph, open: set<nat>)
  {
    && Topological(g) && (forall i :: i in open ==> i < |g|)
    && forall i: nat :: i < |g| && i !in open ==> Waited(g, i)
  }

  lemma NoEnds()
    ensures OpenEnds([], {})
  {
  }

  /** Adding a node closes its dependencies. */
  lemma Extended(g: Graph, open: set<nat>, deps: seq<nat>)
    requires OpenEnds(g, open) && forall k :: 0 <= k < |deps| ==> deps[k] < |g|
    ensures OpenEnds(g + [deps], (open - Elements(deps)) + {|g|})
  {
    var longer := g + [deps];
    forall i: nat | i < |longer| && i !in (open - Elements(deps)) + {|g|} ensures Waited(longer, i) {
      if i in deps {
        assert i in longer[|g|];
      } else {
        assert Waited(g, i);
        var j :| i < j < |g| && i in g[j];
        assert i in longer[j];
      }
    }
  }

  /** If only the last node has no successor, every node precedes it. */
  lemma {:induction false} SingleEnd(g: Graph, i: nat)
    requires g != [] && OpenEnds(g, {|g| - 1}) && i < |g|
    ensures Precedes(g, i, |g| - 1)
    decreases |g| - i
  {
    if i < |g| - 1 {
      assert Waited(g, i);
      var j :| i < j < |g| && i in g[j];
      DependsDirectly(g, i, j);
      SingleEnd(g, j);
      PrecedesTrans(g, i, j, |g| - 1);
    }
  }

  /** Every node is the last one or an ancestor of it. */
  ghost predicate AllPrecede(g: Graph, last: nat)
  {
    forall i: nat :: i < |g| ==> Precedes(g, i, last)
  }
}
