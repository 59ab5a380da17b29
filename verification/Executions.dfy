/** Executing a dependency graph in any admissible order. */
module Executions {
  import opened Graphs

  /** Every node comes once, behind its dependencies. */
  ghost predicate Respects(g: Graph, order: seq<nat>)
  {
    && |order| == |g|
    && (forall a, b :: 0 <= a < b < |order| ==> order[a] != order[b])
    && (forall a :: 0 <= a < |order| ==> order[a] < |g|)
    && (forall i: nat :: i < |g| ==> i in order)
    && forall a, d :: 0 <= a < |order| && d in g[order[a]] ==> d in order[..a]
  }

  /** Where a node comes. */
  ghost function Turn(g: Graph, order: seq<nat>, i: nat): (k: nat)
    requires Respects(g, order) && i < |g|
    ensures k < |order| && order[k] == i
  {
    assert i in order;
    var k: nat :| k < |order| && order[k] == i;
    k
  }

  lemma TurnIs(g: Graph, order: seq<nat>, k: nat)
    requires Respects(g, order) && k < |order|
    ensures Turn(g, order, order[k]) == k
  {
  }

  lemma {:induction false} AncestorsFirst(g: Graph, order: seq<nat>, i: nat, j: nat)
    requires Respects(g, order) && Precedes(g, i, j) && Topological(g)
    ensures i < |g| && (i != j ==> Turn(g, order, i) < Turn(g, order, j))
    decreases j
  {
    if i != j {
      var k :| 0 <= k < |g[j]| && g[j][k] < j && Precedes(g, i, g[j][k]);
      var d := g[j][k];
      AncestorsFirst(g, order, i, d);
      var a := Turn(g, order, j);
      assert d in order[..a];
      var b: nat :| b < a && order[b] == d;
      TurnIs(g, order, b);
    }
  }

  // --------------------------------------------------------------- programs

  /** What each node reads and writes, and the values it writes given those it reads. */
  datatype Program<!L(!new), !V(!new)> = Program(
    inputs: nat -> set<L>, outputs: nat -> set<L>, result: (nat, L, map<L, V>) -> V, initial: L -> V)

  /** The content of a location once the first k nodes of the order are executed. */
  ghost function Content<L(!new), V(!new)>(p: Program<L, V>, order: seq<nat>, k: nat, location: L): V
    requires k <= |order|
    decreases k, 0
  {
    if k == 0 then p.initial(location)
    else if location in p.outputs(order[k - 1]) then p.result(order[k - 1], location, View(p, order, k - 1))
    else Content(p, order, k - 1, location)
  }

  /** What the node at place k of the order reads. */
  ghost function View<L(!new), V(!new)>(p: Program<L, V>, order: seq<nat>, k: nat): map<L, V>
    requires k < |order|
    decreases k, 1
  {
    map location | location in p.inputs(order[k]) :: Content(p, order, k, location)
  }

  /** One of them writes what the other reads or writes. */
  ghost predicate Conflict<L(!new), V(!new)>(p: Program<L, V>, i: nat, j: nat, location: L)
  {
    || (location in p.outputs(i) && (location in p.inputs(j) || location in p.outputs(j)))
    || (location in p.inputs(i) && location in p.outputs(j))
  }

  /** Whoever conflicts is ordered by the graph. */
  ghost predicate Determined<L(!new), V(!new)>(g: Graph, p: Program<L, V>)
  {
    forall i: nat, j: nat, location: L :: i < j < |g| && Conflict(p, i, j, location) ==> Precedes(g, i, j)
  }

  /** The last writer of a location among the first k nodes of the order. */
  ghost predicate Latest<L(!new), V(!new)>(p: Program<L, V>, order: seq<nat>, k: nat, location: L, m: nat)
    requires k <= |order|
  {
    m < k && location in p.outputs(order[m]) && forall a :: m < a < k ==> location !in p.outputs(order[a])
  }

  ghost predicate Unwritten<L(!new), V(!new)>(p: Program<L, V>, order: seq<nat>, k: nat, location: L)
    requires k <= |order|
  {
    forall a :: 0 <= a < k ==> location !in p.outputs(order[a])
  }

  /** The place of the last writer, if there is one. */
  ghost function Writer<L(!new), V(!new)>(p: Program<L, V>, order: seq<nat>, k: nat, location: L): (m: int)
    requires k <= |order|
    ensures -1 <= m < k
    ensures if m < 0 then Unwritten(p, order, k, location) else Latest(p, order, k, location, m)
  {
    if k == 0 then -1 else if location in p.outputs(order[k - 1]) then k - 1 else Writer(p, order, k - 1, location)
  }

  lemma WriterIs<L(!new), V(!new)>(p: Program<L, V>, order: seq<nat>, k: nat, location: L, m: nat)
    requires k <= |order| && Latest(p, order, k, location, m)
    ensures Writer(p, order, k, location) == m
  {
  }

  /** What is read is what the last writer wrote. */
  lemma {:induction false} ContentIs<L(!new), V(!new)>(p: Program<L, V>, order: seq<nat>, k: nat, location: L)
    requires k <= |order|
    ensures
      var m := Writer(p, order, k, location);
      Content(p, order, k, location) == if m < 0 then p.initial(location) else p.result(order[m], location, View(p, order, m))
  {
    if k > 0 && location !in p.outputs(order[k - 1]) {
      ContentIs(p, order, k - 1, location);
    }
  }

  /** The order in which the nodes were emitted. */
  ghost function Emitted(n: nat): (order: seq<nat>)
    ensures |order| == n && forall i :: 0 <= i < n ==> order[i] == i
  {
    seq(n, i requires 0 <= i < n => i)
  }

  /** A node that conflicts on the location is done before t exactly if it was emitted before t. */
  lemma SameSide<L(!new), V(!new)>(g: Graph, p: Program<L, V>, order: seq<nat>, i: nat, t: nat, location: L)
    requires Respects(g, order) && Topological(g) && Determined(g, p) && i < |g| && t < |g| && i != t
    requires Conflict(p, i, t, location) && Conflict(p, t, i, location)
    ensures i < t <==> Turn(g, order, i) < Turn(g, order, t)
  {
    if i < t {
      AncestorsFirst(g, order, i, t);
    } else {
      AncestorsFirst(g, order, t, i);
    }
  }

  /** A reader's last writer is the same in any admissible order as in the order of emission. */
  lemma SameWriter<L(!new), V(!new)>(g: Graph, p: Program<L, V>, order: seq<nat>, t: nat, location: L, m: nat)
    requires Respects(g, order) && Topological(g) && Determined(g, p) && t < |g| && location in p.inputs(t)
    requires Latest(p, order, Turn(g, order, t), location, m)
    ensures order[m] < t && Latest(p, Emitted(|g|), t, location, order[m])
  {
    var w, k := order[m], Turn(g, order, t);
    TurnIs(g, order, m);
    SameSide(g, p, order, w, t, location);
    forall a: nat | w < a < t ensures location !in p.outputs(a) {
      if location in p.outputs(a) {
        SameSide(g, p, order, a, t, location);
        SameSide(g, p, order, w, a, location);
        assert false;
      }
    }
  }

  lemma SameUnwritten<L(!new), V(!new)>(g: Graph, p: Program<L, V>, order: seq<nat>, t: nat, location: L)
    requires Respects(g, order) && Topological(g) && Determined(g, p) && t < |g| && location in p.inputs(t)
    requires Unwritten(p, order, Turn(g, order, t), location)
    ensures Unwritten(p, Emitted(|g|), t, location)
  {
    forall a: nat | a < t ensures location !in p.outputs(a) {
      if location in p.outputs(a) {
        SameSide(g, p, order, a, t, location);
        assert false;
      }
    }
  }

  /** Every node reads the same values, whichever admissible order the nodes are executed in. */
  lemma {:induction false} SameView<L(!new), V(!new)>(g: Graph, p: Program<L, V>, order: seq<nat>, t: nat)
    requires Respects(g, order) && Topological(g) && Determined(g, p) && t < |g|
    ensures View(p, order, Turn(g, order, t)) == View(p, Emitted(|g|), t)
    decreases t
  {
    var k, emitted := Turn(g, order, t), Emitted(|g|);
    forall location | location in p.inputs(t) ensures Content(p, order, k, location) == Content(p, emitted, t, location) {
      ContentIs(p, order, k, location);
      ContentIs(p, emitted, t, location);
      var m := Writer(p, order, k, location);
      if m < 0 {
        SameUnwritten(g, p, order, t, location);
      } else {
        SameWriter(g, p, order, t, location, m);
        TurnIs(g, order, m);
        WriterIs(p, emitted, t, location, order[m]);
        SameView(g, p, order, order[m]);
      }
    }
  }

  /** And memory ends up the same. */
  lemma SameMemory<L(!new), V(!new)>(g: Graph, p: Program<L, V>, order: seq<nat>, location: L)
    requires Respects(g, order) && Topological(g) && Determined(g, p)
    ensures Content(p, order, |g|, location) == Content(p, Emitted(|g|), |g|, location)
  {
    var emitted := Emitted(|g|);
    ContentIs(p, order, |g|, location);
    ContentIs(p, emitted, |g|, location);
    var m := Writer(p, order, |g|, location);
    if m < 0 {
      forall a: nat | a < |g| ensures location !in p.outputs(a) {
        assert order[Turn(g, order, a)] == a;
      }
    } else {
      LastWriterSame(g, p, order, location, m);
      TurnIs(g, order, m);
      WriterIs(p, emitted, |g|, location, order[m]);
      SameView(g, p, order, order[m]);
    }
  }

  lemma LastWriterSame<L(!new), V(!new)>(g: Graph, p: Program<L, V>, order: seq<nat>, location: L, m: nat)
    requires Respects(g, order) && Topological(g) && Determined(g, p) && Latest(p, order, |g|, location, m)
    ensures Latest(p, Emitted(|g|), |g|, location, order[m])
  {
    TurnIs(g, order, m);
    forall a: nat | order[m] < a < |g| ensures location !in p.outputs(a) {
      var b := Turn(g, order, a);
      if location in p.outputs(a) {
        SameSide(g, p, order, order[m], a, location);
        assert false;
      }
    }
  }
}
