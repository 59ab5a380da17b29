/** Copies of neighbouring blocks merged into runs. */
module BlockRuns {
  /** The block at `source` moves to `target`. */
  datatype Pair = Pair(source: nat, target: nat)

  /** Blocks source, source+1, … move to target, target+1, …. */
  datatype Run = Run(source: nat, target: nat, count: nat)
  {
    predicate Continues(p: Pair)
    {
      source + count == p.source && target + count == p.target
    }

    function Pairs(): (pairs: seq<Pair>)
      ensures |pairs| == count
    {
      seq(count, i requires 0 <= i < count => Pair(source + i, target + i))
    }
  }

  /** The single-block copies that a list of runs stands for. */
  function Expanded(runs: seq<Run>): seq<Pair>
  {
    if runs == [] then [] else Expanded(runs[..|runs| - 1]) + runs[|runs| - 1].Pairs()
  }

  /** No run is empty, and none could have been appended to the one before it. */
  ghost predicate Maximal(runs: seq<Run>)
  {
    && (forall i :: 0 <= i < |runs| ==> runs[i].count > 0)
    && forall i :: 0 <= i && i + 1 < |runs| ==> !runs[i].Continues(Pair(runs[i + 1].source, runs[i + 1].target))
  }

  lemma ExpandedPush(runs: seq<Run>, run: Run)
    ensures Expanded(runs + [run]) == Expanded(runs) + run.Pairs()
  {
    assert (runs + [run])[..|runs|] == runs;
  }

  lemma ExpandedGrow(runs: seq<Run>, last: Run, p: Pair)
    requires last.Continues(p)
    ensures Expanded(runs + [last.(count := last.count + 1)]) == Expanded(runs + [last]) + [p]
  {
    ExpandedPush(runs, last);
    ExpandedPush(runs, last.(count := last.count + 1));
    assert last.(count := last.count + 1).Pairs() == last.Pairs() + [p];
  }

  /** The runs copy exactly the pairs, in their order, and are as long as they can be. */
  method MergeRuns(pairs: seq<Pair>) returns (runs: seq<Run>)
    ensures Expanded(runs) == pairs && Maximal(runs) && runs == RunsOf(pairs)
  {
    hide Expanded, Maximal, Run.Continues;
    runs := [];
    for n := 0 to |pairs|
      invariant runs == RunsOf(pairs[..n])
    {
      var p := pairs[n];
      assert pairs[..n + 1][..n] == pairs[..n];
      if runs != [] && runs[|runs| - 1].Continues(p) {
        var last := runs[|runs| - 1];
        runs := runs[..|runs| - 1] + [last.(count := last.count + 1)];
      } else {
        runs := runs + [Run(p.source, p.target, 1)];
      }
    }
    assert pairs[..|pairs|] == pairs;
    RunsOfMean(pairs);
  }

  /** The runs of a list of pairs. */
  ghost function RunsOf(pairs: seq<Pair>): seq<Run>
  {
    if pairs == [] then []
    else
      WithPair(RunsOf(pairs[..|pairs| - 1]), pairs[|pairs| - 1])
  }

  lemma {:induction false} RunsOfMean(pairs: seq<Pair>)
    ensures Expanded(RunsOf(pairs)) == pairs && Maximal(RunsOf(pairs))
  {
    if pairs != [] {
      var n := |pairs| - 1;
      RunsOfMean(pairs[..n]);
      assert pairs == pairs[..n] + [pairs[n]];
      hide Maximal, Expanded, Run.Continues;
      WithPairMeans(RunsOf(pairs[..n]), pairs[n]);
    }
  }

  /** One more pair prolongs the last run or begins one. */
  function WithPair(runs: seq<Run>, p: Pair): seq<Run>
  {
    if runs != [] && runs[|runs| - 1].Continues(p) then
      var last := runs[|runs| - 1];
      runs[..|runs| - 1] + [last.(count := last.count + 1)]
    else runs + [Run(p.source, p.target, 1)]
  }

  lemma WithPairMeans(runs: seq<Run>, p: Pair)
    requires Maximal(runs)
    ensures Expanded(WithPair(runs, p)) == Expanded(runs) + [p] && Maximal(WithPair(runs, p))
  {
    if runs != [] && runs[|runs| - 1].Continues(p) {
      var last := runs[|runs| - 1];
      assert runs == runs[..|runs| - 1] + [last];
      ExpandedGrow(runs[..|runs| - 1], last, p);
    } else {
      ExpandedPush(runs, Run(p.source, p.target, 1));
      assert Run(p.source, p.target, 1).Pairs() == [p];
    }
  }

  /** There is only one such list of runs. */
  lemma {:induction false} RunsUnique(a: seq<Run>, b: seq<Run>)
    requires Maximal(a) && Maximal(b) && Expanded(a) == Expanded(b)
    ensures a == b
    decreases |a|
  {
    ExpandedEmpty(a);
    ExpandedEmpty(b);
    if a != [] && b != [] {
      SameLast(a, b);
      Front(a);
      Front(b);
      hide Maximal, Expanded, Run.Pairs;
      RunsUnique(a[..|a| - 1], b[..|b| - 1]);
      assert a == a[..|a| - 1] + [a[|a| - 1]] && b == b[..|b| - 1] + [b[|b| - 1]];
    }
  }

  /** All runs but the last one. */
  lemma Front(runs: seq<Run>)
    requires Maximal(runs) && runs != []
    ensures Maximal(runs[..|runs| - 1])
    ensures runs[|runs| - 1].count <= |Expanded(runs)|
    ensures Expanded(runs[..|runs| - 1]) == Expanded(runs)[..|Expanded(runs)| - runs[|runs| - 1].count]
  {
  }

  lemma ExpandedEmpty(runs: seq<Run>)
    requires Maximal(runs)
    ensures Expanded(runs) == [] <==> runs == []
  {
  }

  predicate Adjacent(p: Pair, q: Pair)
  {
    p.source + 1 == q.source && p.target + 1 == q.target
  }

  /** The last run begins where the pairs stop being adjacent. */
  lemma LastRun(runs: seq<Run>)
    requires Maximal(runs) && runs != []
    ensures
      var last, whole := runs[|runs| - 1], Expanded(runs);
      var k := |whole| - last.count;
      && 0 <= k < |whole| && whole[|whole| - 1] == Pair(last.source + last.count - 1, last.target + last.count - 1)
      && (forall i :: k < i < |whole| ==> Adjacent(whole[i - 1], whole[i]))
      && (k > 0 ==> !Adjacent(whole[k - 1], whole[k]))
  {
    var last, whole, front := runs[|runs| - 1], Expanded(runs), runs[..|runs| - 1];
    var k := |whole| - last.count;
    Tail(Expanded(front), last);
    if k > 0 {
      ExpandedEmpty(front);
      assert front[|front| - 1] == runs[|runs| - 2];
      assert !runs[|runs| - 2].Continues(Pair(last.source, last.target));
      Tail(Expanded(front[..|front| - 1]), front[|front| - 1]);
    }
  }

  /** The pairs of a run at the end of a list. */
  lemma Tail(before: seq<Pair>, run: Run)
    requires run.count > 0
    ensures
      var whole := before + run.Pairs();
      var k := |before|;
      && |whole| == k + run.count && whole[k] == Pair(run.source, run.target)
      && whole[|whole| - 1] == Pair(run.source + run.count - 1, run.target + run.count - 1)
      && (forall i :: k < i < |whole| ==> Adjacent(whole[i - 1], whole[i])) && (forall i :: 0 <= i < k ==> whole[i] == before[i])
  {
    var whole, k := before + run.Pairs(), |before|;
    assert whole[k] == run.Pairs()[0] && whole[|whole| - 1] == run.Pairs()[run.count - 1];
    forall i | k < i < |whole| ensures Adjacent(whole[i - 1], whole[i]) {
      assert whole[i] == run.Pairs()[i - k] && whole[i - 1] == run.Pairs()[i - 1 - k];
    }
  }

  lemma {:induction false} SameLast(a: seq<Run>, b: seq<Run>)
    requires Maximal(a) && Maximal(b) && Expanded(a) == Expanded(b) && a != [] && b != []
    ensures a[|a| - 1] == b[|b| - 1]
  {
    LastRun(a);
    LastRun(b);
  }
}
