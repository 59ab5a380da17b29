/** The critical wave of attention CTAs: each task goes to the slot that is free first. */
module ListScheduling {
  function Sum(s: seq<nat>): (sum: nat)
  {
    if s == [] then 0 else Sum(s[..|s| - 1]) + s[|s| - 1]
  }

  ghost predicate Bounds(s: seq<nat>, most: nat)
  {
    forall i :: 0 <= i < |s| ==> s[i] <= most
  }

  lemma {:induction false} SumUpdate(s: seq<nat>, at: nat, value: nat)
    requires at < |s|
    ensures Sum(s[at := value]) == Sum(s) - s[at] + value && Sum(s) >= s[at]
  {
    var front, last := s[..|s| - 1], s[|s| - 1];
    var t := s[at := value];
    if at == |s| - 1 {
      assert t[..|s| - 1] == front;
    } else {
      assert t[..|s| - 1] == front[at := value];
      SumUpdate(front, at, value);
    }
  }

  lemma {:induction false} SumBounds(s: seq<nat>, least: nat, most: nat)
    requires forall i :: 0 <= i < |s| ==> least <= s[i] <= most
    ensures |s| * least <= Sum(s) <= |s| * most
  {
    if s != [] {
      var front := s[..|s| - 1];
      SumBounds(front, least, most);
      assert |s| * least == |front| * least + least && |s| * most == |front| * most + most;
    } else {
      assert 0 * least == 0 && 0 * most == 0;
    }
  }

  /** What an assignment of tasks to slots puts on one slot. */
  ghost function Load(tasks: seq<nat>, slotOf: seq<nat>, slot: nat): nat
    requires |tasks| == |slotOf|
  {
    if tasks == [] then 0
    else Load(tasks[..|tasks| - 1], slotOf[..|slotOf| - 1], slot)
         + (if slotOf[|slotOf| - 1] == slot then tasks[|tasks| - 1] else 0)
  }

  ghost predicate Assigns(slotOf: seq<nat>, slots: nat)
  {
    forall i :: 0 <= i < |slotOf| ==> slotOf[i] < slots
  }

  ghost predicate Realizes(tasks: seq<nat>, slotOf: seq<nat>, loads: seq<nat>)
  {
    |tasks| == |slotOf| && Assigns(slotOf, |loads|) && forall s :: 0 <= s < |loads| ==> loads[s] == Load(tasks, slotOf, s)
  }

  /** No work is lost: the loads of any assignment sum to the tasks. */
  lemma {:induction false} RealizesSum(tasks: seq<nat>, slotOf: seq<nat>, loads: seq<nat>)
    requires Realizes(tasks, slotOf, loads)
    ensures Sum(loads) == Sum(tasks)
  {
    if tasks == [] {
      AllZero(loads);
    } else {
      var n := |tasks| - 1;
      var at, cost := slotOf[n], tasks[n];
      assert Load(tasks, slotOf, at) == Load(tasks[..n], slotOf[..n], at) + cost;
      var before := loads[at := loads[at] - cost];
      SumUpdate(loads, at, loads[at] - cost);
      RealizesSum(tasks[..n], slotOf[..n], before);
    }
  }

  lemma {:induction false} AllZero(s: seq<nat>)
    requires forall i :: 0 <= i < |s| ==> s[i] == 0
    ensures Sum(s) == 0
  {
    if s != [] {
      AllZero(s[..|s| - 1]);
    }
  }

  /** A slot's load is at least each task assigned to it. */
  lemma {:induction false} LoadCovers(tasks: seq<nat>, slotOf: seq<nat>, i: nat)
    requires |tasks| == |slotOf| && i < |tasks|
    ensures Load(tasks, slotOf, slotOf[i]) >= tasks[i]
  {
    if i < |tasks| - 1 {
      LoadCovers(tasks[..|tasks| - 1], slotOf[..|slotOf| - 1], i);
    }
  }

  /** The loop's invariant: every load is at most the average plus all but one share of a task. */
  ghost predicate Balanced(loads: seq<nat>, longest: nat)
  {
    forall s :: 0 <= s < |loads| ==> |loads| * loads[s] <= Sum(loads) + (|loads| - 1) * longest
  }

  lemma BalancedStep(loads: seq<nat>, at: nat, cost: nat, longest: nat)
    requires at < |loads| && cost <= longest && Balanced(loads, longest)
    requires forall s :: 0 <= s < |loads| ==> loads[at] <= loads[s]
    ensures Balanced(loads[at := loads[at] + cost], longest)
  {
    var n := |loads|;
    var after := loads[at := loads[at] + cost];
    SumUpdate(loads, at, loads[at] + cost);
    LeastBelowAverage(loads, at);
    Shares(n, loads[at], cost, longest);
    forall s | 0 <= s < n ensures n * after[s] <= Sum(after) + (n - 1) * longest {
      if s != at {
        assert n * loads[s] <= Sum(loads) + (n - 1) * longest;
      }
    }
  }

  lemma {:induction false} LeastBelowAverage(loads: seq<nat>, at: nat)
    requires at < |loads| && forall s :: 0 <= s < |loads| ==> loads[at] <= loads[s]
    ensures |loads| * loads[at] <= Sum(loads)
  {
    var most := Greatest(loads);
    SumBounds(loads, loads[at], most);
  }

  ghost function Greatest(s: seq<nat>): (most: nat)
    ensures Bounds(s, most)
    ensures s != [] ==> most in s
  {
    if s == [] then 0
    else
      var most := Greatest(s[..|s| - 1]);
      if most < s[|s| - 1] || |s| == 1 then s[|s| - 1] else most
  }

  lemma Shares(n: nat, load: nat, cost: nat, longest: nat)
    requires n > 0 && cost <= longest
    ensures n * (load + cost) <= n * load + cost + (n - 1) * longest
  {
    Spread(n, load, cost);
    Wider(n - 1, cost, longest);
  }

  lemma Spread(n: nat, load: nat, cost: nat)
    requires n > 0
    ensures n * (load + cost) == n * load + cost + (n - 1) * cost
  {
    assert n * (load + cost) == n * load + n * cost;
    assert n * cost == (n - 1) * cost + cost;
  }

  method Earliest(loads: seq<nat>) returns (at: nat)
    requires loads != []
    ensures at < |loads| && forall s :: 0 <= s < |loads| ==> loads[at] <= loads[s]
  {
    at := 0;
    for s := 1 to |loads|
      invariant at < |loads| && forall t :: 0 <= t < s ==> loads[at] <= loads[t]
    {
      if loads[s] < loads[at] {
        at := s;
      }
    }
  }

  /** Each task in turn goes to the slot with the least load.  The result is an assignment of the
      tasks, and its longest load is close to the average. */
  method ListSchedule(tasks: seq<nat>, slots: nat) returns (loads: seq<nat>, ghost slotOf: seq<nat>)
    requires slots > 0
    ensures |loads| == slots && Realizes(tasks, slotOf, loads)
    ensures forall longest: nat :: Bounds(tasks, longest) ==> Balanced(loads, longest)
  {
    hide Balanced, Realizes;
    loads, slotOf := seq(slots, _ => 0), [];
    ghost var longest := Greatest(tasks);
    NoTasks(slots, longest);
    assert tasks[..0] == [];
    for i := 0 to |tasks|
      invariant |loads| == slots && Realizes(tasks[..i], slotOf, loads) && Balanced(loads, longest)
    {
      var at := Earliest(loads);
      BalancedStep(loads, at, tasks[i], longest);
      RealizesStep(tasks, i, slotOf, loads, at);
      loads := loads[at := loads[at] + tasks[i]];
      slotOf := slotOf + [at];
    }
    assert tasks[..|tasks|] == tasks;
    forall other: nat | Bounds(tasks, other) ensures Balanced(loads, other) {
      Looser(tasks, loads, slotOf, longest, other);
    }
  }

  lemma NoTasks(slots: nat, longest: nat)
    requires slots > 0
    ensures Realizes([], [], seq(slots, _ => 0)) && Balanced(seq(slots, _ => 0), longest)
  {
    AllZero(seq(slots, _ => 0));
    assert (slots - 1) * longest >= 0;
  }

  lemma RealizesStep(tasks: seq<nat>, i: nat, slotOf: seq<nat>, loads: seq<nat>, at: nat)
    requires i < |tasks| && Realizes(tasks[..i], slotOf, loads) && at < |loads|
    ensures Realizes(tasks[..i + 1], slotOf + [at], loads[at := loads[at] + tasks[i]])
  {
    var longer := slotOf + [at];
    assert tasks[..i + 1][..i] == tasks[..i] && longer[..i] == slotOf;
  }

  lemma Looser(tasks: seq<nat>, loads: seq<nat>, slotOf: seq<nat>, longest: nat, other: nat)
    requires Balanced(loads, longest) && longest == Greatest(tasks) && Bounds(tasks, other) && |loads| > 0
    ensures Balanced(loads, other)
  {
    hide Sum;
    Wider(|loads| - 1, longest, other);
    var spread, allowed := (|loads| - 1) * longest, (|loads| - 1) * other;
    forall s | 0 <= s < |loads| ensures |loads| * loads[s] <= Sum(loads) + allowed {
      assert |loads| * loads[s] <= Sum(loads) + spread;
    }
  }

  lemma Wider(n: nat, a: nat, b: nat)
    requires a <= b
    ensures n * a <= n * b
  {
  }

  lemma TwiceLessOne(n: nat, makespan: nat)
    requires n > 0
    ensures n * makespan + (n - 1) * makespan == (2 * n - 1) * makespan
  {
  }

  /** The schedule against any other: its longest load, times the slots, lies between the total
      work and 2 slots - 1 times the makespan of any assignment of the same tasks. */
  lemma WithinTwice(tasks: seq<nat>, loads: seq<nat>, slotOf: seq<nat>, others: seq<nat>, otherSlotOf: seq<nat>, most: nat, makespan: nat)
    requires loads != [] && |others| == |loads| && Realizes(tasks, slotOf, loads) && Realizes(tasks, otherSlotOf, others)
    requires forall longest: nat :: Bounds(tasks, longest) ==> Balanced(loads, longest)
    requires Bounds(loads, most) && most in loads && Bounds(others, makespan)
    ensures Sum(tasks) <= |loads| * most
    ensures forall longest: nat :: Bounds(tasks, longest) ==> |loads| * most <= Sum(tasks) + (|loads| - 1) * longest
    ensures |loads| * most <= (2 * |loads| - 1) * makespan
  {
    RealizesSum(tasks, slotOf, loads);
    RealizesSum(tasks, otherSlotOf, others);
    SumBounds(loads, 0, most);
    SumBounds(others, 0, makespan);
    forall i | 0 <= i < |tasks| ensures tasks[i] <= makespan {
      LoadCovers(tasks, otherSlotOf, i);
      assert others[otherSlotOf[i]] <= makespan;
    }
    assert Bounds(tasks, makespan) && Balanced(loads, makespan);
    hide Sum, Load;
    TwiceLessOne(|loads|, makespan);
  }
}
