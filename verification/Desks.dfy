/** The scheduler's bookkeeping as a value, and what its single steps keep. */
module Desks {
  import opened PrefixKeys
  import opened PlacementSpec
  import opened KvLifecycle
  import opened KvRuns
  import opened WorldFacts
  import opened LeanPlane
  import opened Frontiers
  import opened Rosters

  datatype Desk = Desk(states: seq<RequestState>, running: seq<nat>, resumed: seq<nat>, tainted: bool)

  /** Every live request is listed once, the batch limit holds, and as long as no recompute
      has broken the recompute rule every unfinished request is on its frontier. */
  ghost predicate Seated(d: Desk, policy: Policy)
  {
    && Roster(d.states, d.running, d.resumed)
    && |d.running| <= policy.maxRequests
    && (!d.tainted ==> OnTrack(d.states))
  }

  /** Slices go to running requests; who has none yet was in an earlier batch. */
  ghost predicate Fed(d: Desk, picks: seq<Pick>)
  {
    && (forall k :: 0 <= k < |picks| ==> picks[k].index in d.running)
    && (forall i :: i in d.running && i < |d.states| ==> d.states[i].processed > 0 || Chosen(picks, i))
  }

  ghost predicate Chosen(picks: seq<Pick>, i: nat)
  {
    exists k :: 0 <= k < |picks| && picks[k].index == i
  }

  /** The desk and the plane agree while a batch is being put together. */
  ghost predicate Agrees(d: Desk, w: World, picks: seq<Pick>, batch: nat, policy: Policy)
  {
    && Seated(d, policy) && Mirrors(d.states, w) && Tracks(d.states, w.frontier, picks)
    && Picked(d.states, picks, policy) && w.reserved == Plains(picks)
    && Fed(d, picks)
    && (w.s.pendingBatch.None? || (w.s.pendingBatch == Some(batch) && picks != []))
  }

  /** Between batches nothing is reserved. */
  ghost predicate Rested(d: Desk, w: World, policy: Policy)
  {
    Agrees(d, w, [], 0, policy) && w.arriving == {}
  }

  ghost predicate Timely(d: Desk, now: nat)
  {
    forall i :: i in d.running + d.resumed && i < |d.states| ==> d.states[i].request.arrival <= now
  }

  ghost function Busy(d: Desk): set<nat>
  {
    set i | i in d.running && i < |d.states| :: d.states[i].request.id
  }

  /** No tiers, each lifetime fits the pool alone, and only running requests hold blocks. */
  ghost predicate Roomy(d: Desk, w: World, cfg: Config)
  {
    && Lean(cfg) && KnownStates(d.states) && Tidy(w.s, Busy(d))
    && forall i :: 0 <= i < |d.states| ==> FitsAlone(d.states[i].request, w.s.hot.capacity, cfg.blockTokens)
  }

  // -------------------------------------------------------------- preemption

  /** The last running request left for the front of the resumed ones, as it was or restarted. */
  ghost predicate Demoted(d: Desk, e: Desk)
  {
    && d.running != [] && d.running[|d.running| - 1] < |d.states| == |e.states|
    && var v := d.running[|d.running| - 1];
       && e.running == d.running[..|d.running| - 1] && e.resumed == [v] + d.resumed
       && (e.states[v] == d.states[v] || e.states[v] == Recomputed(d.states[v]))
       && e.states == d.states[v := e.states[v]]
       && e.tainted == (d.tainted || (e.states[v] != d.states[v] && !Restartable(d.states[v])))
  }

  lemma DemotedSeated(d: Desk, e: Desk, policy: Policy)
    requires Seated(d, policy) && Demoted(d, e)
    ensures Seated(e, policy)
    ensures forall i :: i in e.running <==> i in d.running && i != d.running[|d.running| - 1]
    ensures forall i :: i in e.running ==> i < |e.states| && e.states[i] == d.states[i]
  {
    var n := |d.running|;
    var v := d.running[n - 1];
    PreemptRoster(d.states, d.running, d.resumed, e.states[v]);
    SeatedMeans(d, policy);
    LastDropped(d.running);
    assert v in d.running + d.resumed;
    if !e.tainted {
      BoundedRestart(d.states[v]);
    }
  }

  lemma LastDropped(s: seq<nat>)
    requires Distinctive(s) && s != []
    ensures forall i :: i in s[..|s| - 1] <==> i in s && i != s[|s| - 1]
  {
    var front, last := s[..|s| - 1], s[|s| - 1];
    assert s == front + [last];
    forall k | 0 <= k < |front| ensures front[k] != last {
      assert s[k] == front[k];
    }
  }

  lemma Concatenated(a: seq<nat>, b: seq<nat>)
    requires Distinctive(a) && Distinctive(b) && forall i :: i in a ==> i !in b
    ensures Distinctive(a + b)
  {
    var all := a + b;
    forall i, j | 0 <= i < j < |all| ensures all[i] != all[j] {
      if i < |a| <= j {
        assert all[i] == a[i] && all[j] == b[j - |a|];
        assert a[i] in a && b[j - |a|] in b;
      }
    }
  }

  lemma DemotedRested(d: Desk, e: Desk, w: World, next: World, mode: PlacementSpec.Preempted, policy: Policy)
    requires Rested(d, w, policy) && Demoted(d, e) && Keeps(w, next)
    requires var v := d.running[|d.running| - 1];
      && e.states[v] == (if mode.Recompute? then Recomputed(d.states[v]) else d.states[v])
      && next.frontier == AfterPreempt(w.frontier, d.states[v].request.id, mode)
    requires next.frontier.Keys == next.s.kv.Keys
    requires next.reserved == [] && next.arriving == {} && next.s.pendingBatch == w.s.pendingBatch
    ensures Rested(e, next, policy)
  {
    hide Roster, OnTrack, Mirrors, Tracks;
    var v := d.running[|d.running| - 1];
    DemotedSeated(d, e, policy);
    SeatedMeans(d, policy);
    PreemptMirrors(d.states, w, next, v, e.states[v]);
  }

  lemma SeatedMeans(d: Desk, policy: Policy)
    requires Seated(d, policy)
    ensures KnownStates(d.states) && |d.running| <= policy.maxRequests
    ensures forall i :: i in d.running ==> i < |d.states| && Live(d.states[i])
    ensures forall i :: i in d.resumed ==> i < |d.states| && Live(d.states[i])
    ensures Distinctive(d.running) && Distinctive(d.resumed)
  {
    var all := d.running + d.resumed;
    forall i | i in d.running ensures i < |d.states| && Live(d.states[i]) {
      assert i in all;
    }
    forall i | i in d.resumed ensures i < |d.states| && Live(d.states[i]) {
      assert i in all;
    }
    assert forall i :: 0 <= i < |d.running| ==> all[i] == d.running[i];
    assert forall i :: 0 <= i < |d.resumed| ==> all[i + |d.running|] == d.resumed[i];
  }

  // --------------------------------------------------------------- admission

  /** A fresh request joins the live ones, waiting behind the resumed ones for a moment. */
  lemma AdmitRoster(states: seq<RequestState>, running: seq<nat>, resumed: seq<nat>, i: nat, cached: nat)
    requires Roster(states, running, resumed) && i < |states| && !states[i].admitted && cached < states[i].request.promptTokens
    ensures i !in running + resumed && !states[i].complete
    ensures var states' := states[i := states[i].(processed := cached, admitted := true)];
      Roster(states', running, resumed + [i]) && (OnTrack(states) ==> OnTrack(states'))
  {
    var all, all' := running + resumed, running + (resumed + [i]);
    assert all' == all + [i];
  }

  /** The request scheduled moves to the end of the running ones. */
  lemma CommitRoster(states: seq<RequestState>, running: seq<nat>, resumed: seq<nat>, i: nat)
    requires Roster(states, running, resumed) && i in resumed
    ensures Roster(states, running + [i], Without(resumed, i))
    ensures i !in running
  {
    assert forall k :: 0 <= k < |resumed| ==> (running + resumed)[k + |running|] == resumed[k];
    assert forall k :: 0 <= k < |running| ==> (running + resumed)[k] == running[k];
    WithoutIs(resumed, i);
    assert i !in running && Distinctive(running);
    Concatenated(running, [i]);
    Apart(running, resumed);
    Concatenated(running + [i], Without(resumed, i));
    assert forall j :: j in (running + [i]) + Without(resumed, i) <==> j in running + resumed;
  }

  lemma Apart(a: seq<nat>, b: seq<nat>)
    requires Distinctive(a + b)
    ensures forall i :: i in a ==> i !in b
  {
    forall j, k | 0 <= j < |a| && 0 <= k < |b| ensures a[j] != b[k] {
      assert (a + b)[j] == a[j] && (a + b)[|a| + k] == b[k];
    }
  }

  lemma WithoutLast(resumed: seq<nat>, i: nat)
    requires i !in resumed
    ensures Without(resumed + [i], i) == resumed
  {
    if resumed != [] {
      WithoutLast(resumed[1..], i);
      assert (resumed + [i])[1..] == resumed[1..] + [i];
    } else {
      assert (resumed + [i])[1..] == [];
    }
  }

  // ------------------------------------------------- a sweep of preemptions

  /** Some of the last running requests were preempted; the others are as they were. */
  ghost predicate Shed(d: Desk, e: Desk)
  {
    && |e.states| == |d.states| && |e.running| <= |d.running| && e.running == d.running[..|e.running|]
    && (forall i :: 0 <= i < |d.states| ==> SameIdentity(d.states[i], e.states[i]))
    && (forall i :: i in e.running && i < |d.states| ==> e.states[i] == d.states[i])
    && (forall i :: i in e.running + e.resumed <==> i in d.running + d.resumed)
    && (d.tainted ==> e.tainted)
    && (|e.running| == |d.running| ==> e == d)
  }

  ghost predicate SameIdentity(a: RequestState, b: RequestState)
  {
    b.request == a.request && b.admitted == a.admitted && b.complete == a.complete && (a.complete ==> b == a)
  }

  lemma ShedSelf(d: Desk)
    ensures Shed(d, d)
  {
    assert d.running[..|d.running|] == d.running;
  }

  lemma ShedStep(d: Desk, e: Desk, f: Desk, policy: Policy)
    requires Shed(d, e) && Demoted(e, f) && Seated(e, policy)
    ensures Shed(d, f)
  {
    var v := e.running[|e.running| - 1];
    DemotedSeated(e, f, policy);
    assert f.running == d.running[..|f.running|];
    assert forall i :: i in f.running + f.resumed <==> i in e.running + e.resumed by {
      assert e.running == f.running + [v];
    }
  }

  lemma ShedTimely(d: Desk, e: Desk, now: nat)
    requires Shed(d, e) && Timely(d, now)
    ensures Timely(e, now)
  {
    forall i | i in e.running + e.resumed && i < |e.states| ensures e.states[i].request.arrival <= now {
      assert i in d.running + d.resumed && SameIdentity(d.states[i], e.states[i]);
    }
  }

  /** Slices picked for requests that still run stay lawful. */
  lemma ShedPicked(d: Desk, e: Desk, picks: seq<Pick>, policy: Policy)
    requires Shed(d, e) && Picked(d.states, picks, policy)
    requires forall k :: 0 <= k < |picks| ==> picks[k].index in e.running
    ensures Picked(e.states, picks, policy)
  {
  }

  /** Positions in the order of a sweep. */
  ghost predicate Ahead(order: seq<nat>, k: nat, picks: seq<Pick>)
  {
    forall p :: 0 <= p < |picks| ==> InFront(order, k, picks[p].index)
  }

  ghost predicate InFront(order: seq<nat>, k: nat, i: nat)
  {
    exists j :: 0 <= j < k && j < |order| && order[j] == i
  }

  lemma AheadRuns(order: seq<nat>, k: nat, picks: seq<Pick>, running: seq<nat>)
    requires k <= |running| <= |order| && running == order[..|running|] && Ahead(order, k, picks) && Distinctive(order)
    ensures forall p :: 0 <= p < |picks| ==> picks[p].index in running
    ensures k < |running| ==> forall p :: 0 <= p < |picks| ==> picks[p].index != running[|running| - 1]
    ensures k < |order| ==> forall p :: 0 <= p < |picks| ==> picks[p].index != order[k]
  {
    forall p | 0 <= p < |picks|
      ensures picks[p].index in running && (k < |running| ==> picks[p].index != running[|running| - 1])
      ensures k < |order| ==> picks[p].index != order[k]
    {
      assert InFront(order, k, picks[p].index);
      var j :| 0 <= j < k && j < |order| && order[j] == picks[p].index;
      assert running[j] == order[j];
    }
  }

  lemma ShedTrans(d: Desk, e: Desk, f: Desk)
    requires Shed(d, e) && Shed(e, f)
    ensures Shed(d, f)
  {
    assert f.running == d.running[..|f.running|];
    forall i | 0 <= i < |d.states| ensures SameIdentity(d.states[i], f.states[i]) {
      assert SameIdentity(d.states[i], e.states[i]) && SameIdentity(e.states[i], f.states[i]);
    }
    forall i | i in f.running && i < |d.states| ensures f.states[i] == d.states[i] {
      assert i in e.running;
    }
  }

  lemma AheadMore(order: seq<nat>, k: nat, n: nat, picks: seq<Pick>)
    requires Ahead(order, k, picks) && k <= n
    ensures Ahead(order, n, picks)
  {
    forall p | 0 <= p < |picks| ensures InFront(order, n, picks[p].index) {
      assert InFront(order, k, picks[p].index);
    }
  }

  lemma AheadPush(order: seq<nat>, k: nat, picks: seq<Pick>, pick: Pick)
    requires Ahead(order, k, picks) && k < |order| && order[k] == pick.index
    ensures Ahead(order, k + 1, picks + [pick])
  {
    AheadMore(order, k, k + 1, picks);
    var longer := picks + [pick];
    forall p | 0 <= p < |longer| ensures InFront(order, k + 1, longer[p].index) {
      if p < |picks| {
        assert longer[p] == picks[p];
      } else {
        assert order[k] == longer[p].index;
      }
    }
  }

  lemma PickedPush(states: seq<RequestState>, picks: seq<Pick>, pick: Pick, policy: Policy)
    requires Picked(states, picks, policy) && pick.index < |states| && Live(states[pick.index])
    requires Lawful(states[pick.index], pick.slice, policy)
    requires forall p :: 0 <= p < |picks| ==> picks[p].index != pick.index
    ensures Picked(states, picks + [pick], policy)
  {
    var longer := picks + [pick];
    forall k | 0 <= k < |longer|
      ensures longer[k].index < |states| && Live(states[longer[k].index]) && Lawful(states[longer[k].index], longer[k].slice, policy)
    {
      if k < |picks| {
        assert longer[k] == picks[k];
      }
    }
  }
}
