/** How many tokens the running requests ask for.  Together, all but the youngest ask for less than
    the budget of one batch, so that every running request gets its slice in every batch.
 */
module Paces {
  import opened PrefixKeys
  import opened PlacementSpec
  import opened Frontiers
  import opened Rosters
  import opened Desks

  /** What a request would take of an unlimited budget. */
  function Demand(st: RequestState, policy: Policy): nat
  {
    if st.Decoding() then 1 else Min(st.prefillTarget - st.processed, policy.chunkTokens)
  }

  function Demands(states: seq<RequestState>, order: seq<nat>, policy: Policy): nat
  {
    if order == [] then 0
    else
      var n := |order| - 1;
      Demands(states, order[..n], policy) + (if order[n] < |states| then Demand(states[order[n]], policy) else 0)
  }

  /** Running requests share one model. */
  ghost predicate Alike(d: Desk)
  {
    forall i, j :: i in d.running && j in d.running && i < |d.states| && j < |d.states| ==>
      d.states[i].request.model == d.states[j].request.model
  }

  ghost predicate Paced(d: Desk, policy: Policy)
  {
    Alike(d) && (d.running != [] ==> Demands(d.states, d.running[..|d.running| - 1], policy) < policy.maxTokens)
  }

  /** A slice is what the request asks for, as far as the budget goes. */
  lemma SliceCount(st: RequestState, budget: nat, policy: Policy)
    requires policy.Valid() && budget > 0 && SliceOf(st, budget, policy).Some?
    ensures SliceOf(st, budget, policy).value.count == Min(Demand(st, policy), budget)
  {
  }

  /** Progress never makes a request ask for more. */
  lemma AdvanceDemand(st: RequestState, slice: BatchSlice, policy: Policy)
    requires policy.Valid() && st.Bounded() && !st.complete && Lawful(st, slice, policy)
    requires Advance(st, slice).Some? && !Advance(st, slice).value.complete
    ensures Demand(Advance(st, slice).value, policy) <= Demand(st, policy)
  {
  }

  // ------------------------------------------------------------------- sums

  lemma {:induction false} DemandsSplit(states: seq<RequestState>, a: seq<nat>, b: seq<nat>, policy: Policy)
    ensures Demands(states, a + b, policy) == Demands(states, a, policy) + Demands(states, b, policy)
    decreases |b|
  {
    if b == [] {
      assert a + b == a;
    } else {
      var n := |b| - 1;
      assert (a + b)[..|a| + n] == a + b[..n];
      DemandsSplit(states, a, b[..n], policy);
    }
  }

  lemma DemandsPrefix(states: seq<RequestState>, order: seq<nat>, k: nat, policy: Policy)
    requires k <= |order|
    ensures Demands(states, order[..k], policy) <= Demands(states, order, policy)
  {
    assert order == order[..k] + order[k..];
    DemandsSplit(states, order[..k], order[k..], policy);
  }

  /** Less demand of each request, less demand in all. */
  lemma {:induction false} DemandsLess(a: seq<RequestState>, b: seq<RequestState>, order: seq<nat>, policy: Policy)
    requires |a| == |b| && forall i :: i in order && i < |a| ==> Demand(b[i], policy) <= Demand(a[i], policy)
    ensures Demands(b, order, policy) <= Demands(a, order, policy)
    decreases |order|
  {
    hide Demand;
    if order != [] {
      var n := |order| - 1;
      assert order[n] in order;
      DemandsLess(a, b, order[..n], policy);
    }
  }

  lemma {:induction false} WithoutAt(s: seq<nat>, i: nat) returns (p: nat)
    requires i in s
    ensures p < |s| && s[p] == i && Without(s, i) == s[..p] + s[p + 1..]
  {
    if s[0] == i {
      p := 0;
    } else {
      var q := WithoutAt(s[1..], i);
      p := q + 1;
      assert s[1..][..q] == s[1..p] && s[..p] == [s[0]] + s[1..p];
    }
  }

  /** Nobody asks for more when one of them leaves. */
  lemma WithoutLess(states: seq<RequestState>, order: seq<nat>, i: nat, policy: Policy)
    requires i in order
    ensures var rest := Without(order, i);
      rest != [] ==> Demands(states, rest[..|rest| - 1], policy) <= Demands(states, order[..|order| - 1], policy)
  {
    var p := WithoutAt(order, i);
    var rest, n := Without(order, i), |order| - 1;
    if p == n {
      if rest != [] {
        assert rest == order[..n];
        DemandsPrefix(states, order[..n], n - 1, policy);
        assert rest[..|rest| - 1] == order[..n][..n - 1];
      }
    } else {
      var head, tail := order[..p], order[p + 1..n];
      assert rest[..|rest| - 1] == head + tail;
      assert order[..n] == head + ([i] + tail);
      DemandsSplit(states, head, tail, policy);
      DemandsSplit(states, head, [i] + tail, policy);
      DemandsSplit(states, [i], tail, policy);
    }
  }

  // -------------------------------------------------------------------- steps

  lemma ShedPaced(d: Desk, e: Desk, policy: Policy)
    requires Paced(d, policy) && Shed(d, e)
    ensures Paced(e, policy)
  {
    hide Demand;
    if e.running != [] {
      var n := |e.running| - 1;
      var front := e.running[..n];
      assert front == d.running[..|d.running| - 1][..n];
      DemandsPrefix(d.states, d.running[..|d.running| - 1], n, policy);
      forall i | i in front && i < |d.states| ensures e.states[i] == d.states[i] {
        assert i in e.running;
      }
      DemandsLess(d.states, e.states, front, policy);
      forall i, j | i in e.running && j in e.running && i < |e.states| && j < |e.states|
        ensures e.states[i].request.model == e.states[j].request.model
      {
        assert i in d.running && j in d.running && e.states[i] == d.states[i] && e.states[j] == d.states[j];
      }
    }
  }

  /** A slice was booked, and a finished request left. */
  lemma BookedPaced(d: Desk, e: Desk, i: nat, st: RequestState, policy: Policy)
    requires Paced(d, policy) && i < |d.states| && i in d.running && st.request == d.states[i].request
    requires e.states == d.states[i := st] && e.running == (if st.complete then Without(d.running, i) else d.running)
    requires st.complete || Demand(st, policy) <= Demand(d.states[i], policy)
    requires Distinctive(d.running)
    ensures Paced(e, policy)
  {
    hide Demand;
    WithoutIs(d.running, i);
    if e.running != [] {
      var front := e.running[..|e.running| - 1];
      if st.complete {
        WithoutLess(d.states, d.running, i, policy);
        FrontIn(e.running);
      }
      DemandsLess(d.states, e.states, front, policy);
    }
    forall j, k | j in e.running && k in e.running && j < |e.states| && k < |e.states|
      ensures e.states[j].request.model == e.states[k].request.model
    {
      assert j in d.running && k in d.running;
      assert e.states[j].request == d.states[j].request && e.states[k].request == d.states[k].request;
    }
  }

  lemma FrontIn(s: seq<nat>)
    requires s != []
    ensures forall i :: i in s[..|s| - 1] ==> i in s
  {
  }

  // -------------------------------------------------------------------- picks

  /** The slice is all that its request asks for. */
  ghost predicate Full(states: seq<RequestState>, pick: Pick, policy: Policy)
  {
    pick.index < |states| && pick.slice.count == Demand(states[pick.index], policy)
  }

  /** Every running request has its slice, in the order of the running list; unless the budget is
      used up, none was cut. */
  ghost predicate Rationed(d: Desk, picks: seq<Pick>, budget: nat, policy: Policy)
  {
    && Serving(d.running, picks) && Tokens(picks) + budget == policy.maxTokens
    && (budget > 0 ==> forall p :: 0 <= p < |picks| ==> Full(d.states, picks[p], policy))
  }

  ghost predicate Serving(order: seq<nat>, picks: seq<Pick>)
  {
    |picks| == |order| && forall p :: 0 <= p < |picks| ==> picks[p].index == order[p]
  }

  lemma {:induction false} TokensDemands(states: seq<RequestState>, picks: seq<Pick>, order: seq<nat>, policy: Policy)
    requires Serving(order, picks) && forall p :: 0 <= p < |picks| ==> Full(states, picks[p], policy)
    ensures Tokens(picks) == Demands(states, order, policy)
    decreases |picks|
  {
    hide Demand;
    if picks != [] {
      var n := |picks| - 1;
      assert picks[n].index == order[n] && Full(states, picks[n], policy);
      TokensDemands(states, picks[..n], order[..n], policy);
    }
  }

  /** The first k positions of the running order are dealt with: whoever still runs has a slice, and
      only the last of all may have had it cut. */
  ghost predicate Dealing(d: Desk, e: Desk, k: nat, selected: seq<Pick>, budget: nat, policy: Policy)
  {
    && |e.running| <= |d.running| && k <= |d.running|
    && Serving(d.running[..Min(k, |e.running|)], selected)
    && Tokens(selected) + budget == policy.maxTokens
    && forall p :: 0 <= p < |selected| && (p < |d.running| - 1 || budget > 0) ==> Full(d.states, selected[p], policy)
  }

  lemma DealingStarts(d: Desk, policy: Policy)
    ensures Dealing(d, d, 0, [], policy.maxTokens, policy)
  {
  }

  /** There is budget left for everybody who still runs, and enough but for the youngest. */
  lemma BudgetLeft(d: Desk, e: Desk, k: nat, selected: seq<Pick>, budget: nat, policy: Policy)
    requires Paced(d, policy) && Dealing(d, e, k, selected, budget, policy) && k < |e.running|
    ensures budget > 0
    ensures k < |d.running| - 1 && d.running[k] < |d.states| ==> Demand(d.states[d.running[k]], policy) < budget
  {
    hide Demand, Demands, Alike;
    var n := |d.running| - 1;
    TokensDemands(d.states, selected, d.running[..k], policy);
    PrefixDemands(d.states, d.running, k, n, policy);
    if k < n {
      PrefixDemands(d.states, d.running, k + 1, n, policy);
      OneMore(d.states, d.running, k, policy);
    }
  }

  lemma PrefixDemands(states: seq<RequestState>, order: seq<nat>, k: nat, n: nat, policy: Policy)
    requires k <= n <= |order|
    ensures Demands(states, order[..k], policy) <= Demands(states, order[..n], policy)
  {
    assert order[..n][..k] == order[..k];
    DemandsPrefix(states, order[..n], k, policy);
  }

  lemma OneMore(states: seq<RequestState>, order: seq<nat>, k: nat, policy: Policy)
    requires k < |order|
    ensures Demands(states, order[..k + 1], policy) ==
            Demands(states, order[..k], policy) + (if order[k] < |states| then Demand(states[order[k]], policy) else 0)
  {
    hide Demand;
    assert order[..k + 1][..k] == order[..k];
  }

  /** The next running request got its slice, after some younger ones may have gone. */
  lemma DealtNext(d: Desk, e: Desk, f: Desk, k: nat, selected: seq<Pick>, budget: nat, pick: Pick, policy: Policy)
    requires Paced(d, policy) && Dealing(d, e, k, selected, budget, policy) && k < |f.running| <= |e.running|
    requires pick.index == d.running[k] < |d.states|
    requires pick.slice.count == Min(Demand(d.states[pick.index], policy), budget)
    ensures Dealing(d, f, k + 1, selected + [pick], budget - pick.slice.count, policy)
  {
    BudgetLeft(d, e, k, selected, budget, policy);
    hide Demand;
    TokensPush(selected, pick);
    assert d.running[..k + 1] == d.running[..k] + [d.running[k]];
    var longer := selected + [pick];
    forall p | 0 <= p < |longer| && (p < |d.running| - 1 || budget - pick.slice.count > 0)
      ensures Full(d.states, longer[p], policy)
    {
      if p < k {
        assert longer[p] == selected[p];
      }
    }
  }

  /** The next one is not, or not any more, among the running requests. */
  lemma DealtGone(d: Desk, e: Desk, f: Desk, k: nat, selected: seq<Pick>, budget: nat, policy: Policy)
    requires Dealing(d, e, k, selected, budget, policy) && k < |d.running| && |f.running| <= |e.running|
    requires Min(k, |e.running|) == |f.running|
    ensures Dealing(d, f, k + 1, selected, budget, policy)
  {
  }

  lemma DealtRationed(d: Desk, e: Desk, selected: seq<Pick>, budget: nat, policy: Policy)
    requires Dealing(d, e, |d.running|, selected, budget, policy) && Shed(d, e)
    ensures Rationed(e, selected, budget, policy)
  {
    hide Demand;
    assert e.running == d.running[..|e.running|];
    if budget > 0 {
      forall p | 0 <= p < |selected| ensures Full(e.states, selected[p], policy) {
        assert Full(d.states, selected[p], policy) && selected[p].index == e.running[p];
        assert e.running[p] in e.running;
      }
    }
  }

  /** All running requests have the model. */
  ghost predicate RunsModel(d: Desk, model: Model)
  {
    forall i :: i in d.running && i < |d.states| ==> d.states[i].request.model == model
  }

  lemma ShedModel(d: Desk, e: Desk, model: Model)
    requires RunsModel(d, model) && Shed(d, e)
    ensures RunsModel(e, model)
  {
  }

  /** One more request runs, last in line, with what is left of the budget. */
  lemma JoinedRationed(d: Desk, f: Desk, picks: seq<Pick>, pick: Pick, budget: nat, model: Model, policy: Policy)
    requires Paced(d, policy) && Rationed(d, picks, budget, policy) && budget > 0 && RunsModel(d, model)
    requires pick.index < |d.states| == |f.states| && pick.index !in d.running && f.running == d.running + [pick.index]
    requires f.states == d.states[pick.index := f.states[pick.index]] && f.states[pick.index].request.model == model
    requires pick.slice.count == Min(Demand(f.states[pick.index], policy), budget)
    ensures Paced(f, policy) && Rationed(f, picks + [pick], budget - pick.slice.count, policy) && RunsModel(f, model)
  {
    hide Demand;
    var longer := picks + [pick];
    TokensPush(picks, pick);
    TokensDemands(d.states, picks, d.running, policy);
    assert f.running[..|d.running|] == d.running;
    DemandsLess(d.states, f.states, d.running, policy);
    if budget - pick.slice.count > 0 {
      forall p | 0 <= p < |longer| ensures Full(f.states, longer[p], policy) {
        if p < |picks| {
          assert longer[p] == picks[p] && Full(d.states, picks[p], policy);
          assert d.running[p] in d.running;
        }
      }
    }
  }
}
