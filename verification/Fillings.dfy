/** What the pass over the waiting requests keeps, and what one whole scheduling step gives. */
module Fillings {
  import opened PrefixKeys
  import opened PlacementSpec
  import opened KvRuns
  import opened Frontiers
  import opened Rosters
  import opened Desks
  import opened Admissions

  ghost predicate SameOwner(a: RequestState, b: RequestState)
  {
    b.request == a.request && b.complete == a.complete && (a.complete ==> b == a)
  }

  /** The waiting requests seen so far joined behind the running ones, or stayed as they were. */
  ghost predicate Filled(d: Desk, w: World, f: Desk, u: World, first: seq<Pick>, selected: seq<Pick>, budget: nat,
                         seen: seq<nat>, model: Model, batch: nat, policy: Policy, cfg: Config)
  {
    && Agrees(f, u, selected, batch, policy) && u.arriving == {} && Tokens(selected) + budget == policy.maxTokens
    && Moved(d, f, seen) && f.tainted == d.tainted
    && |first| <= |selected| && selected[..|first|] == first
    && (Roomy(d, w, cfg) ==> Roomy(f, u, cfg))
    && (Roomy(d, w, cfg) && d.running == [] && first == [] && LeadOf(d, seen, model) ==>
          selected != [] && f.running != [] && f.running[0] == selected[0].index)
  }

  ghost predicate LeadOf(d: Desk, seen: seq<nat>, model: Model)
  {
    seen != [] && seen[0] < |d.states| && d.states[seen[0]].request.model == model
  }

  ghost predicate Moved(d: Desk, f: Desk, seen: seq<nat>)
  {
    && |f.states| == |d.states| && (forall i :: 0 <= i < |d.states| ==> SameOwner(d.states[i], f.states[i]))
    && |d.running| <= |f.running| && f.running[..|d.running|] == d.running
    && (forall i :: i in f.running ==> i in d.running || i in seen)
    && (forall i :: i in f.resumed ==> i in d.resumed)
    && (forall i :: 0 <= i < |d.states| && i !in seen ==> f.states[i] == d.states[i])
  }

  ghost predicate Waiting(d: Desk, waiting: seq<nat>)
  {
    && Distinctive(waiting)
    && forall i :: i in waiting ==> i < |d.states| && !d.states[i].complete && i !in d.running
  }

  lemma FilledSelf(d: Desk, w: World, picks: seq<Pick>, budget: nat, model: Model, batch: nat, policy: Policy, cfg: Config)
    requires Agrees(d, w, picks, batch, policy) && w.arriving == {} && Tokens(picks) + budget == policy.maxTokens
    ensures Filled(d, w, d, w, picks, picks, budget, [], model, batch, policy, cfg)
  {
    assert d.running[..|d.running|] == d.running && picks[..|picks|] == picks;
  }

  lemma FilledNext(d: Desk, w: World, f: Desk, u: World, first: seq<Pick>, selected: seq<Pick>, budget: nat,
                   waiting: seq<nat>, k: nat, model: Model, batch: nat, policy: Policy, cfg: Config)
    requires k < |waiting| && Waiting(d, waiting)
    requires Filled(d, w, f, u, first, selected, budget, waiting[..k], model, batch, policy, cfg)
    ensures Agrees(f, u, selected, batch, policy) && u.arriving == {}
    ensures waiting[k] < |f.states| && !f.states[waiting[k]].complete && waiting[k] !in f.running
    ensures waiting[k] < |d.states| && f.states[waiting[k]] == d.states[waiting[k]]
  {
    var i := waiting[k];
    assert i in waiting;
    assert i !in waiting[..k];
    assert SameOwner(d.states[i], f.states[i]);
  }

  /** A request of another model is passed over. */
  lemma FilledSkip(d: Desk, w: World, f: Desk, u: World, first: seq<Pick>, selected: seq<Pick>, budget: nat,
                   waiting: seq<nat>, k: nat, model: Model, batch: nat, policy: Policy, cfg: Config)
    requires k < |waiting| && waiting[k] < |d.states| && d.states[waiting[k]].request.model != model
    requires Filled(d, w, f, u, first, selected, budget, waiting[..k], model, batch, policy, cfg)
    ensures Filled(d, w, f, u, first, selected, budget, waiting[..k + 1], model, batch, policy, cfg)
  {
    hide Agrees, Roomy, Tokens;
    MovedMore(d, f, waiting, k, k + 1);
    if k > 0 {
      assert waiting[..k][0] == waiting[..k + 1][0];
    }
  }

  lemma MovedMore(d: Desk, f: Desk, waiting: seq<nat>, k: nat, n: nat)
    requires k <= n <= |waiting| && Moved(d, f, waiting[..k])
    ensures Moved(d, f, waiting[..n])
  {
    assert forall i :: i in waiting[..k] ==> i in waiting[..n] by {
      assert waiting[..n][..k] == waiting[..k];
    }
  }

  /** The pass may stop anywhere, except before the first request of an idle engine. */
  lemma FilledStop(d: Desk, w: World, f: Desk, u: World, first: seq<Pick>, selected: seq<Pick>, budget: nat,
                   waiting: seq<nat>, k: nat, model: Model, batch: nat, policy: Policy, cfg: Config)
    requires k <= |waiting|
    requires Filled(d, w, f, u, first, selected, budget, waiting[..k], model, batch, policy, cfg)
    requires k == 0 ==> waiting == [] || d.running != [] || first != [] || !Roomy(d, w, cfg)
    ensures Filled(d, w, f, u, first, selected, budget, waiting, model, batch, policy, cfg)
  {
    hide Agrees, Roomy, Tokens;
    MovedMore(d, f, waiting, k, |waiting|);
    assert waiting[..|waiting|] == waiting;
    if k > 0 {
      assert waiting[..k][0] == waiting[0];
    }
  }

  /** At the first waiting request nothing has been used up yet. */
  lemma FilledFirst(d: Desk, w: World, f: Desk, u: World, selected: seq<Pick>, budget: nat, first: seq<Pick>,
                    model: Model, batch: nat, policy: Policy, cfg: Config)
    requires Filled(d, w, f, u, first, selected, budget, [], model, batch, policy, cfg)
    ensures f.running == d.running && f.states == d.states && f.tainted == d.tainted
  {
    hide Agrees, Roomy, Tokens;
    DistinctRunning(f, u, selected, batch, policy);
    WholePrefix(d.running, f.running);
  }

  lemma WholePrefix(a: seq<nat>, b: seq<nat>)
    requires |a| <= |b| && b[..|a|] == a && Distinctive(b)
    ensures a == b || exists i :: i in b && i !in a
  {
    if |a| < |b| {
      assert forall j :: 0 <= j < |a| ==> a[j] == b[j];
      assert b[|a|] in b && b[|a|] !in a;
    }
  }

  lemma DistinctRunning(d: Desk, w: World, picks: seq<Pick>, batch: nat, policy: Policy)
    requires Agrees(d, w, picks, batch, policy)
    ensures Distinctive(d.running)
  {
    SeatedMeans(d, policy);
  }

  lemma FilledMore(d: Desk, w: World, f: Desk, u: World, g: Desk, v: World, first: seq<Pick>, selected: seq<Pick>, budget: nat,
                   waiting: seq<nat>, k: nat, pick: Pick, model: Model, batch: nat, policy: Policy, cfg: Config)
    requires k < |waiting| && Waiting(d, waiting) && pick.slice.count <= budget
    requires Filled(d, w, f, u, first, selected, budget, waiting[..k], model, batch, policy, cfg)
    requires Admission(f, u, g, v, selected, Some(pick), waiting[k], batch, policy, cfg)
    requires f.states[waiting[k]] == d.states[waiting[k]]
    ensures Filled(d, w, g, v, first, selected + [pick], budget - pick.slice.count, waiting[..k + 1], model, batch, policy, cfg)
  {
    hide Agrees, Roomy, Tokens;
    TokensPush(selected, pick);
    assert waiting[k] in waiting;
    MovedMore(d, f, waiting, k, k + 1);
    MovedIn(d, f, g, waiting[..k + 1], waiting[k]);
    assert (selected + [pick])[..|first|] == first;
    if k == 0 {
      assert waiting[..k] == [];
      FilledFirst(d, w, f, u, selected, budget, first, model, batch, policy, cfg);
      FirstSelected(d, w, f, u, first, selected, budget, model, batch, policy, cfg);
    } else {
      assert waiting[..k][0] == waiting[..k + 1][0];
    }
  }

  lemma FirstSelected(d: Desk, w: World, f: Desk, u: World, first: seq<Pick>, selected: seq<Pick>, budget: nat,
                      model: Model, batch: nat, policy: Policy, cfg: Config)
    requires Filled(d, w, f, u, first, selected, budget, [], model, batch, policy, cfg)
    ensures f.running == [] ==> selected == []
  {
    AgreesMeans(f, u, selected, batch, policy);
    FedRuns(f, selected);
  }

  lemma FedRuns(f: Desk, selected: seq<Pick>)
    requires Fed(f, selected)
    ensures selected == [] || selected[0].index in f.running
  {
  }

  lemma MovedIn(d: Desk, f: Desk, g: Desk, seen: seq<nat>, i: nat)
    requires Moved(d, f, seen) && i in seen && i < |d.states| && !d.states[i].complete
    requires |g.states| == |f.states| && g.running == f.running + [i] && g.states == f.states[i := g.states[i]]
    requires SameIdentity(f.states[i].(admitted := true), g.states[i]) && g.resumed == Without(f.resumed, i)
    ensures Moved(d, g, seen)
  {
    assert g.running[..|d.running|] == f.running[..|d.running|];
    WithoutSubset(f.resumed, i);
    forall j | 0 <= j < |d.states| ensures SameOwner(d.states[j], g.states[j]) {
      assert SameOwner(d.states[j], f.states[j]);
    }
  }

  lemma {:induction false} WithoutSubset(s: seq<nat>, i: nat)
    ensures forall j :: j in Without(s, i) ==> j in s
  {
    if s != [] {
      WithoutSubset(s[1..], i);
    }
  }

  /** Budget or batch room is used up; an idle engine has both. */
  lemma StopEarly(d: Desk, w: World, f: Desk, u: World, first: seq<Pick>, selected: seq<Pick>, budget: nat,
                  waiting: seq<nat>, k: nat, model: Model, batch: nat, policy: Policy, cfg: Config)
    requires k < |waiting| && policy.Valid()
    requires Filled(d, w, f, u, first, selected, budget, waiting[..k], model, batch, policy, cfg)
    requires budget == 0 || |f.running| >= policy.maxRequests
    ensures Filled(d, w, f, u, first, selected, budget, waiting, model, batch, policy, cfg)
  {
    hide Agrees, Roomy;
    if k == 0 {
      assert waiting[..k] == [];
      FilledFirst(d, w, f, u, selected, budget, first, model, batch, policy, cfg);
      FirstSelected(d, w, f, u, first, selected, budget, model, batch, policy, cfg);
    }
    FilledStop(d, w, f, u, first, selected, budget, waiting, k, model, batch, policy, cfg);
  }

  /** A request was left out; that does not happen to the first one of an idle, roomy engine. */
  lemma StopUnfit(d: Desk, w: World, f: Desk, u: World, g: Desk, v: World, first: seq<Pick>, selected: seq<Pick>, budget: nat,
                  waiting: seq<nat>, k: nat, model: Model, batch: nat, policy: Policy, cfg: Config)
    requires k < |waiting|
    requires Filled(d, w, f, u, first, selected, budget, waiting[..k], model, batch, policy, cfg)
    requires Admission(f, u, g, v, selected, None, waiting[k], batch, policy, cfg)
    ensures Filled(d, w, g, v, first, selected, budget, waiting, model, batch, policy, cfg)
  {
    hide Agrees, Roomy, Tokens;
    assert g == f;
    assert Filled(d, w, f, v, first, selected, budget, waiting[..k], model, batch, policy, cfg);
    if k == 0 {
      assert waiting[..k] == [];
      FilledFirst(d, w, f, u, selected, budget, first, model, batch, policy, cfg);
      FirstSelected(d, w, f, u, first, selected, budget, model, batch, policy, cfg);
    }
    FilledStop(d, w, f, v, first, selected, budget, waiting, k, model, batch, policy, cfg);
  }
}
