/** What one scheduling pass over the running requests keeps, as lemmas on values: who was
    preempted, which slices were selected, and why the head survives where there is room.
 */
module Sweeps {
  import opened PrefixKeys
  import opened PlacementSpec
  import opened PlacementInvariant
  import opened KvRefinement
  import opened KvRuns
  import opened WorldFacts
  import opened LeanPlane
  import opened Affordability
  import opened Frontiers
  import opened Rosters
  import opened Desks

  /** A sweep of preemptions: some young requests left, the selected slices are no worse off. */
  ghost predicate Swept(d: Desk, w: World, e: Desk, v: World, selected: seq<Pick>, policy: Policy, cfg: Config)
  {
    && Rested(e, v, policy) && Shed(d, e)
    && (Affordable(w.s, Plains(selected), cfg) ==> Affordable(v.s, Plains(selected), cfg))
    && (Roomy(d, w, cfg) ==> Roomy(e, v, cfg))
  }

  lemma SweptSelf(d: Desk, w: World, selected: seq<Pick>, policy: Policy, cfg: Config)
    requires Rested(d, w, policy)
    ensures Swept(d, w, d, w, selected, policy, cfg)
    ensures w.s.pendingBatch.None?
  {
    ShedSelf(d);
  }

  lemma SweptPending(d: Desk, w: World, e: Desk, v: World, selected: seq<Pick>, policy: Policy, cfg: Config)
    requires Swept(d, w, e, v, selected, policy, cfg)
    ensures v.s.pendingBatch.None? && v.reserved == [] && v.arriving == {} && Rested(e, v, policy)
    ensures |e.running| <= |d.running| && e.running == d.running[..|e.running|]
  {
  }

  /** The victim is younger than every selected request. */
  lemma VictimYoung(d: Desk, w: World, e: Desk, v: World, k: nat, selected: seq<Pick>, policy: Policy, cfg: Config)
    requires Swept(d, w, e, v, selected, policy, cfg) && k < |e.running| && Ahead(d.running, k, selected)
    requires Rested(e, v, policy) && Rested(d, w, policy)
    requires Picked(d.states, selected, policy)
    ensures forall p :: 0 <= p < |selected| ==> selected[p].index != e.running[|e.running| - 1]
    ensures forall i, j :: 0 <= i < j < |selected| ==> selected[i].index != selected[j].index
    ensures e.running[k] == e.running[|e.running| - 1] ==> k == |e.running| - 1
  {
    hide Roomy, Affordable, Rested;
    RestedMeans(e, v, policy);
    SeatedMeans(e, policy);
    SweptPending(d, w, e, v, selected, policy, cfg);
    RestedMeans(d, w, policy);
    SeatedMeans(d, policy);
    AheadRuns(d.running, k, selected, e.running);
  }

  /** With room for a lone request, a head that does not fit is not alone. */
  lemma VictimNotAlone(d: Desk, w: World, e: Desk, v: World, k: nat, selected: seq<Pick>, pick: Pick, batch: nat,
                       policy: Policy, cfg: Config)
    requires Swept(d, w, e, v, selected, policy, cfg) && k < |e.running| && e.running[k] == pick.index
    requires Sound(v, cfg) && cfg.Valid()
    requires Picked(d.states, selected + [pick], policy) && Ahead(d.running, k, selected)
    requires Reserve(v.s, batch, Plains(selected + [pick]), cfg).None?
    ensures Roomy(d, w, cfg) && k == 0 ==> |e.running| > 1
  {
    hide Rested, Reserve, Sound;
    if Roomy(d, w, cfg) && k == 0 && |e.running| == 1 {
      NoneAhead(d.running, selected);
      assert selected + [pick] == [pick];
      RestedMeans(e, v, policy);
      assert e.running[0] in e.running;
      AloneLawful(d, e, pick, policy);
      HeadFits(e, v, pick, batch, policy, cfg);
    }
  }

  lemma NoneAhead(order: seq<nat>, selected: seq<Pick>)
    requires Ahead(order, 0, selected)
    ensures selected == []
  {
    if selected != [] {
      ghost var front := InFront(order, 0, selected[0].index);
      assert false;
    }
  }

  lemma AloneLawful(d: Desk, e: Desk, pick: Pick, policy: Policy)
    requires Shed(d, e) && |e.running| == 1 && e.running[0] == pick.index && pick.index < |e.states|
    requires Picked(d.states, [pick], policy) && Live(e.states[pick.index])
    ensures Lawful(e.states[pick.index], pick.slice, policy) && Busy(e) <= {pick.slice.request}
  {
    assert [pick][0] == pick && pick.index in e.running;
    RequestOf(e.states[pick.index], pick.slice, policy);
  }

  /** A request that holds all used blocks fits, whatever chunk it asks for. */
  lemma LoneFits(st: RequestState, slice: BatchSlice, v: World, batch: nat, policy: Policy, cfg: Config)
    requires Lean(cfg) && Inv(v.s, cfg) && Tidy(v.s, {slice.request}) && v.s.pendingBatch.None?
    requires st.Bounded() && !st.complete && Lawful(st, slice, policy)
    requires slice.request in v.s.kv && v.s.kv[slice.request].request == st.request
    requires FitsAlone(st.request, v.s.hot.capacity, cfg.blockTokens)
    ensures Reserve(v.s, batch, [slice.Plain()], cfg).Some?
  {
    hide Fits, Reserve, Inv, FitsAlone, Tidy;
    LawfulAdvance(st, slice, policy);
    RequestOf(st, slice, policy);
    hide Lawful;
    SoloFits(v.s, slice.Plain(), cfg);
    TidyMeans(v.s, {slice.request});
    FitsMeans(v.s, batch, [slice.Plain()], cfg);
  }

  lemma TidyMeans(s: State, busy: set<nat>)
    requires Tidy(s, busy)
    ensures s.entries == []
    ensures forall more: set<nat> :: busy <= more ==> Tidy(s, more)
  {
  }

  /** A lone running request fits. */
  lemma HeadFits(e: Desk, v: World, pick: Pick, batch: nat, policy: Policy, cfg: Config)
    requires Rested(e, v, policy) && Roomy(e, v, cfg) && Sound(v, cfg) && cfg.Valid()
    requires Busy(e) <= {pick.slice.request} && pick.index < |e.states| && Live(e.states[pick.index])
    requires Lawful(e.states[pick.index], pick.slice, policy)
    ensures Reserve(v.s, batch, Plains([pick]), cfg).Some?
  {
    hide Sound, Reserve, Lawful, Tidy, FitsAlone;
    var st := e.states[pick.index];
    RestedMeans(e, v, policy);
    SoundKeys(v, cfg);
    RequestOf(st, pick.slice, policy);
    TidyMeans(v.s, Busy(e));
    assert Plains([pick]) == [pick.slice.Plain()];
    LoneFits(st, pick.slice, v, batch, policy, cfg);
  }

  lemma RequestOf(st: RequestState, slice: BatchSlice, policy: Policy)
    requires Lawful(st, slice, policy)
    ensures slice.request == st.request.id && slice.count > 0
  {
  }

  lemma SweptStep(d: Desk, w: World, e: Desk, v: World, f: Desk, u: World, selected: seq<Pick>, policy: Policy, cfg: Config)
    requires Swept(d, w, e, v, selected, policy, cfg) && Demotion(e, v, f, u, policy, cfg) && e.running != []
    requires forall p :: 0 <= p < |selected| ==> selected[p].index != e.running[|e.running| - 1]
    requires Picked(d.states, selected, policy)
    ensures Swept(d, w, f, u, selected, policy, cfg) && f.running == e.running[..|e.running| - 1]
  {
    hide Rested, Affordable, Roomy, Demoted, Seated, Shed, Picked, KnownStates;
    RestedMeans(e, v, policy);
    DemotedLast(e, f);
    ShedStep(d, e, f, policy);
    NotSelected(d, e, selected, policy);
  }

  lemma DemotedLast(d: Desk, e: Desk)
    requires Demoted(d, e)
    ensures d.running[|d.running| - 1] < |d.states| && e.running == d.running[..|d.running| - 1]
  {
  }

  lemma NotSelected(d: Desk, e: Desk, selected: seq<Pick>, policy: Policy)
    requires Shed(d, e) && KnownStates(e.states) && e.running != [] && e.running[|e.running| - 1] < |e.states|
    requires Picked(d.states, selected, policy)
    requires forall p :: 0 <= p < |selected| ==> selected[p].index != e.running[|e.running| - 1]
    ensures e.states[e.running[|e.running| - 1]].request.id !in InBatch(Plains(selected))
  {
    var v := e.running[|e.running| - 1];
    var id := e.states[v].request.id;
    assert SameIdentity(d.states[v], e.states[v]);
    forall p | 0 <= p < |selected| ensures Plains(selected)[p].request != id {
      assert selected[p].index != v && SameIdentity(d.states[selected[p].index], e.states[selected[p].index]);
    }
  }

  /** Up to position k of the running order: each served request has one lawful slice.  The head,
      being of the batch's model, is served unless nothing runs any more, and it is never given
      up where a lone request has room. */
  ghost predicate Sweeping(d: Desk, w: World, e: Desk, v: World, k: nat, selected: seq<Pick>, budget: nat, model: Model,
                           policy: Policy, cfg: Config)
  {
    && Swept(d, w, e, v, selected, policy, cfg) && Picked(e.states, selected, policy)
    && Ahead(d.running, Min(k, |e.running|), selected)
    && Tokens(selected) + budget == policy.maxTokens
    && OfModel(e.states, selected, model)
    && (selected != [] ==> Affordable(v.s, Plains(selected), cfg))
    && (k == 0 ==> e == d && v == w)
    && (k > 0 && HeadOf(d, model) && e.running != [] ==> selected != [] && selected[0].index == d.running[0])
    && (Roomy(d, w, cfg) && d.running != [] ==> e.running != [])
  }

  ghost predicate OfModel(states: seq<RequestState>, picks: seq<Pick>, model: Model)
  {
    forall p :: 0 <= p < |picks| && picks[p].index < |states| ==> states[picks[p].index].request.model == model
  }

  lemma OfModelPush(states: seq<RequestState>, after: seq<RequestState>, picks: seq<Pick>, pick: Pick, model: Model)
    requires OfModel(states, picks, model) && pick.index < |states| && states[pick.index].request.model == model
    requires |after| == |states| && forall i :: 0 <= i < |states| ==> after[i].request == states[i].request
    ensures OfModel(after, picks, model) && OfModel(after, picks + [pick], model)
  {
    var longer := picks + [pick];
    forall p | 0 <= p < |longer| && longer[p].index < |after| ensures after[longer[p].index].request.model == model {
      if p < |picks| {
        assert longer[p] == picks[p];
      }
    }
  }

  ghost predicate HeadOf(d: Desk, model: Model)
  {
    d.running != [] && d.running[0] < |d.states| && d.states[d.running[0]].request.model == model
  }

  lemma SweepingSelf(d: Desk, w: World, model: Model, policy: Policy, cfg: Config)
    requires Rested(d, w, policy) && cfg.Valid()
    ensures Sweeping(d, w, d, w, 0, [], policy.maxTokens, model, policy, cfg)
  {
    SweptSelf(d, w, [], policy, cfg);
  }

  lemma SweepingMeans(d: Desk, w: World, e: Desk, v: World, k: nat, selected: seq<Pick>, budget: nat, model: Model,
                      policy: Policy, cfg: Config)
    requires Sweeping(d, w, e, v, k, selected, budget, model, policy, cfg)
    ensures Rested(e, v, policy) && |e.states| == |d.states|
    ensures forall i :: i in e.running ==> i < |e.states| && Live(e.states[i]) && e.states[i].Bounded()
    ensures !e.tainted ==> forall i :: i in e.running ==> e.states[i].OnFrontier()
    ensures |e.running| <= |d.running| && e.running == d.running[..|e.running|]
    ensures Picked(e.states, selected, policy) && (Roomy(d, w, cfg) ==> Roomy(e, v, cfg))
  {
    hide Roomy, Affordable, Rested, Tokens;
    RestedMeans(e, v, policy);
  }

  lemma SweepingSkip(d: Desk, w: World, e: Desk, v: World, k: nat, selected: seq<Pick>, budget: nat, model: Model,
                     policy: Policy, cfg: Config)
    requires Sweeping(d, w, e, v, k, selected, budget, model, policy, cfg) && k < |d.running|
    requires d.running[k] !in e.running || (d.running[k] < |e.states| && e.states[d.running[k]].request.model != model)
    ensures Sweeping(d, w, e, v, k + 1, selected, budget, model, policy, cfg)
  {
    hide Roomy, Affordable, Rested, Tokens, Picked, Shed, Ahead;
    AheadMore(d.running, Min(k, |e.running|), Min(k + 1, |e.running|), selected);
  }

  lemma ChunkPicked(d: Desk, w: World, e: Desk, v: World, k: nat, selected: seq<Pick>, budget: nat, model: Model,
                    slice: BatchSlice, policy: Policy, cfg: Config)
    requires Sweeping(d, w, e, v, k, selected, budget, model, policy, cfg) && k < |d.running| && budget > 0 && policy.Valid()
    requires d.running[k] in e.running && d.running[k] < |e.states| && Rested(d, w, policy)
    requires SliceOf(e.states[d.running[k]], budget, policy) == Some(slice)
    ensures k < |e.running| && e.running[k] == d.running[k] && Ahead(e.running, k, selected)
    ensures Picked(e.states, selected + [Pick(d.running[k], slice)], policy)
    ensures slice.count <= budget && slice.count > 0
  {
    hide Roomy, Affordable, Rested, Tokens, Lawful, Picked, Ahead, Shed;
    var i := d.running[k];
    RestedMeans(e, v, policy);
    RestedDistinct(d, w, policy);
    SweptShed(d, w, e, v, selected, policy, cfg);
    PlaceOf(d.running, k, e.running);
    AheadRuns(d.running, k, selected, e.running);
    AheadPrefix(d.running, k, selected, e.running);
    SliceLawful(e.states[i], budget, policy);
    RequestOf(e.states[i], slice, policy);
    PickedPush(e.states, selected, Pick(i, slice), policy);
  }

  lemma PlaceOf(order: seq<nat>, k: nat, running: seq<nat>)
    requires Distinctive(order) && k < |order| && |running| <= |order| && running == order[..|running|] && order[k] in running
    ensures k < |running| && running[k] == order[k]
  {
    var j :| 0 <= j < |running| && running[j] == order[k];
    assert order[j] == order[k];
  }

  lemma AheadPrefix(order: seq<nat>, k: nat, picks: seq<Pick>, running: seq<nat>)
    requires k <= |running| <= |order| && running == order[..|running|] && Ahead(order, k, picks)
    ensures Ahead(running, k, picks)
  {
    forall p | 0 <= p < |picks| ensures InFront(running, k, picks[p].index) {
      assert InFront(order, k, picks[p].index);
      var q :| 0 <= q < k && q < |order| && order[q] == picks[p].index;
      assert running[q] == picks[p].index;
    }
  }

  lemma SweptTrans(d: Desk, w: World, e: Desk, v: World, f: Desk, u: World, selected: seq<Pick>, policy: Policy, cfg: Config)
    requires Swept(d, w, e, v, selected, policy, cfg) && Swept(e, v, f, u, selected, policy, cfg)
    ensures Swept(d, w, f, u, selected, policy, cfg)
  {
    hide Roomy, Affordable, Rested, Shed;
    ShedTrans(d, e, f);
  }

  lemma ChunkDone(d: Desk, w: World, e: Desk, v: World, f: Desk, u: World, k: nat, kept: bool, selected: seq<Pick>, budget: nat,
                  model: Model, slice: BatchSlice, batch: nat, policy: Policy, cfg: Config)
    requires Sweeping(d, w, e, v, k, selected, budget, model, policy, cfg) && k < |e.running| && e.running[k] < |e.states|
    requires Rested(d, w, policy) && policy.Valid() && Sound(u, cfg) && cfg.Valid()
    requires e.states[e.running[k]].request.model == model && 0 < slice.count <= budget
    requires Picked(e.states, selected + [Pick(e.running[k], slice)], policy)
    requires Swept(e, v, f, u, selected, policy, cfg) && kept == (k < |f.running|) && k <= |f.running|
    requires kept ==> Reserve(u.s, batch, Plains(selected + [Pick(e.running[k], slice)]), cfg).Some?
    requires Roomy(e, v, cfg) && k == 0 ==> kept
    ensures kept ==> Sweeping(d, w, f, u, k + 1, selected + [Pick(e.running[k], slice)], budget - slice.count, model, policy, cfg)
    ensures !kept ==> Sweeping(d, w, f, u, k + 1, selected, budget, model, policy, cfg)
  {
    hide Roomy, Affordable, Rested, Lawful, Reserve, Sound, Tokens, Swept;
    SweptTrans(d, w, e, v, f, u, selected, policy, cfg);
    var pick := Pick(e.running[k], slice);
    ChunkShape(d, w, e, v, f, u, k, selected, pick, model, policy, cfg);
    if kept {
      TokensPush(selected, pick);
      SoundKeys(u, cfg);
      ReservedAffords(u.s, batch, Plains(selected + [pick]), cfg);
      SweptLonger(d, w, f, u, selected, selected + [pick], policy, cfg);
    } else {
      SweptAffords(e, v, f, u, selected, policy, cfg);
    }
  }

  /** What can be reserved is affordable. */
  lemma ReservedAffords(s: State, batch: nat, slices: seq<Slice>, cfg: Config)
    requires cfg.Valid() && Inv(s, cfg) && Reserve(s, batch, slices, cfg).Some?
    ensures Affordable(s, slices, cfg)
  {
    hide Inv, MakePlan, Affordable, EvictKeys, MigrateAll, ReserveAll;
    FeasibleAffords(s, slices, cfg);
  }

  lemma SweptAffords(e: Desk, v: World, f: Desk, u: World, selected: seq<Pick>, policy: Policy, cfg: Config)
    requires Swept(e, v, f, u, selected, policy, cfg)
    ensures Affordable(v.s, Plains(selected), cfg) ==> Affordable(u.s, Plains(selected), cfg)
  {
    hide Roomy, Affordable, Rested;
  }

  lemma SweptLonger(d: Desk, w: World, f: Desk, u: World, selected: seq<Pick>, longer: seq<Pick>, policy: Policy, cfg: Config)
    requires Swept(d, w, f, u, selected, policy, cfg) && Affordable(u.s, Plains(longer), cfg)
    ensures Swept(d, w, f, u, longer, policy, cfg)
  {
    hide Roomy, Affordable, Rested, Shed;
  }

  /** The part of a chunk's step that concerns the slices' positions and models. */
  lemma ChunkShape(d: Desk, w: World, e: Desk, v: World, f: Desk, u: World, k: nat, selected: seq<Pick>, pick: Pick,
                   model: Model, policy: Policy, cfg: Config)
    requires Swept(d, w, e, v, selected, policy, cfg) && Swept(e, v, f, u, selected, policy, cfg)
    requires Rested(d, w, policy) && k < |e.running| && k <= |f.running| && e.running[k] == pick.index < |e.states|
    requires Picked(e.states, selected + [pick], policy) && Ahead(d.running, k, selected)
    requires OfModel(e.states, selected, model) && e.states[pick.index].request.model == model
    ensures Picked(f.states, selected, policy) && Ahead(d.running, Min(k + 1, |f.running|), selected)
    ensures k < |f.running| ==>
      Picked(f.states, selected + [pick], policy) && Ahead(d.running, Min(k + 1, |f.running|), selected + [pick])
    ensures OfModel(f.states, selected, model) && OfModel(f.states, selected + [pick], model)
  {
    hide Roomy, Affordable, Rested, Lawful, Picked, Ahead, OfModel, Swept, Shed;
    SweptShed(d, w, e, v, selected, policy, cfg);
    SweptShed(e, v, f, u, selected, policy, cfg);
    RestedDistinct(d, w, policy);
    ChunkPlaces(d.running, k, selected, pick, f.running);
    LongerCounted(e.states, selected, pick, policy);
    ShedPicked(e, f, selected, policy);
    if k < |f.running| {
      ShedPicked(e, f, selected + [pick], policy);
    }
    OfModelPush(e.states, f.states, selected, pick, model);
  }

  lemma SweptShed(d: Desk, w: World, e: Desk, v: World, selected: seq<Pick>, policy: Policy, cfg: Config)
    requires Swept(d, w, e, v, selected, policy, cfg)
    ensures Shed(d, e) && |e.states| == |d.states| && |e.running| <= |d.running| && e.running == d.running[..|e.running|]
    ensures forall i :: 0 <= i < |d.states| ==> e.states[i].request == d.states[i].request
  {
    hide Roomy, Affordable, Rested;
    forall i | 0 <= i < |d.states| ensures e.states[i].request == d.states[i].request {
      assert SameIdentity(d.states[i], e.states[i]);
    }
  }

  lemma RestedDistinct(d: Desk, w: World, policy: Policy)
    requires Rested(d, w, policy)
    ensures Distinctive(d.running)
  {
    SeatedMeans(d, policy);
  }

  lemma ChunkPlaces(order: seq<nat>, k: nat, selected: seq<Pick>, pick: Pick, running: seq<nat>)
    requires Distinctive(order) && k < |order| && order[k] == pick.index && Ahead(order, k, selected)
    requires k <= |running| <= |order| && running == order[..|running|]
    ensures Ahead(order, Min(k + 1, |running|), selected)
    ensures forall p :: 0 <= p < |selected| ==> selected[p].index in running
    ensures k < |running| ==> Ahead(order, Min(k + 1, |running|), selected + [pick])
    ensures k < |running| ==> forall p :: 0 <= p < |selected + [pick]| ==> (selected + [pick])[p].index in running
  {
    hide Ahead;
    AheadRuns(order, k, selected, running);
    AheadMore(order, k, Min(k + 1, |running|), selected);
    if k < |running| {
      AheadPush(order, k, selected, pick);
      assert running[k] in running;
    }
  }

  lemma ShedShorter(d: Desk, w: World, e: Desk, v: World, k: nat, selected: seq<Pick>, budget: nat, model: Model,
                    policy: Policy, cfg: Config)
    requires Sweeping(d, w, e, v, k, selected, budget, model, policy, cfg)
    ensures |e.running| <= |d.running|
  {
  }

  lemma LongerCounted(states: seq<RequestState>, selected: seq<Pick>, pick: Pick, policy: Policy)
    requires Picked(states, selected + [pick], policy)
    ensures Plains(selected + [pick]) == Plains(selected) + [pick.slice.Plain()]
    ensures AllCounted(Plains(selected) + [pick.slice.Plain()])
    ensures Picked(states, selected, policy)
  {
    PlainsPush(selected, pick);
    PicksCounted(states, selected + [pick], policy);
    var longer := selected + [pick];
    assert forall k :: 0 <= k < |selected| ==> longer[k] == selected[k];
  }

  lemma OpeningRested(requests: seq<Request>, w: World, policy: Policy, now: nat)
    requires policy.Valid() && w.s.kv == map[] && w.frontier == map[]
    requires w.reserved == [] && w.arriving == {} && w.s.pendingBatch.None?
    requires forall i :: 0 <= i < |requests| ==> requests[i].Valid()
    requires forall i, j :: 0 <= i < j < |requests| ==> requests[i].id != requests[j].id
    ensures var d := Desk(seq(|requests|, i requires 0 <= i < |requests| => Fresh(requests[i])), [], [], false);
      Rested(d, w, policy) && Timely(d, now)
  {
  }

  lemma SoundKeys(w: World, cfg: Config)
    requires Sound(w, cfg)
    ensures Inv(w.s, cfg) && w.frontier.Keys == w.s.kv.Keys
  {
    hide Good, Inv;
    SoundMeans(w, cfg);
    GoodInv(w.s, w.mems, w.frontier, w.reserved, w.arriving, cfg);
  }

  lemma LastRunning(d: Desk, w: World, policy: Policy)
    requires Rested(d, w, policy) && d.running != []
    ensures d.running[|d.running| - 1] < |d.states|
    ensures d.states[d.running[|d.running| - 1]].request.id in w.s.kv && w.reserved == [] && w.arriving == {}
  {
    RestedMeans(d, w, policy);
    assert d.running[|d.running| - 1] in d.running;
  }

  /** What preempting the last running request means. */
  ghost predicate Demotion(d: Desk, w: World, e: Desk, next: World, policy: Policy, cfg: Config)
  {
    && Rested(e, next, policy) && Demoted(d, e) && Lighter(d, w, next, cfg)
    && (Roomy(d, w, cfg) ==> Roomy(e, next, cfg))
  }

  /** No batch without the request loses anything. */
  ghost predicate Lighter(d: Desk, w: World, next: World, cfg: Config)
  {
    d.running != [] && d.running[|d.running| - 1] < |d.states| &&
    var id := d.states[d.running[|d.running| - 1]].request.id;
    forall slices: seq<Slice> :: Affordable(w.s, slices, cfg) && id !in InBatch(slices) ==> Affordable(next.s, slices, cfg)
  }

  lemma DemotionWorks(d: Desk, w: World, e: Desk, next: World, mode: PlacementSpec.Preempted, policy: Policy, cfg: Config)
    requires Rested(d, w, policy) && d.running != [] && d.running[|d.running| - 1] < |d.states|
    requires Sound(w, cfg) && cfg.Valid()
    requires var v := d.running[|d.running| - 1];
      && Act(w, Preempts(d.states[v].request.id), cfg) == Some(next)
      && Preempt(w.s, d.states[v].request.id, cfg) == PreemptResult.Preempted(next.s, mode)
      && e == Desk(d.states[v := if mode.Recompute? then Recomputed(d.states[v]) else d.states[v]],
                   d.running[..|d.running| - 1], [v] + d.resumed,
                   d.tainted || (mode.Recompute? && !Restartable(d.states[v])))
    ensures Demotion(d, w, e, next, policy, cfg)
  {
    hide Sound, Act, Rested, Roomy, Demoted, Preempt, Inv, Seated, Affordable;
    var v := d.running[|d.running| - 1];
    RestedMeans(d, w, policy);
    PreemptsFacts(w, d.states[v].request.id, cfg);
    SoundKeys(w, cfg);
    ActSound(w, Preempts(d.states[v].request.id), cfg);
    SoundKeys(next, cfg);
    DemotedIs(d, e, mode);
    DemotedRested(d, e, w, next, mode, policy);
    RestedMeans(e, next, policy);
    forall slices: seq<Slice> | Affordable(w.s, slices, cfg) && d.states[v].request.id !in InBatch(slices)
      ensures Affordable(next.s, slices, cfg)
    {
      PreemptAffords(w.s, d.states[v].request.id, slices, cfg);
    }
    if Roomy(d, w, cfg) {
      DemotedRoomy(d, e, w, next, mode, cfg, policy);
    }
  }

  lemma RestedMeans(d: Desk, w: World, policy: Policy)
    requires Rested(d, w, policy)
    ensures Seated(d, policy) && Mirrors(d.states, w) && Tracks(d.states, w.frontier, [])
    ensures w.reserved == [] && w.arriving == {} && w.s.pendingBatch.None?
    ensures forall i :: i in d.running ==> i < |d.states| && Live(d.states[i]) && d.states[i].processed > 0
    ensures forall i :: 0 <= i < |d.states| && Live(d.states[i]) ==>
      d.states[i].request.id in w.s.kv && d.states[i].request.id in w.frontier
      && w.frontier[d.states[i].request.id] == d.states[i].processed
      && w.s.kv[d.states[i].request.id].request == d.states[i].request
    ensures KnownStates(d.states) && |d.running| <= policy.maxRequests && Distinctive(d.running)
  {
    SeatedMeans(d, policy);
    forall i | 0 <= i < |d.states| && Live(d.states[i])
      ensures d.states[i].request.id in w.frontier && w.frontier[d.states[i].request.id] == d.states[i].processed
    {
      assert Tracked(d.states[i], i, w.frontier, []);
    }
    assert forall i :: i in d.running ==> !Desks.Chosen([], i);
  }

  lemma DemotedIs(d: Desk, e: Desk, mode: PlacementSpec.Preempted)
    requires d.running != [] && d.running[|d.running| - 1] < |d.states|
    requires d.states[d.running[|d.running| - 1]].processed > 0
    requires var v := d.running[|d.running| - 1];
      var st := if mode.Recompute? then Recomputed(d.states[v]) else d.states[v];
      e == Desk(d.states[v := st], d.running[..|d.running| - 1], [v] + d.resumed,
                d.tainted || (mode.Recompute? && !Restartable(d.states[v])))
    ensures Demoted(d, e)
  {
  }

  lemma CoveredWidth(w: World, id: nat, cfg: Config)
    requires Sound(w, cfg) && id in w.s.kv && id in w.frontier && w.frontier[id] > 0
    ensures w.s.kv[id].Width() > 0
  {
    hide Inv, AllRead, EntriesHold, Exclusive, Clean, BatchOk;
    assert Span(0, cfg.blockTokens) == 0;
  }

  lemma DemotedRoomy(d: Desk, e: Desk, w: World, next: World, mode: PlacementSpec.Preempted, cfg: Config, policy: Policy)
    requires Seated(d, policy) && Roomy(d, w, cfg) && Demoted(d, e) && Seated(e, policy) && Inv(w.s, cfg)
    requires Preempt(w.s, d.states[d.running[|d.running| - 1]].request.id, cfg) == PreemptResult.Preempted(next.s, mode)
    ensures Roomy(e, next, cfg)
  {
    hide Inv, Preempt;
    var v := d.running[|d.running| - 1];
    var id := d.states[v].request.id;
    PreemptTidy(w.s, id, Busy(d), cfg);
    DemotedSeated(d, e, policy);
    SeatedMeans(d, policy);
    assert Busy(e) == Busy(d) - {id};
  }
}
