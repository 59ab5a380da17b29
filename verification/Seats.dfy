/** Who is in the hot pool: between two scheduling decisions exactly the running requests are, and
    so no plan of the scheduler ever swaps one of them out behind its back.
 */
module Seats {
  import opened PrefixKeys
  import opened PlacementSpec
  import opened PlacementInvariant
  import opened PlannerSoundness
  import opened KvRuns
  import opened WorldFacts
  import opened Affordability
  import opened Frontiers
  import opened Rosters
  import opened Desks
  import opened Paces
  import opened Sweeps
  import Passes
  import opened Admissions
  import opened Completions

  ghost predicate InHot(s: State, id: nat)
  {
    id in s.kv && s.kv[id].tier.Hot?
  }

  ghost predicate Occupies(s: State, id: nat)
  {
    id in s.kv && s.kv[id].tier.Hot? && s.kv[id].Width() > 0
  }

  /** Running requests are hot, and apart from them only a request just admitted holds hot blocks. */
  ghost predicate Placed(d: Desk, w: World)
  {
    && (forall i :: i in d.running && i < |d.states| ==> InHot(w.s, d.states[i].request.id))
    && (forall id :: Occupies(w.s, id) ==> id in Busy(d) || id in w.arriving)
  }

  lemma OpeningCalm(states: seq<RequestState>, w: World, policy: Policy)
    requires w.s.kv == map[]
    ensures Calm(Desk(states, [], [], false), w, policy)
  {
  }

  // -------------------------------------------------------------- preemption

  /** A running request always has hot blocks to give up. */
  lemma RunningYields(d: Desk, w: World, v: nat, policy: Policy, cfg: Config)
    requires Rested(d, w, policy) && Placed(d, w) && Sound(w, cfg) && cfg.Valid() && v in d.running
    ensures v < |d.states| && Act(w, Preempts(d.states[v].request.id), cfg).Some?
  {
    hide Sound, Act, Placed, Rested;
    RestedMeans(d, w, policy);
    SeatedMeans(d, policy);
    var id := d.states[v].request.id;
    PlacedHot(d, w, v);
    CoveredWidth(w, id, cfg);
    PreemptsFacts(w, id, cfg);
  }

  lemma PlacedHot(d: Desk, w: World, v: nat)
    requires Placed(d, w) && v in d.running && v < |d.states|
    ensures InHot(w.s, d.states[v].request.id)
  {
  }

  /** The youngest running request left the hot pool for the resumed ones. */
  lemma DemotedPlaced(d: Desk, e: Desk, w: World, next: World, policy: Policy, cfg: Config)
    requires Seated(d, policy) && Demoted(d, e) && Placed(d, w) && Inv(w.s, cfg) && w.arriving == {} && next.arriving == {}
    requires Preempt(w.s, d.states[d.running[|d.running| - 1]].request.id, cfg).Preempted?
    requires next.s == Preempt(w.s, d.states[d.running[|d.running| - 1]].request.id, cfg).state
    ensures Placed(e, next)
  {
    hide Inv, Preempt, Roster, OnTrack;
    var v := d.running[|d.running| - 1];
    var id := d.states[v].request.id;
    PreemptLeaves(w.s, id, cfg);
    SeatedMeans(d, policy);
    LastDropped(d.running);
    assert forall i :: i in e.running ==> i in d.running && i != v && e.states[i] == d.states[i];
    forall j | Occupies(next.s, j) ensures j in Busy(e) {
      assert j != id && Occupies(w.s, j);
      var i :| i in d.running && i < |d.states| && d.states[i].request.id == j;
      assert i in e.running && e.states[i].request.id == j;
    }
  }

  // ------------------------------------------------------------- reservation

  /** Everyone in the hot pool is in the batch. */
  lemma NobodyElse(d: Desk, w: World, picks: seq<Pick>, policy: Policy)
    requires Placed(d, w) && Rosters.Picked(d.states, picks, policy)
    requires forall i :: i in d.running ==> Desks.Chosen(picks, i)
    requires w.arriving <= InBatch(Plains(picks))
    ensures forall id :: Occupies(w.s, id) ==> id in InBatch(Plains(picks))
    ensures Candidates(w.s.kv, InBatch(Plains(picks))) == {}
  {
    forall id | id in Busy(d) ensures id in InBatch(Plains(picks)) {
      var i :| i in d.running && i < |d.states| && d.states[i].request.id == id;
      assert Desks.Chosen(picks, i);
      var k :| 0 <= k < |picks| && picks[k].index == i;
      RequestOf(d.states[i], picks[k].slice, policy);
      assert Plains(picks)[k].request == id;
    }
    assert forall id :: id in Candidates(w.s.kv, InBatch(Plains(picks))) ==> Occupies(w.s, id);
  }

  lemma {:induction false} MigrateOthers(s: State, ids: seq<nat>, toCold: bool)
    requires MigrateAll(s, ids, toCold).Some?
    ensures MigrateAll(s, ids, toCold).value.kv.Keys == s.kv.Keys
    ensures forall id :: id in s.kv && id !in ids ==> MigrateAll(s, ids, toCold).value.kv[id] == s.kv[id]
    decreases |ids|
  {
    if ids != [] {
      MigrateFrame(s, ids[0], toCold);
      hide Migrate;
      MigrateOthers(Migrate(s, ids[0], toCold).value, ids[1..], toCold);
    }
  }

  /** A reservation without victims leaves the requests outside the batch alone. */
  lemma ReserveOthers(s: State, batch: nat, slices: seq<Slice>, cfg: Config)
    requires cfg.Valid() && Reserve(s, batch, slices, cfg).Some? && MakePlan(s, slices, cfg).victims == []
    ensures Reserve(s, batch, slices, cfg).value.kv.Keys == s.kv.Keys
    ensures forall id :: id in s.kv && id !in InBatch(slices) ==> Reserve(s, batch, slices, cfg).value.kv[id] == s.kv[id]
  {
    hide EvictKeys, MigrateAll, ReserveAll;
    var plan := MakePlan(s, slices, cfg);
    FeasibleMeans(s, slices, cfg);
    SwapInsChosen(s.kv, slices);
    hide MakePlan;
    var s1 := EvictKeys(s, plan.evictions, cfg).value;
    EvictedKeeps(s, plan.evictions, cfg);
    MigrateOthers(s1, [], true);
    var s2 := MigrateAll(s1, plan.victims, true).value;
    var s3 := MigrateAll(s2, plan.swapIn, false).value;
    MigrateOthers(s2, plan.swapIn, false);
    ReserveAllSame(s3, batch, slices, cfg);
  }

  /** After the reservation of a batch that everyone in the hot pool is in. */
  lemma ReservedPlaced(d: Desk, e: Desk, w: World, next: World, picks: seq<Pick>, batch: nat, policy: Policy, cfg: Config)
    requires Placed(d, w) && Rosters.Picked(d.states, picks, policy) && Inv(w.s, cfg) && cfg.Valid()
    requires w.s.pendingBatch.None? || w.s.pendingBatch.value == batch
    requires forall i :: i in d.running ==> Desks.Chosen(picks, i)
    requires w.arriving <= InBatch(Plains(picks)) && next.arriving == {}
    requires Reserve(w.s, batch, Plains(picks), cfg) == Some(next.s)
    requires e.states == d.states && Serving(e.running, picks)
    ensures Placed(e, next) && MakePlan(w.s, Plains(picks), cfg).Feasible? && MakePlan(w.s, Plains(picks), cfg).victims == []
  {
    hide Inv, Reserve, MakePlan, Rosters.Picked, Placed;
    PicksMean(d.states, picks, policy);
    PlannerSound(w.s, batch, Plains(picks), cfg);
    FeasibleMeans(w.s, Plains(picks), cfg);
    NobodyElse(d, w, picks, policy);
    NoVictims(w.s, Plains(picks), cfg);
    ReserveOthers(w.s, batch, Plains(picks), cfg);
    BatchPlaced(d, e, w, next, picks);
  }

  lemma PicksMean(states: seq<RequestState>, picks: seq<Pick>, policy: Policy)
    requires Rosters.Picked(states, picks, policy)
    ensures forall i :: 0 <= i < |Plains(picks)| ==> Plains(picks)[i].count > 0
    ensures forall k :: 0 <= k < |picks| ==>
      picks[k].index < |states| && picks[k].slice.request == states[picks[k].index].request.id == Plains(picks)[k].request
  {
  }

  lemma BatchPlaced(d: Desk, e: Desk, w: World, next: World, picks: seq<Pick>)
    requires Placed(d, w) && next.arriving == {} && e.states == d.states && Serving(e.running, picks)
    requires forall k :: 0 <= k < |picks| ==>
      picks[k].index < |d.states| && picks[k].slice.request == d.states[picks[k].index].request.id == Plains(picks)[k].request
    requires forall id :: Occupies(w.s, id) ==> id in InBatch(Plains(picks))
    requires next.s.kv.Keys == w.s.kv.Keys
    requires forall id :: id in w.s.kv && id !in InBatch(Plains(picks)) ==> next.s.kv[id] == w.s.kv[id]
    requires forall k :: 0 <= k < |picks| && Plains(picks)[k].request in next.s.kv ==> next.s.kv[Plains(picks)[k].request].tier.Hot?
    requires forall k :: 0 <= k < |picks| ==> Plains(picks)[k].request in next.s.kv
    ensures Placed(e, next)
  {
    forall i | i in e.running && i < |e.states| ensures InHot(next.s, e.states[i].request.id) {
      var k :| 0 <= k < |e.running| && e.running[k] == i;
      assert picks[k].index == i && Plains(picks)[k].request == e.states[i].request.id;
    }
    forall id | Occupies(next.s, id) ensures id in Busy(e) {
      assert id !in InBatch(Plains(picks)) ==> Occupies(w.s, id);
      var k :| 0 <= k < |picks| && Plains(picks)[k].request == id;
      assert e.running[k] == picks[k].index && e.running[k] in e.running;
    }
  }

  // -------------------------------------------------------------- other calls

  /** Between two calls of the engine on the plane. */
  ghost predicate Calm(d: Desk, w: World, policy: Policy)
  {
    Paced(d, policy) && Placed(d, w)
  }

  lemma CalmMeans(d: Desk, w: World, policy: Policy)
    requires Calm(d, w, policy)
    ensures Paced(d, policy) && Placed(d, w)
  {
  }

  lemma CalmSame(d: Desk, w: World, next: World, policy: Policy)
    requires Calm(d, w, policy) && next.s.kv == w.s.kv && next.arriving == w.arriving
    ensures Calm(d, next, policy)
  {
  }

  lemma CalmExecuted(d: Desk, w: World, next: World, finish: nat, policy: Policy, cfg: Config)
    requires Calm(d, w, policy) && cfg.Valid() && Sound(w, cfg) && w.arriving == {} && Act(w, Executes(finish), cfg) == Some(next)
    ensures Calm(d, next, policy)
  {
    hide Calm, Sound, Act;
    ExecutesFacts(w, finish, cfg);
    CalmSame(d, w, next, policy);
  }

  /** A new request is registered, and has not got a slice yet. */
  lemma CalmEntered(d: Desk, w: World, v: World, picks: seq<Pick>, budget: nat, i: nat, now: nat, policy: Policy, cfg: Config)
    requires Calm(d, w, policy) && Rationed(d, picks, budget, policy) && Seated(d, policy)
    requires w.arriving == {} && Sound(w, cfg) && cfg.Valid()
    requires i < |d.states| && !d.states[i].admitted && d.states[i].request.Valid() && d.states[i].request.id !in w.s.kv
    requires Act(w, Admits(d.states[i].request, now), cfg) == Some(v) && d.states[i].request.id in v.frontier
    ensures var e := Entering(d, i, v.frontier[d.states[i].request.id]);
      Calm(e, v, policy) && Rationed(e, picks, budget, policy)
  {
    hide Act, Sound, Paced, Placed, Rationed, OnTrack;
    var e := Entering(d, i, v.frontier[d.states[i].request.id]);
    AdmitsFacts(w, d.states[i].request, now, cfg);
    OutsideRoster(d, i);
    hide Roster;
    RunnersPaced(d, e, policy);
    RunnersRationed(d, e, picks, budget, policy);
    EnteredPlaced(d, e, w, v, d.states[i].request.id);
  }

  lemma EnteredPlaced(d: Desk, e: Desk, w: World, v: World, id: nat)
    requires Placed(d, w) && Runners(d, e) && w.arriving == {} && v.arriving == {id}
    requires v.s.kv.Keys == w.s.kv.Keys + {id} && forall j :: j in w.s.kv ==> v.s.kv[j] == w.s.kv[j]
    ensures Placed(e, v)
  {
    RunnersBusy(d, e);
    forall j | Occupies(v.s, j) ensures j in Busy(e) || j in v.arriving {
      assert j != id ==> Occupies(w.s, j);
    }
    forall i | i in e.running && i < |e.states| ensures InHot(v.s, e.states[i].request.id) {
      assert InHot(w.s, d.states[i].request.id);
    }
  }

  /** The running requests are the same, in the same states. */
  ghost predicate Runners(d: Desk, e: Desk)
  {
    e.running == d.running && |e.states| == |d.states| && forall i :: i in d.running && i < |d.states| ==> e.states[i] == d.states[i]
  }

  lemma RunnersBusy(d: Desk, e: Desk)
    requires Runners(d, e)
    ensures Busy(e) == Busy(d)
  {
    forall id | id in Busy(d) ensures id in Busy(e) {
      var i :| i in d.running && i < |d.states| && d.states[i].request.id == id;
      assert e.states[i].request.id == id;
    }
  }

  lemma RunnersPaced(d: Desk, e: Desk, policy: Policy)
    requires Paced(d, policy) && Runners(d, e)
    ensures Paced(e, policy)
  {
    hide Demand;
    if d.running != [] {
      var front := d.running[..|d.running| - 1];
      FrontIn(d.running);
      DemandsLess(d.states, e.states, front, policy);
    }
  }

  lemma RunnersRationed(d: Desk, e: Desk, picks: seq<Pick>, budget: nat, policy: Policy)
    requires Rationed(d, picks, budget, policy) && Runners(d, e)
    ensures Rationed(e, picks, budget, policy)
  {
    hide Demand;
    if budget > 0 {
      forall p | 0 <= p < |picks| ensures Full(e.states, picks[p], policy) {
        assert Full(d.states, picks[p], policy) && picks[p].index == d.running[p] && d.running[p] in d.running;
      }
    }
  }

  /** Everybody with a slice is on the running list, and the other way round. */
  lemma ServingChosen(order: seq<nat>, picks: seq<Pick>)
    requires Serving(order, picks)
    ensures forall i :: i in order ==> Desks.Chosen(picks, i)
  {
    forall i | i in order ensures Desks.Chosen(picks, i) {
      var k :| 0 <= k < |order| && order[k] == i;
      assert picks[k].index == i;
    }
  }

  /** The reservation of the running requests' slices: nobody has to make room for it. */
  lemma CalmReserved(d: Desk, w: World, next: World, picks: seq<Pick>, batch: nat, policy: Policy, cfg: Config)
    requires Calm(d, w, policy) && Rested(d, w, policy) && Rosters.Picked(d.states, picks, policy) && Serving(d.running, picks)
    requires Sound(w, cfg) && cfg.Valid() && next.arriving == {} && Reserve(w.s, batch, Plains(picks), cfg) == Some(next.s)
    ensures Calm(d, next, policy)
    ensures MakePlan(w.s, Plains(picks), cfg).Feasible? && MakePlan(w.s, Plains(picks), cfg).victims == []
  {
    hide Sound, Reserve, MakePlan, Rosters.Picked, Placed, Paced, Rested, Serving;
    RestedMeans(d, w, policy);
    SoundKeys(w, cfg);
    ServingChosen(d.running, picks);
    ReservedPlaced(d, d, w, next, picks, batch, policy, cfg);
  }

  /** The running requests' slices fit, if they would with everybody else gone. */
  lemma RunningFit(d: Desk, w: World, picks: seq<Pick>, batch: nat, policy: Policy, cfg: Config)
    requires Calm(d, w, policy) && Rested(d, w, policy) && Rosters.Picked(d.states, picks, policy) && Serving(d.running, picks)
    requires Sound(w, cfg) && cfg.Valid() && Affordable(w.s, Plains(picks), cfg)
    ensures Reserve(w.s, batch, Plains(picks), cfg).Some?
  {
    hide Sound, Reserve, MakePlan, Rosters.Picked, Placed, Paced, Rested, Serving, Affordable;
    RestedMeans(d, w, policy);
    SoundKeys(w, cfg);
    ServingChosen(d.running, picks);
    PicksMean(d.states, picks, policy);
    NobodyElse(d, w, picks, policy);
    AffordableFeasible(w.s, Plains(picks), cfg);
    PlannerSound(w.s, batch, Plains(picks), cfg);
  }

  /** A waiting request has joined the batch: nobody had to make room for it either. */
  lemma CalmJoined(e: Desk, f: Desk, v: World, u: World, picks: seq<Pick>, pick: Pick, budget: nat, model: Model, batch: nat,
                   policy: Policy, cfg: Config)
    requires cfg.Valid() && pick.slice.count <= budget && budget > 0
    requires Calm(e, v, policy) && Rationed(e, picks, budget, policy) && RunsModel(e, model)
    requires Agrees(e, v, picks, batch, policy) && Agrees(f, u, picks + [pick], batch, policy) && Sound(v, cfg)
    requires pick.index < |e.states| && pick.index !in e.running && e.states[pick.index].request.model == model
    requires f.states == e.states && f.running == e.running + [pick.index]
    requires pick.slice.count == Min(Demand(e.states[pick.index], policy), budget)
    requires v.arriving <= {e.states[pick.index].request.id} && u.arriving == {}
    requires Reserve(v.s, batch, Plains(picks + [pick]), cfg) == Some(u.s)
    ensures Calm(f, u, policy) && Rationed(f, picks + [pick], budget - pick.slice.count, policy) && RunsModel(f, model)
    ensures var plan := MakePlan(v.s, Plains(picks + [pick]), cfg); plan.Feasible? && plan.victims == []
  {
    hide Sound, Reserve, MakePlan, Rosters.Picked, Placed, Paced, Serving, Demand, RunsModel, Rationed, Agrees, Plains;
    JoinedRationed(e, f, picks, pick, budget, model, policy);
    RationedServes(f, picks + [pick], budget - pick.slice.count, policy);
    JoinedPlaced(e, f, v, u, picks, pick, batch, policy, cfg);
  }

  lemma JoinedPlaced(e: Desk, f: Desk, v: World, u: World, picks: seq<Pick>, pick: Pick, batch: nat, policy: Policy, cfg: Config)
    requires Placed(e, v) && Serving(f.running, picks + [pick]) && Sound(v, cfg) && cfg.Valid()
    requires Agrees(e, v, picks, batch, policy) && Agrees(f, u, picks + [pick], batch, policy)
    requires pick.index < |e.states| && f.states == e.states && f.running == e.running + [pick.index]
    requires v.arriving <= {e.states[pick.index].request.id} && u.arriving == {}
    requires Reserve(v.s, batch, Plains(picks + [pick]), cfg) == Some(u.s)
    ensures Placed(f, u)
    ensures MakePlan(v.s, Plains(picks + [pick]), cfg).Feasible? && MakePlan(v.s, Plains(picks + [pick]), cfg).victims == []
  {
    hide Sound, Reserve, MakePlan, Rosters.Picked, Placed, Serving, Agrees, Plains;
    AgreesMeans(e, v, picks, batch, policy);
    AgreesMeans(f, u, picks + [pick], batch, policy);
    SoundKeys(v, cfg);
    ServingChosen(f.running, picks + [pick]);
    ArrivingServed(f, v, picks, pick, policy);
    assert forall i :: i in e.running ==> i in f.running;
    hide Seated, Mirrors, Tracks, Roster, KnownStates, Fed, Desks.Chosen, Inv;
    ReservedPlaced(e, f, v, u, picks + [pick], batch, policy, cfg);
  }

  lemma RationedServes(d: Desk, picks: seq<Pick>, budget: nat, policy: Policy)
    requires Rationed(d, picks, budget, policy)
    ensures Serving(d.running, picks) && Tokens(picks) + budget == policy.maxTokens
  {
  }

  lemma ArrivingServed(f: Desk, v: World, picks: seq<Pick>, pick: Pick, policy: Policy)
    requires Rosters.Picked(f.states, picks + [pick], policy) && pick.index < |f.states|
    requires v.arriving <= {f.states[pick.index].request.id}
    ensures v.arriving <= InBatch(Plains(picks + [pick]))
  {
    PicksMean(f.states, picks + [pick], policy);
    assert (picks + [pick])[|picks|] == pick;
    assert Plains(picks + [pick])[|picks|].request == f.states[pick.index].request.id;
  }

  /** A slice of the batch is booked. */
  lemma CalmBooked(d: Desk, e: Desk, w: World, v: World, i: nat, slice: BatchSlice, policy: Policy)
    requires Calm(d, w, policy) && Seated(d, policy) && policy.Valid() && i < |d.states| && i in d.running && w.arriving == v.arriving == {}
    requires !d.states[i].complete && d.states[i].Bounded() && Lawful(d.states[i], slice, policy) && Advance(d.states[i], slice).Some?
    requires var st := Advance(d.states[i], slice).value;
      && e.states == d.states[i := st] && e.running == (if st.complete then Without(d.running, i) else d.running)
      && v.s.kv == if st.complete then w.s.kv - {st.request.id} else w.s.kv
    ensures Calm(e, v, policy)
  {
    hide Lawful, Advance, Paced, Placed, Demand, Roster, OnTrack;
    var st := Advance(d.states[i], slice).value;
    LawfulAdvance(d.states[i], slice, policy);
    if !st.complete {
      AdvanceDemand(d.states[i], slice, policy);
    }
    SeatedMeans(d, policy);
    BookedPaced(d, e, i, st, policy);
    BookedPlaced(d, e, w, v, i, st);
  }

  lemma BookedPlaced(d: Desk, e: Desk, w: World, v: World, i: nat, st: RequestState)
    requires Placed(d, w) && KnownStates(d.states) && Distinctive(d.running) && i < |d.states| && i in d.running
    requires st.request == d.states[i].request && w.arriving == v.arriving == {}
    requires e.states == d.states[i := st] && e.running == (if st.complete then Without(d.running, i) else d.running)
    requires v.s.kv == if st.complete then w.s.kv - {st.request.id} else w.s.kv
    requires forall j :: j in d.running ==> j < |d.states|
    ensures Placed(e, v)
  {
    WithoutIs(d.running, i);
    DistinctIds(d.states, i);
    hide KnownStates;
    BookedHot(d, e, w, v, i, st);
    hide InHot, Occupies;
    forall id | Occupies(v.s, id) ensures id in Busy(e) {
      OccupiedBefore(w.s, v.s, id);
      var j :| j in d.running && j < |d.states| && d.states[j].request.id == id;
      assert j in e.running && e.states[j].request.id == id;
    }
  }

  lemma OccupiedBefore(s: State, t: State, id: nat)
    requires Occupies(t, id) && forall j :: j in t.kv ==> j in s.kv && s.kv[j] == t.kv[j]
    ensures Occupies(s, id)
  {
  }

  /** Who still runs is still in the hot pool. */
  lemma BookedHot(d: Desk, e: Desk, w: World, v: World, i: nat, st: RequestState)
    requires Placed(d, w) && i < |d.states| && st.request == d.states[i].request && w.arriving == v.arriving == {}
    requires e.states == d.states[i := st] && forall j :: j in e.running ==> j in d.running && (st.complete ==> j != i)
    requires forall j :: 0 <= j < |d.states| && j != i ==> d.states[j].request.id != d.states[i].request.id
    requires v.s.kv == if st.complete then w.s.kv - {st.request.id} else w.s.kv
    ensures forall j :: j in e.running && j < |e.states| ==> InHot(v.s, e.states[j].request.id)
  {
    forall j | j in e.running && j < |e.states| ensures InHot(v.s, e.states[j].request.id) {
      assert InHot(w.s, d.states[j].request.id);
    }
  }

  // ------------------------------------------- the pass over the running requests

  /** The youngest running request has gone. */
  lemma CalmDemoted(d: Desk, e: Desk, w: World, next: World, policy: Policy, cfg: Config)
    requires Rested(d, w, policy) && Calm(d, w, policy) && Sound(w, cfg) && cfg.Valid()
    requires Demotion(d, w, e, next, policy, cfg)
    requires Act(w, Preempts(d.states[d.running[|d.running| - 1]].request.id), cfg) == Some(next)
    ensures Calm(e, next, policy)
  {
    hide Sound, Act, Rested, Roomy, Inv, Preempt, Paced, Placed, Demoted, Affordable;
    RestedMeans(d, w, policy);
    SoundKeys(w, cfg);
    DemotedOne(d, e);
    PreemptsFacts(w, d.states[d.running[|d.running| - 1]].request.id, cfg);
    DemotedPlaced(d, e, w, next, policy, cfg);
    ShedSelf(d);
    ShedStep(d, d, e, policy);
    ShedPaced(d, e, policy);
  }

  lemma DemotedOne(d: Desk, e: Desk)
    requires Demoted(d, e)
    ensures d.running != [] && d.running[|d.running| - 1] < |d.states|
  {
  }

  /** The next position of the running order: who still runs is of the batch's model, is as it was,
      and finds budget left. */
  lemma TurnComes(d: Desk, w: World, e: Desk, v: World, k: nat, selected: seq<Pick>, budget: nat, model: Model,
                  policy: Policy, cfg: Config)
    requires Sweeping(d, w, e, v, k, selected, budget, model, policy, cfg) && Dealing(d, e, k, selected, budget, policy)
    requires Paced(d, policy) && Rested(d, w, policy) && RunsModel(d, model) && k < |d.running|
    ensures d.running[k] in e.running ==>
      && k < |e.running| && budget > 0 && d.running[k] < |d.states| == |e.states|
      && e.states[d.running[k]] == d.states[d.running[k]] && d.states[d.running[k]].request.model == model
    ensures d.running[k] !in e.running ==> Dealing(d, e, k + 1, selected, budget, policy)
  {
    hide Rested, Swept, Paced, Dealing, Rosters.Picked, Ahead, Tokens, Affordable, Roomy;
    SweptShed(d, w, e, v, selected, policy, cfg);
    RestedDistinct(d, w, policy);
    RestedMeans(d, w, policy);
    assert d.running[k] in d.running;
    StillThere(d.running, k, e.running);
    if d.running[k] in e.running {
      PlaceOf(d.running, k, e.running);
      BudgetLeft(d, e, k, selected, budget, policy);
    } else {
      DealtGone(d, e, e, k, selected, budget, policy);
    }
  }

  lemma StillThere(order: seq<nat>, k: nat, running: seq<nat>)
    requires k < |order| && |running| <= |order| && running == order[..|running|]
    ensures k < |running| ==> order[k] in running
  {
    assert forall j :: 0 <= j < |running| ==> running[j] == order[j];
  }

  lemma TurnTaken(d: Desk, w: World, e: Desk, v: World, f: Desk, u: World, k: nat, kept: bool, selected: seq<Pick>, budget: nat,
                  slice: BatchSlice, policy: Policy, cfg: Config)
    requires Dealing(d, e, k, selected, budget, policy) && Swept(e, v, f, u, selected, policy, cfg) && policy.Valid()
    requires Paced(d, policy) && k < |e.running| && k < |d.running| && kept == (k < |f.running|) && k <= |f.running|
    requires d.running[k] < |d.states| && budget > 0 && SliceOf(d.states[d.running[k]], budget, policy) == Some(slice)
    ensures kept ==> slice.count <= budget && Dealing(d, f, k + 1, selected + [Pick(d.running[k], slice)], budget - slice.count, policy)
    ensures !kept ==> Dealing(d, f, k + 1, selected, budget, policy)
  {
    hide Swept, Paced, Dealing, Demand, SliceOf;
    SweptShed(e, v, f, u, selected, policy, cfg);
    SliceCount(d.states[d.running[k]], budget, policy);
    if kept {
      DealtNext(d, e, f, k, selected, budget, Pick(d.running[k], slice), policy);
    } else {
      DealtGone(d, e, f, k, selected, budget, policy);
    }
  }

  /** Everybody who still runs has a slice. */
  lemma TurnsOver(d: Desk, w: World, e: Desk, v: World, selected: seq<Pick>, budget: nat, model: Model, policy: Policy, cfg: Config)
    requires Sweeping(d, w, e, v, |d.running|, selected, budget, model, policy, cfg)
    requires Dealing(d, e, |d.running|, selected, budget, policy) && RunsModel(d, model)
    ensures Rationed(e, selected, budget, policy) && RunsModel(e, model)
  {
    hide Swept, Dealing, Rosters.Picked, Ahead, Tokens, Affordable, Roomy, Rationed;
    SweptShed(d, w, e, v, selected, policy, cfg);
    DealtRationed(d, e, selected, budget, policy);
    ShedModel(d, e, model);
  }

  /** Whoever is first on the running list decides on the model for all. */
  lemma HeadDecides(d: Desk, model: Model, policy: Policy)
    requires Paced(d, policy) && (d.running != [] ==> HeadOf(d, model))
    ensures RunsModel(d, model)
  {
    hide Demands;
    if d.running != [] {
      assert d.running[0] in d.running;
    }
  }

  // --------------------------------------------- the pass over the waiting ones

  /** Every running request is hot and has its slice. */
  ghost predicate Fair(d: Desk, w: World, picks: seq<Pick>, budget: nat, model: Model, policy: Policy)
  {
    Calm(d, w, policy) && Rationed(d, picks, budget, policy) && RunsModel(d, model)
  }

  lemma FairServes(d: Desk, w: World, picks: seq<Pick>, budget: nat, model: Model, policy: Policy)
    requires Fair(d, w, picks, budget, model, policy)
    ensures |picks| == |d.running|
  {
  }

  lemma FairRest(d: Desk, w: World, picks: seq<Pick>, budget: nat, model: Model, policy: Policy)
    requires Fair(d, w, picks, budget, model, policy)
    ensures Passes.Rest(picks, policy) == budget
  {
  }

  lemma FairMeans(d: Desk, w: World, picks: seq<Pick>, budget: nat, model: Model, policy: Policy)
    requires Fair(d, w, picks, budget, model, policy)
    ensures Calm(d, w, policy) && Serving(d.running, picks) && (picks == [] ==> d.running == [])
  {
  }

  lemma FairEntered(d: Desk, w: World, v: World, picks: seq<Pick>, budget: nat, model: Model, i: nat, now: nat, batch: nat,
                    policy: Policy, cfg: Config)
    requires Fair(d, w, picks, budget, model, policy) && Agrees(d, w, picks, batch, policy)
    requires w.arriving == {} && Sound(w, cfg) && cfg.Valid()
    requires i < |d.states| && !d.states[i].admitted && d.states[i].request.Valid() && d.states[i].request.id !in w.s.kv
    requires Act(w, Admits(d.states[i].request, now), cfg) == Some(v) && d.states[i].request.id in v.frontier
    ensures Fair(Entering(d, i, v.frontier[d.states[i].request.id]), v, picks, budget, model, policy)
  {
    hide Act, Sound, Calm, Rationed, Agrees;
    AgreesMeans(d, w, picks, batch, policy);
    OutsideRoster(d, i);
    CalmEntered(d, w, v, picks, budget, i, now, policy, cfg);
  }

  /** A new request that did not fit is gone again. */
  lemma FairLeft(d: Desk, w: World, e: Desk, v: World, u: World, picks: seq<Pick>, budget: nat, model: Model, i: nat, batch: nat,
                 policy: Policy, cfg: Config)
    requires Fair(d, w, picks, budget, model, policy) && w.arriving == {} && Sound(v, cfg) && cfg.Valid()
    requires Admissions.Before(d, w, e, v, picks, i, batch, policy, cfg)
    requires if d.states[i].admitted then u == v
             else d.states[i].request.id !in InBatch(v.reserved) && Act(v, Releases(d.states[i].request.id), cfg) == Some(u)
    ensures Fair(d, u, picks, budget, model, policy)
  {
    hide Act, Sound, Calm, Rationed, Agrees, RunsModel, Roomy;
    if !d.states[i].admitted {
      ReleasesFacts(v, d.states[i].request.id, cfg);
      CalmSame(d, w, u, policy);
    }
  }

  /** A waiting request did not fit, and everything is as it was before it was tried. */
  lemma Declined(d: Desk, w: World, e: Desk, v: World, u: World, picks: seq<Pick>, budget: nat, model: Model, i: nat, batch: nat,
                 policy: Policy, cfg: Config)
    requires Fair(d, w, picks, budget, model, policy) && w.arriving == {} && Sound(v, cfg) && cfg.Valid()
    requires Admissions.Before(d, w, e, v, picks, i, batch, policy, cfg) && i < |d.states|
    requires if d.states[i].admitted then u == v else Act(v, Releases(d.states[i].request.id), cfg) == Some(u)
    requires Roomy(d, w, cfg) ==> d.running != [] || picks != []
    ensures Admission(d, w, d, u, picks, None, i, batch, policy, cfg) && Fair(d, u, picks, budget, model, policy)
  {
    hide Act, Sound, Agrees, Roomy, Fair, Admissions.Before, Admission;
    NewOutsideBatch(d, w, e, v, picks, i, batch, policy, cfg);
    LeftOut(d, w, e, v, u, picks, i, batch, policy, cfg);
    FairLeft(d, w, e, v, u, picks, budget, model, i, batch, policy, cfg);
  }

  /** The request runs; nobody had to make room for it. */
  lemma FairJoined(d: Desk, w: World, e: Desk, f: Desk, v: World, u: World, picks: seq<Pick>, pick: Pick, budget: nat, model: Model,
                   batch: nat, policy: Policy, cfg: Config)
    requires Admissions.Before(d, w, e, v, picks, pick.index, batch, policy, cfg) && Sound(v, cfg) && cfg.Valid() && policy.Valid()
    requires Fair(e, v, picks, budget, model, policy) && budget > 0
    requires pick.index < |e.states| && e.states[pick.index].request.model == model
    requires SliceOf(e.states[pick.index], budget, policy) == Some(pick.slice)
    requires Admission(d, w, f, u, picks, Some(pick), pick.index, batch, policy, cfg) && f == Committed(e, pick.index)
    requires Reserve(v.s, batch, Plains(picks + [pick]), cfg) == Some(u.s)
    ensures pick.slice.count <= budget && Fair(f, u, picks + [pick], budget - pick.slice.count, model, policy)
    ensures MakePlan(v.s, Plains(picks + [pick]), cfg).Feasible? && MakePlan(v.s, Plains(picks + [pick]), cfg).victims == []
  {
    hide Sound, Calm, Rationed, Agrees, RunsModel, Roomy, Reserve, MakePlan, Plains, SliceOf, Demand;
    SliceCount(e.states[pick.index], budget, policy);
    CalmJoined(e, f, v, u, picks, pick, budget, model, batch, policy, cfg);
  }

  /** The slices of all running requests can be reserved together. */
  lemma RunningReady(e: Desk, v: World, picks: seq<Pick>, budget: nat, model: Model, batch: nat, policy: Policy, cfg: Config)
    requires Fair(e, v, picks, budget, model, policy) && Rested(e, v, policy) && Rosters.Picked(e.states, picks, policy) && picks != []
    requires Sound(v, cfg) && cfg.Valid() && Affordable(v.s, Plains(picks), cfg)
    requires forall k :: 0 <= k < |picks| ==> picks[k].index in e.running
    ensures Proper(v, Plains(picks)) && v.reserved + Plains(picks) == Plains(picks)
    ensures Reserve(v.s, batch, Plains(picks), cfg).Some?
  {
    hide Rested, Sound, Proper, Reserve, Act, Calm, MakePlan, Affordable, Rationed, RunsModel, Rosters.Picked, Serving;
    FirstReserved(e, v, v, picks, batch, policy, cfg);
    RationedServes(e, picks, budget, policy);
    RunningFit(e, v, picks, batch, policy, cfg);
  }

  /** And then nobody has been swapped out. */
  lemma RunningReserved(e: Desk, v: World, u: World, picks: seq<Pick>, budget: nat, model: Model, batch: nat, policy: Policy, cfg: Config)
    requires Fair(e, v, picks, budget, model, policy) && Rested(e, v, policy) && Rosters.Picked(e.states, picks, policy) && picks != []
    requires Sound(v, cfg) && cfg.Valid() && Act(v, Reserves(batch, Plains(picks)), cfg) == Some(u)
    requires forall k :: 0 <= k < |picks| ==> picks[k].index in e.running
    ensures Fair(e, u, picks, budget, model, policy)
    ensures var plan := MakePlan(v.s, Plains(picks), cfg); plan.Feasible? && plan.victims == []
  {
    hide Rested, Sound, Proper, Reserve, Act, Calm, MakePlan, Affordable, Rationed, RunsModel, Rosters.Picked, Serving;
    FirstReserved(e, v, u, picks, batch, policy, cfg);
    ReservesFacts(v, batch, Plains(picks), cfg);
    RationedServes(e, picks, budget, policy);
    CalmReserved(e, v, u, picks, batch, policy, cfg);
  }

  // --------------------------------------------------------------- completion

  /** One slice is booked. */
  lemma BookingCalm(d: Desk, w: World, e: Desk, v: World, todo: seq<Pick>, policy: Policy, cfg: Config)
    requires Calm(d, w, policy) && Owes(d, w, todo, policy) && policy.Valid() && Sound(w, cfg) && cfg.Valid()
    requires Booking(d, w, e, v, todo, policy, cfg)
    requires var st := Advance(d.states[todo[0].index], todo[0].slice).value;
      if st.complete then st.request.id in w.s.kv && Act(w, Releases(st.request.id), cfg) == Some(v) else v == w
    ensures Calm(e, v, policy)
  {
    hide Sound, Act, Calm, Roomy, Lawful, Seated, Mirrors, Tracks, Rosters.Picked, Fed, AllDelivered;
    var i := todo[0].index;
    var st := Advance(d.states[i], todo[0].slice).value;
    OwesSeated(d, w, todo, policy);
    Due(d, w, todo, policy);
    if st.complete {
      DueOutside(d, w, todo, policy);
      ReleasesFacts(w, st.request.id, cfg);
    }
    CalmBooked(d, e, w, v, i, todo[0].slice, policy);
  }
}
