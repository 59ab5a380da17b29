/** What admitting waiting requests into a batch keeps, as lemmas on values. */
module Admissions {
  import opened PrefixKeys
  import opened PlacementSpec
  import opened PlacementInvariant
  import opened KvRuns
  import opened WorldFacts
  import opened LeanPlane
  import opened Frontiers
  import opened Rosters
  import opened Desks
  import opened Sweeps

  lemma AgreesMeans(d: Desk, w: World, picks: seq<Pick>, batch: nat, policy: Policy)
    requires Agrees(d, w, picks, batch, policy)
    ensures Seated(d, policy) && KnownStates(d.states) && Roster(d.states, d.running, d.resumed)
    ensures Mirrors(d.states, w) && Tracks(d.states, w.frontier, picks) && Picked(d.states, picks, policy)
    ensures w.reserved == Plains(picks) && Fed(d, picks)
    ensures w.s.pendingBatch.None? || w.s.pendingBatch.value == batch
  {
  }

  lemma RestedAgrees(d: Desk, w: World, batch: nat, policy: Policy)
    requires Rested(d, w, policy)
    ensures Agrees(d, w, [], batch, policy) && w.arriving == {}
  {
  }

  // ------------------------------------------------ the running requests' slices

  /** Reserving what the pass over the running requests selected. */
  lemma FirstReserved(d: Desk, w: World, next: World, picks: seq<Pick>, batch: nat, policy: Policy, cfg: Config)
    requires Rested(d, w, policy) && Picked(d.states, picks, policy) && picks != [] && Sound(w, cfg) && cfg.Valid()
    requires forall k :: 0 <= k < |picks| ==> picks[k].index in d.running
    ensures Proper(w, Plains(picks)) && w.reserved + Plains(picks) == Plains(picks)
    ensures Act(w, Reserves(batch, Plains(picks)), cfg) == Some(next) ==> Agrees(d, next, picks, batch, policy) && next.arriving == {}
  {
    hide Act, Sound, Proper, Mirrors, Tracks, Seated, Picked, KnownStates, Roster;
    RestedAgrees(d, w, batch, policy);
    AgreesMeans(d, w, [], batch, policy);
    FirstProper(d.states, w, picks, policy);
    if Act(w, Reserves(batch, Plains(picks)), cfg) == Some(next) {
      ReservesFacts(w, batch, Plains(picks), cfg);
      ActSound(w, Reserves(batch, Plains(picks)), cfg);
      SoundKeys(next, cfg);
      KeepMirrors(d.states, w, next);
      AdvancedTracks(d.states, w.frontier, picks, policy);
      FedStill(d, picks);
    }
  }

  lemma FedStill(d: Desk, picks: seq<Pick>)
    requires Fed(d, []) && forall k :: 0 <= k < |picks| ==> picks[k].index in d.running
    ensures Fed(d, picks)
  {
    assert forall i :: !Desks.Chosen([], i);
  }

  // --------------------------------------------------------------- one admission

  ghost function Entering(d: Desk, i: nat, cached: nat): Desk
    requires i < |d.states|
  {
    d.(states := d.states[i := d.states[i].(processed := cached, admitted := true)], resumed := d.resumed + [i])
  }

  /** A request that was never admitted enters behind its cached prefix. */
  lemma AdmitAgrees(d: Desk, w: World, next: World, picks: seq<Pick>, batch: nat, i: nat, now: nat, policy: Policy, cfg: Config)
    requires Agrees(d, w, picks, batch, policy) && w.arriving == {} && Sound(w, cfg) && cfg.Valid()
    requires i < |d.states| && !d.states[i].admitted
    ensures d.states[i].request.Valid() && d.states[i].request.id !in w.s.kv
    ensures Act(w, Admits(d.states[i].request, now), cfg) == Some(next) ==>
      && d.states[i].request.id in next.frontier && next.frontier[d.states[i].request.id] < d.states[i].request.promptTokens
      && Agrees(Entering(d, i, next.frontier[d.states[i].request.id]), next, picks, batch, policy)
      && next.arriving == {d.states[i].request.id}
      && next.frontier - {d.states[i].request.id} == w.frontier
      && next.s.kv - {d.states[i].request.id} == w.s.kv
  {
    hide Act, Sound, Mirrors, Tracks, Seated, Picked, Roster;
    var id := d.states[i].request.id;
    AgreesMeans(d, w, picks, batch, policy);
    NotLive(d, w, i);
    hide KnownStates, Agrees, Entering, Fed, OnTrack, Inv;
    if Act(w, Admits(d.states[i].request, now), cfg) == Some(next) {
      AdmitsFacts(w, d.states[i].request, now, cfg);
      ActSound(w, Admits(d.states[i].request, now), cfg);
      SoundKeys(next, cfg);
      SoundKeys(w, cfg);
      EnteringAgrees(d, w, next, picks, batch, i, policy);
      MapBack(w.frontier, next.frontier, id);
      MapBack(w.s.kv, next.s.kv, id);
    }
  }

  lemma MapBack<T>(before: map<nat, T>, after: map<nat, T>, id: nat)
    requires id !in before && after.Keys == before.Keys + {id} && forall j :: j in before ==> after[j] == before[j]
    ensures after - {id} == before
  {
  }

  lemma NotLive(d: Desk, w: World, i: nat)
    requires KnownStates(d.states) && Mirrors(d.states, w) && i < |d.states| && !d.states[i].admitted
    ensures d.states[i].request.Valid() && d.states[i].request.id !in w.s.kv
  {
    assert !Live(d.states[i]);
  }

  lemma EnteringAgrees(d: Desk, w: World, next: World, picks: seq<Pick>, batch: nat, i: nat, policy: Policy)
    requires Agrees(d, w, picks, batch, policy) && i < |d.states| && !d.states[i].admitted
    requires var id := d.states[i].request.id;
      && id in next.frontier && next.frontier[id] < d.states[i].request.promptTokens
      && next.s.kv.Keys == w.s.kv.Keys + {id} && next.s.kv[id].request == d.states[i].request
      && (forall j :: j in w.s.kv ==> next.s.kv[j] == w.s.kv[j])
      && next.frontier == w.frontier[id := next.frontier[id]] && next.frontier.Keys == next.s.kv.Keys
      && next.reserved == w.reserved && next.s.pendingBatch == w.s.pendingBatch
    ensures Agrees(Entering(d, i, next.frontier[d.states[i].request.id]), next, picks, batch, policy)
  {
    hide Mirrors, Tracks, Picked, Fed, OnTrack, Roster, KnownStates;
    AgreesMeans(d, w, picks, batch, policy);
    var cached := next.frontier[d.states[i].request.id];
    var e := Entering(d, i, cached);
    AdmitRoster(d.states, d.running, d.resumed, i, cached);
    EnteringPicked(d, picks, i, cached, policy);
    EnteringMirrors(d.states, w, next, i, e.states[i]);
    EnteringTracks(d.states, w.frontier, next.frontier, picks, i, e.states[i]);
    EnteringFed(d, picks, i, cached);
  }

  lemma EnteringFed(d: Desk, picks: seq<Pick>, i: nat, cached: nat)
    requires Fed(d, picks) && i < |d.states| && i !in d.running
    ensures Fed(Entering(d, i, cached), picks)
  {
    var e := Entering(d, i, cached);
    forall j | j in e.running && j < |e.states| ensures e.states[j].processed > 0 || Desks.Chosen(picks, j) {
      assert j in d.running && j < |d.states| && j != i;
      assert d.states[j].processed > 0 || Desks.Chosen(picks, j);
    }
  }

  lemma EnteringPicked(d: Desk, picks: seq<Pick>, i: nat, cached: nat, policy: Policy)
    requires Picked(d.states, picks, policy) && i < |d.states| && !d.states[i].admitted
    ensures Picked(Entering(d, i, cached).states, picks, policy)
    ensures forall k :: 0 <= k < |picks| ==> picks[k].index != i
  {
  }

  lemma EnteringMirrors(states: seq<RequestState>, w: World, next: World, i: nat, st: RequestState)
    requires KnownStates(states) && Mirrors(states, w) && i < |states| && !Live(states[i]) && Live(st)
    requires st.request == states[i].request
    requires var id := st.request.id;
      && next.s.kv.Keys == w.s.kv.Keys + {id} && next.s.kv[id].request == st.request
      && (forall j :: j in w.s.kv ==> next.s.kv[j] == w.s.kv[j]) && next.frontier.Keys == next.s.kv.Keys
    ensures Mirrors(states[i := st], next)
  {
    hide Owned;
    var states' := states[i := st];
    forall id | id in next.s.kv ensures Owned(states', id) {
      if id in w.s.kv {
        OwnedStill(states, i, st, id);
      } else {
        OwnedAt(states', i, id);
      }
    }
    DistinctIds(states, i);
    hide KnownStates;
  }

  lemma OwnedAt(states: seq<RequestState>, i: nat, id: nat)
    requires i < |states| && states[i].request.id == id
    ensures Owned(states, id)
  {
  }

  lemma DistinctIds(states: seq<RequestState>, i: nat)
    requires KnownStates(states) && i < |states|
    ensures forall j :: 0 <= j < |states| && j != i ==> states[j].request.id != states[i].request.id
  {
  }

  lemma EnteringTracks(states: seq<RequestState>, frontier: map<nat, nat>, frontier': map<nat, nat>, picks: seq<Pick>,
                       i: nat, st: RequestState)
    requires KnownStates(states) && Tracks(states, frontier, picks) && i < |states| && st.request == states[i].request
    requires frontier' == frontier[st.request.id := st.processed]
    requires forall k :: 0 <= k < |picks| ==> picks[k].index != i
    ensures Tracks(states[i := st], frontier', picks)
  {
    var states' := states[i := st];
    FrontUnpicked(st, i, picks);
    forall j | 0 <= j < |states'| && Live(states'[j]) ensures Tracked(states'[j], j, frontier', picks) {
      if j != i {
        assert Tracked(states[j], j, frontier, picks);
      }
    }
  }

  /** Taking the request back out leaves the desk as it was. */
  lemma RollbackAgrees(d: Desk, w: World, w1: World, w2: World, picks: seq<Pick>, batch: nat, policy: Policy)
    requires Agrees(d, w, picks, batch, policy)
    requires w2.s.kv == w.s.kv && w2.frontier == w.frontier && w2.reserved == w.reserved
    requires w2.s.pendingBatch == w.s.pendingBatch
    ensures Agrees(d, w2, picks, batch, policy)
  {
    hide KnownStates, Tracks, Picked, Roster, Fed, OnTrack, Live;
  }

  ghost function Committed(d: Desk, i: nat): Desk
  {
    d.(running := d.running + [i], resumed := Without(d.resumed, i))
  }

  /** The request's slice is reserved with the others, and it runs. */
  lemma CommitAgrees(d: Desk, w: World, next: World, picks: seq<Pick>, pick: Pick, batch: nat, policy: Policy, cfg: Config)
    requires Agrees(d, w, picks, batch, policy) && Sound(w, cfg) && cfg.Valid()
    requires pick.index < |d.states| && pick.index in d.resumed && |d.running| < policy.maxRequests
    requires Lawful(d.states[pick.index], pick.slice, policy) && w.arriving <= {d.states[pick.index].request.id}
    ensures Proper(w, [pick.slice.Plain()]) && w.reserved + [pick.slice.Plain()] == Plains(picks + [pick])
    ensures Act(w, Reserves(batch, [pick.slice.Plain()]), cfg) == Some(next) ==>
      Agrees(Committed(d, pick.index), next, picks + [pick], batch, policy) && next.arriving == {}
    ensures pick.index !in d.running && Live(d.states[pick.index])
  {
    hide Act, Sound, Proper, Mirrors, Tracks, Roster, Picked, KnownStates, Lawful, OnTrack, Fed;
    AgreesMeans(d, w, picks, batch, policy);
    SeatedMeans(d, policy);
    CommitRoster(d.states, d.running, d.resumed, pick.index);
    CommitPicked(d, picks, pick, policy);
    NextProper(d.states, w, picks, pick, policy);
    if Act(w, Reserves(batch, [pick.slice.Plain()]), cfg) == Some(next) {
      ReservesFacts(w, batch, [pick.slice.Plain()], cfg);
      ActSound(w, Reserves(batch, [pick.slice.Plain()]), cfg);
      SoundKeys(next, cfg);
      KeepMirrors(d.states, w, next);
      RequestOf(d.states[pick.index], pick.slice, policy);
      OneTracks(d.states, w.frontier, picks, pick);
    }
  }

  lemma CommitPicked(d: Desk, picks: seq<Pick>, pick: Pick, policy: Policy)
    requires Picked(d.states, picks, policy) && Fed(d, picks) && pick.index < |d.states| && Live(d.states[pick.index])
    requires Lawful(d.states[pick.index], pick.slice, policy) && pick.index !in d.running
    ensures Picked(d.states, picks + [pick], policy) && Fed(Committed(d, pick.index), picks + [pick])
  {
    PickedPush(d.states, picks, pick, policy);
    var longer := picks + [pick];
    assert longer[|picks|] == pick;
    var e := Committed(d, pick.index);
    forall j | j in e.running && j < |e.states| ensures e.states[j].processed > 0 || Desks.Chosen(longer, j) {
      if j in d.running && Desks.Chosen(picks, j) {
        var k :| 0 <= k < |picks| && picks[k].index == j;
        assert longer[k].index == j;
      }
    }
  }

  // ------------------------------------------------------------- roomy planes

  lemma BusyPicks(d: Desk, picks: seq<Pick>, policy: Policy)
    requires Picked(d.states, picks, policy) && forall k :: 0 <= k < |picks| ==> picks[k].index in d.running
    ensures InBatch(Plains(picks)) <= Busy(d)
  {
    forall id | id in InBatch(Plains(picks)) ensures id in Busy(d) {
      var k :| 0 <= k < |picks| && Plains(picks)[k].request == id;
      RequestOf(d.states[picks[k].index], picks[k].slice, policy);
    }
  }

  lemma ReserveRoomy(d: Desk, e: Desk, w: World, next: World, picks: seq<Pick>, batch: nat, policy: Policy, cfg: Config)
    requires Roomy(d, w, cfg) && Sound(w, cfg) && e.states == d.states && Picked(e.states, picks, policy)
    requires forall k :: 0 <= k < |picks| ==> picks[k].index in e.running
    requires Busy(d) <= Busy(e) && Reserve(w.s, batch, Plains(picks), cfg) == Some(next.s)
    ensures Roomy(e, next, cfg)
  {
    hide Reserve, Sound, Picked, KnownStates;
    SoundKeys(w, cfg);
    BusyPicks(e, picks, policy);
    ReserveTidy(w.s, batch, Plains(picks), Busy(d), cfg);
  }

  lemma EnterRoomy(d: Desk, w: World, next: World, i: nat, now: nat, cached: nat, keys: seq<Key>, cfg: Config, policy: Policy)
    requires Roomy(d, w, cfg) && i < |d.states| && KnownStates(Entering(d, i, cached).states)
    requires Admit(w.s, d.states[i].request, keys, now, cfg) == Some(next.s) && i !in d.running
    ensures Roomy(Entering(d, i, cached), next, cfg)
  {
    hide KnownStates, Admit;
    assert d.states[i].request.Valid() by {
      ValidOne(d, i, w, cfg);
    }
    AdmitTidy(w.s, d.states[i].request, keys, now, Busy(d), cfg);
    assert Busy(Entering(d, i, cached)) == Busy(d);
  }

  lemma ValidOne(d: Desk, i: nat, w: World, cfg: Config)
    requires Roomy(d, w, cfg) && i < |d.states|
    ensures d.states[i].request.Valid()
  {
  }

  lemma ReleaseRoomy(d: Desk, w: World, next: World, id: nat, cfg: Config)
    requires Roomy(d, w, cfg) && Release(w.s, id) == Some(next.s)
    ensures Roomy(d, next, cfg)
  {
    hide KnownStates, Release;
    ReleaseTidy(w.s, id, Busy(d));
  }

  // --------------------------------------------------------- the admission pass

  /** One waiting request was either scheduled, behind all running ones, or left as it was. */
  ghost predicate Admission(d: Desk, w: World, f: Desk, u: World, picks: seq<Pick>, more: Option<Pick>, i: nat, batch: nat,
                            policy: Policy, cfg: Config)
  {
    && Agrees(f, u, if more.Some? then picks + [more.value] else picks, batch, policy) && u.arriving == {}
    && (more.None? ==> f == d)
    && (more.Some? ==>
         && more.value.index == i && i < |d.states| == |f.states| && f.running == d.running + [i]
         && f.states == d.states[i := f.states[i]] && SameIdentity(d.states[i].(admitted := true), f.states[i])
         && f.resumed == Without(d.resumed, i) && f.tainted == d.tainted)
    && (Roomy(d, w, cfg) ==> Roomy(f, u, cfg) && (d.running == [] && picks == [] ==> more.Some?))
  }

  /** The desk before the slice is decided: a new request has entered, a resumed one is there. */
  ghost predicate Before(d: Desk, w: World, e: Desk, v: World, picks: seq<Pick>, i: nat, batch: nat, policy: Policy, cfg: Config)
  {
    && Agrees(d, w, picks, batch, policy) && Agrees(e, v, picks, batch, policy)
    && i < |d.states| && !d.states[i].complete && i in e.resumed && i !in e.running
    && e.running == d.running && e.tainted == d.tainted && Without(e.resumed, i) == Without(d.resumed, i)
    && |e.states| == |d.states| && e.states == d.states[i := e.states[i]]
    && e.states[i] == d.states[i].(admitted := true, processed := e.states[i].processed)
    && v.arriving == (if d.states[i].admitted then {} else {d.states[i].request.id})
    && (d.states[i].admitted ==> e == d && v == w)
    && (!d.states[i].admitted ==>
          && d.states[i].request.id in v.s.kv
          && v.s.kv - {d.states[i].request.id} == w.s.kv && v.frontier - {d.states[i].request.id} == w.frontier
          && v.reserved == w.reserved && v.s.pendingBatch == w.s.pendingBatch)
    && (Roomy(d, w, cfg) ==> Roomy(e, v, cfg))
  }

  lemma EnteredBefore(d: Desk, w: World, v: World, picks: seq<Pick>, i: nat, now: nat, batch: nat, policy: Policy, cfg: Config)
    requires Agrees(d, w, picks, batch, policy) && w.arriving == {} && Sound(w, cfg) && cfg.Valid()
    requires i < |d.states| && !d.states[i].admitted && d.states[i].request.Valid()
    requires Act(w, Admits(d.states[i].request, now), cfg) == Some(v) && d.states[i].request.id in v.frontier
    ensures Before(d, w, Entering(d, i, v.frontier[d.states[i].request.id]), v, picks, i, batch, policy, cfg)
  {
    hide Act, Sound, Agrees, Roomy, Roster, Entering, Without, Mirrors, Tracks, Picked, Fed, Seated, KnownStates;
    AdmitAgrees(d, w, v, picks, batch, i, now, policy, cfg);
    AdmitsFacts(w, d.states[i].request, now, cfg);
    var cached := v.frontier[d.states[i].request.id];
    AgreesMeans(d, w, picks, batch, policy);
    AgreesMeans(Entering(d, i, cached), v, picks, batch, policy);
    EnteredLists(d, i, cached);
    if Roomy(d, w, cfg) {
      AdmitActs(w, d.states[i].request, now, v, cfg);
      EnterRoomy(d, w, v, i, now, cached, KeysFor(d.states[i].request, cfg.blockTokens), cfg, policy);
    }
  }

  /** Entering changes one request and the list of those to resume. */
  lemma EnteredLists(d: Desk, i: nat, cached: nat)
    requires Roster(d.states, d.running, d.resumed) && i < |d.states| && !d.states[i].admitted
    ensures var e := Entering(d, i, cached);
      && !d.states[i].complete && i in e.resumed && i !in e.running
      && e.running == d.running && e.tainted == d.tainted && Without(e.resumed, i) == Without(d.resumed, i)
      && |e.states| == |d.states| && e.states == d.states[i := e.states[i]]
      && e.states[i] == d.states[i].(admitted := true, processed := e.states[i].processed)
  {
    hide Roster, Without;
    OutsideRoster(d, i);
    WithoutLast(d.resumed, i);
    WithoutAbsent(d.resumed, i);
  }

  lemma OutsideRoster(d: Desk, i: nat)
    requires Roster(d.states, d.running, d.resumed) && i < |d.states| && !Live(d.states[i])
    ensures i !in d.running && i !in d.resumed && (!d.states[i].admitted ==> !d.states[i].complete)
  {
    var all := d.running + d.resumed;
    assert i in d.running ==> i in all;
    assert i in d.resumed ==> i in all;
  }

  lemma {:induction false} WithoutAbsent(s: seq<nat>, i: nat)
    requires i !in s
    ensures Without(s, i) == s
  {
    if s != [] {
      WithoutAbsent(s[1..], i);
    }
  }

  lemma AdmitActs(w: World, request: Request, now: nat, next: World, cfg: Config)
    requires cfg.Valid() && Act(w, Admits(request, now), cfg) == Some(next)
    ensures request.Valid() && Admit(w.s, request, KeysFor(request, cfg.blockTokens), now, cfg) == Some(next.s)
  {
    hide Admit, KeysFor;
  }

  lemma ResumedBefore(d: Desk, w: World, picks: seq<Pick>, i: nat, batch: nat, policy: Policy, cfg: Config)
    requires Agrees(d, w, picks, batch, policy) && w.arriving == {}
    requires i < |d.states| && Live(d.states[i]) && i !in d.running
    ensures Before(d, w, d, w, picks, i, batch, policy, cfg)
  {
    AgreesMeans(d, w, picks, batch, policy);
    assert i in d.running + d.resumed;
  }

  lemma BeforeMeans(d: Desk, w: World, e: Desk, v: World, picks: seq<Pick>, i: nat, batch: nat, policy: Policy, cfg: Config)
    requires Before(d, w, e, v, picks, i, batch, policy, cfg)
    ensures i < |e.states| && e.states[i].Bounded() && Live(e.states[i]) && i !in e.running
    ensures !e.tainted ==> e.states[i].OnFrontier()
    ensures e.states[i].request == d.states[i].request
    ensures v.s.pendingBatch.None? || v.s.pendingBatch.value == batch
  {
    AgreesMeans(e, v, picks, batch, policy);
    SeatedMeans(e, policy);
  }

  /** It does not fit: a resumed request stays, a new one is released again. */
  lemma LeftOut(d: Desk, w: World, e: Desk, v: World, u: World, picks: seq<Pick>, i: nat, batch: nat, policy: Policy, cfg: Config)
    requires Before(d, w, e, v, picks, i, batch, policy, cfg) && Sound(v, cfg) && cfg.Valid()
    requires if d.states[i].admitted then u == v
             else d.states[i].request.id !in InBatch(v.reserved) && Act(v, Releases(d.states[i].request.id), cfg) == Some(u)
    requires Roomy(d, w, cfg) ==> d.running != [] || picks != []
    ensures Admission(d, w, d, u, picks, None, i, batch, policy, cfg)
  {
    hide Agrees, Roomy, Act, Sound;
    if !d.states[i].admitted {
      var id := d.states[i].request.id;
      ReleasesFacts(v, id, cfg);
      RollbackAgrees(d, w, v, u, picks, batch, policy);
      if Roomy(d, w, cfg) {
        ReleaseActs(v, id, u, cfg);
        ReleaseRoomy(e, v, u, id, cfg);
        BackRoomy(d, w, e, u, i, cfg);
      }
    }
  }

  lemma ReleaseActs(w: World, id: nat, next: World, cfg: Config)
    requires cfg.Valid() && Act(w, Releases(id), cfg) == Some(next)
    ensures Release(w.s, id) == Some(next.s)
  {
    hide Release;
  }

  lemma BackRoomy(d: Desk, w: World, e: Desk, u: World, i: nat, cfg: Config)
    requires Roomy(d, w, cfg) && Roomy(e, u, cfg) && i < |d.states| == |e.states| && e.states == d.states[i := e.states[i]]
    requires e.states[i].request == d.states[i].request && e.running == d.running
    ensures Roomy(d, u, cfg)
  {
    hide KnownStates;
    assert Busy(d) == Busy(e);
    forall j | 0 <= j < |d.states| ensures FitsAlone(d.states[j].request, u.s.hot.capacity, cfg.blockTokens) {
      assert e.states[j].request == d.states[j].request;
    }
  }

  /** A new request's own blocks, if any, belong to no reserved slice. */
  lemma NewOutsideBatch(d: Desk, w: World, e: Desk, v: World, picks: seq<Pick>, i: nat, batch: nat, policy: Policy, cfg: Config)
    requires Before(d, w, e, v, picks, i, batch, policy, cfg)
    ensures d.states[i].request.id !in InBatch(v.reserved)
  {
    AgreesMeans(e, v, picks, batch, policy);
    assert forall k :: 0 <= k < |picks| ==> picks[k].index in e.running;
    forall k | 0 <= k < |picks| ensures Plains(picks)[k].request != d.states[i].request.id {
      RequestOf(e.states[picks[k].index], picks[k].slice, policy);
    }
  }

  /** It fits: the request runs, last in line. */
  lemma LetIn(d: Desk, w: World, e: Desk, v: World, u: World, picks: seq<Pick>, pick: Pick, batch: nat, policy: Policy, cfg: Config)
    requires Before(d, w, e, v, picks, pick.index, batch, policy, cfg) && Sound(v, cfg) && cfg.Valid()
    requires |d.running| < policy.maxRequests && Lawful(e.states[pick.index], pick.slice, policy)
    ensures Proper(v, [pick.slice.Plain()]) && v.reserved + [pick.slice.Plain()] == Plains(picks + [pick])
    ensures Plains(picks + [pick]) == Plains(picks) + [pick.slice.Plain()]
    ensures Act(v, Reserves(batch, [pick.slice.Plain()]), cfg) == Some(u) ==>
      Admission(d, w, Committed(e, pick.index), u, picks, Some(pick), pick.index, batch, policy, cfg)
  {
    hide Agrees, Roomy, Act, Sound, Lawful, Reserve, Proper;
    PlainsPush(picks, pick);
    BeforeMeans(d, w, e, v, picks, pick.index, batch, policy, cfg);
    CommitAgrees(e, v, u, picks, pick, batch, policy, cfg);
    var f := Committed(e, pick.index);
    if Act(v, Reserves(batch, [pick.slice.Plain()]), cfg) == Some(u) && Roomy(d, w, cfg) {
      ReservesFacts(v, batch, [pick.slice.Plain()], cfg);
      AgreesMeans(f, u, picks + [pick], batch, policy);
      CommitRoomy(e, f, v, u, picks + [pick], batch, policy, cfg);
    }
  }

  lemma CommitRoomy(e: Desk, f: Desk, v: World, u: World, longer: seq<Pick>, batch: nat, policy: Policy, cfg: Config)
    requires Roomy(e, v, cfg) && Sound(v, cfg) && Reserve(v.s, batch, Plains(longer), cfg) == Some(u.s)
    requires Picked(f.states, longer, policy) && Fed(f, longer) && f.states == e.states
    requires forall i :: i in e.running ==> i in f.running
    ensures Roomy(f, u, cfg)
  {
    hide Roomy, Sound, Reserve, Picked;
    assert Busy(e) <= Busy(f);
    ReserveRoomy(e, f, v, u, longer, batch, policy, cfg);
  }

  /** Nobody runs and nothing is selected: the request fits alone. */
  lemma AloneLetIn(d: Desk, w: World, e: Desk, v: World, pick: Pick, batch: nat, policy: Policy, cfg: Config)
    requires Before(d, w, e, v, [], pick.index, batch, policy, cfg) && Sound(v, cfg) && cfg.Valid()
    requires Lawful(e.states[pick.index], pick.slice, policy) && Roomy(d, w, cfg) && d.running == []
    ensures Reserve(v.s, batch, Plains([pick]), cfg).Some?
  {
    hide Sound, Reserve, Lawful, Agrees, Tidy, FitsAlone;
    var st := e.states[pick.index];
    BeforeMeans(d, w, e, v, [], pick.index, batch, policy, cfg);
    AloneKnown(e, v, pick, batch, policy);
    SoundKeys(v, cfg);
    RequestOf(st, pick.slice, policy);
    assert Plains([pick]) == [pick.slice.Plain()];
    assert Busy(e) == {};
    TidyMeans(v.s, Busy(e));
    LoneFits(st, pick.slice, v, batch, policy, cfg);
  }

  lemma AloneKnown(e: Desk, v: World, pick: Pick, batch: nat, policy: Policy)
    requires Agrees(e, v, [], batch, policy) && pick.index < |e.states| && Live(e.states[pick.index])
    ensures e.states[pick.index].request.id in v.s.kv && v.s.pendingBatch.None?
    ensures v.s.kv[e.states[pick.index].request.id].request == e.states[pick.index].request
  {
  }

  /** The question put to the plane, and the one answer it can give to a lone request. */
  lemma EnoughRoom(d: Desk, w: World, e: Desk, v: World, picks: seq<Pick>, pick: Pick, batch: nat, policy: Policy, cfg: Config)
    requires Before(d, w, e, v, picks, pick.index, batch, policy, cfg) && Sound(v, cfg) && cfg.Valid()
    requires Lawful(e.states[pick.index], pick.slice, policy)
    ensures AllCounted(Plains(picks) + [pick.slice.Plain()])
    ensures Plains(picks + [pick]) == Plains(picks) + [pick.slice.Plain()]
    ensures Roomy(d, w, cfg) && Reserve(v.s, batch, Plains(picks + [pick]), cfg).None? ==> d.running != [] || picks != []
  {
    hide Agrees, Roomy, Sound, Lawful, Reserve;
    AgreesMeans(e, v, picks, batch, policy);
    PicksCounted(e.states, picks, policy);
    RequestOf(e.states[pick.index], pick.slice, policy);
    PlainsPush(picks, pick);
    if Roomy(d, w, cfg) && d.running == [] && picks == [] {
      AloneLetIn(d, w, e, v, pick, batch, policy, cfg);
      assert picks + [pick] == [pick];
    }
  }

  lemma BeforeLists(d: Desk, w: World, e: Desk, v: World, picks: seq<Pick>, i: nat, batch: nat, policy: Policy, cfg: Config)
    requires Before(d, w, e, v, picks, i, batch, policy, cfg)
    ensures e.running == d.running && e.tainted == d.tainted && Without(e.resumed, i) == Without(d.resumed, i)
    ensures |e.states| == |d.states| && e.states == d.states[i := e.states[i]]
    ensures i < |d.states| && (d.states[i].admitted ==> e == d && v == w)
  {
  }
}
