/** What each action on the memory plane leaves of the live requests and their frontiers. */
module WorldFacts {
  import opened PrefixKeys
  import opened PrefixSpec
  import opened PlacementSpec
  import opened PlacementInvariant
  import opened PlannerSoundness
  import opened PlacementRuns
  import opened KvRefinement
  import opened KvSteps
  import opened KvReservation
  import opened KvAdmission
  import opened KvLifecycle
  import opened KvRuns

  // -------------------------------------------- requests survive a reservation

  lemma SameTrans(a: State, b: State, c: State)
    requires SameRequests(a, b) && SameRequests(b, c)
    ensures SameRequests(a, c)
  {
  }

  lemma {:induction false} MigrateSame(s: State, ids: seq<nat>, toCold: bool)
    requires MigrateAll(s, ids, toCold).Some?
    ensures SameRequests(s, MigrateAll(s, ids, toCold).value)
    decreases |ids|
  {
    hide AllocateRows;
    if ids != [] {
      var mid := Migrate(s, ids[0], toCold).value;
      MigrateOneSame(s, ids[0], toCold);
      MigrateSame(mid, ids[1..], toCold);
      hide Migrate;
      SameTrans(s, mid, MigrateAll(s, ids, toCold).value);
    }
  }

  lemma MigrateOneSame(s: State, id: nat, toCold: bool)
    requires Migrate(s, id, toCold).Some?
    ensures SameRequests(s, Migrate(s, id, toCold).value)
  {
    hide AllocateRows;
  }

  lemma ReserveOneSame(s: State, batch: nat, slice: Slice, cfg: Config)
    requires cfg.Valid() && ReserveOne(s, batch, slice, cfg).Some?
    ensures SameRequests(s, ReserveOne(s, batch, slice, cfg).value)
    ensures forall id :: id in s.kv && id != slice.request ==> ReserveOne(s, batch, slice, cfg).value.kv[id] == s.kv[id]
    ensures !cfg.Caching() ==> ReserveOne(s, batch, slice, cfg).value.entries == s.entries
  {
    hide AllocateRows, Publish;
  }

  lemma {:induction false} ReserveAllSame(s: State, batch: nat, slices: seq<Slice>, cfg: Config)
    requires cfg.Valid() && ReserveAll(s, batch, slices, cfg).Some?
    ensures SameRequests(s, ReserveAll(s, batch, slices, cfg).value)
    ensures forall id :: id in s.kv && id !in InBatch(slices) ==> ReserveAll(s, batch, slices, cfg).value.kv[id] == s.kv[id]
    ensures !cfg.Caching() ==> ReserveAll(s, batch, slices, cfg).value.entries == s.entries
    decreases |slices|
  {
    hide ReserveOne;
    if slices != [] {
      var mid := ReserveOne(s, batch, slices[0], cfg).value;
      ReserveOneSame(s, batch, slices[0], cfg);
      ReserveAllSame(mid, batch, slices[1..], cfg);
      InBatchFirst(slices);
    }
  }

  lemma ReserveSame(s: State, batch: nat, slices: seq<Slice>, cfg: Config)
    requires cfg.Valid() && Reserve(s, batch, slices, cfg).Some?
    ensures SameRequests(s, Reserve(s, batch, slices, cfg).value) && Known(s, slices)
    ensures Reserve(s, batch, slices, cfg).value.pendingBatch == Some(batch)
  {
    hide EvictKeys, MigrateAll, ReserveAll;
    var plan := MakePlan(s, slices, cfg);
    FeasibleMeans(s, slices, cfg);
    hide MakePlan;
    var s1 := EvictKeys(s, plan.evictions, cfg).value;
    EvictedKeeps(s, plan.evictions, cfg);
    var s2 := MigrateAll(s1, plan.victims, true).value;
    MigrateSame(s1, plan.victims, true);
    var s3 := MigrateAll(s2, plan.swapIn, false).value;
    MigrateSame(s2, plan.swapIn, false);
    ReserveAllSame(s3, batch, slices, cfg);
  }

  // ------------------------------------------------------------------ actions

  /** The request each live entry belongs to, as the engine knows it. */
  ghost predicate Keeps(w: World, next: World)
  {
    SameRequests(w.s, next.s)
  }

  lemma AdmitsFacts(w: World, request: Request, now: nat, cfg: Config)
    requires cfg.Valid() && Sound(w, cfg) && request.Valid() && request.id !in w.s.kv && w.arriving == {}
    ensures Act(w, Admits(request, now), cfg).Some?
    ensures var next := Act(w, Admits(request, now), cfg).value;
      && next.s.kv.Keys == w.s.kv.Keys + {request.id} && next.s.kv[request.id].request == request
      && (forall id :: id in w.s.kv ==> next.s.kv[id] == w.s.kv[id])
      && next.s.kv[request.id].hitTokens == next.frontier[request.id] < request.promptTokens
      && next.frontier == w.frontier[request.id := next.frontier[request.id]]
      && next.reserved == w.reserved && next.arriving == {request.id} && next.s.pendingBatch == w.s.pendingBatch
  {
    hide Good, Lookup, Inv, HitFront, HitTable, KeysFor;
    SoundMeans(w, cfg);
    AdmitGood(w.s, request, now, w.mems, w.frontier, w.reserved, cfg);
  }

  ghost predicate Proper(w: World, more: seq<Slice>)
  {
    && AllCounted(w.reserved + more) && Continuing(w.s, w.frontier, more)
    && w.arriving <= InBatch(w.reserved + more)
  }

  lemma ReservesFacts(w: World, batch: nat, more: seq<Slice>, cfg: Config)
    requires cfg.Valid() && Sound(w, cfg) && Proper(w, more)
    ensures Act(w, Reserves(batch, more), cfg).Some? <==> Reserve(w.s, batch, w.reserved + more, cfg).Some?
    ensures Act(w, Reserves(batch, more), cfg).Some? ==>
      var next := Act(w, Reserves(batch, more), cfg).value;
      && Keeps(w, next) && Known(w.s, w.reserved + more)
      && next.s == Reserve(w.s, batch, w.reserved + more, cfg).value
      && next.frontier == AdvancedAll(w.frontier, more) && next.reserved == w.reserved + more && next.arriving == {}
      && next.s.pendingBatch == Some(batch)
  {
    hide Good, Reserve, Sound, Continuing;
    if Reserve(w.s, batch, w.reserved + more, cfg).Some? {
      ReserveSame(w.s, batch, w.reserved + more, cfg);
    }
  }

  lemma ExecutesFacts(w: World, finish: nat, cfg: Config)
    requires cfg.Valid() && Sound(w, cfg) && w.arriving == {}
    ensures Act(w, Executes(finish), cfg).Some?
    ensures var next := Act(w, Executes(finish), cfg).value;
      && next.s.kv == w.s.kv && next.frontier == w.frontier && next.reserved == [] && next.arriving == {}
      && next.s.pendingBatch == None
  {
    hide Good, Complete, Future;
    SoundMeans(w, cfg);
    ExecuteGood(w.s, finish, w.mems, w.frontier, w.reserved, w.arriving, cfg);
    CompletePending(w.s.(migrations := [], pendingBatch := None), w.reserved, finish, cfg);
  }

  lemma CompletePending(s: State, slices: seq<Slice>, finish: nat, cfg: Config)
    requires cfg.Valid() && Complete(s, slices, finish, cfg).Some?
    ensures Complete(s, slices, finish, cfg).value.pendingBatch == s.pendingBatch
    ensures Complete(s, slices, finish, cfg).value.migrations == s.migrations
    ensures !cfg.Caching() ==> Complete(s, slices, finish, cfg).value == s
  {
    if cfg.Caching() {
      CompleteFromPending(s, slices, finish, cfg);
    }
  }

  lemma {:induction false} CompleteFromPending(s: State, slices: seq<Slice>, finish: nat, cfg: Config)
    requires cfg.Valid() && CompleteFrom(s, slices, finish, cfg).Some?
    ensures CompleteFrom(s, slices, finish, cfg).value.pendingBatch == s.pendingBatch
    ensures CompleteFrom(s, slices, finish, cfg).value.migrations == s.migrations
    decreases |slices|
  {
    if slices != [] {
      CompleteFromPending(PublishFor(s, slices[0].request, slices[0].End(), finish, false, cfg).value, slices[1..], finish, cfg);
    }
  }

  /** A request can be preempted exactly when it holds hot blocks. */
  lemma PreemptsFacts(w: World, id: nat, cfg: Config)
    requires cfg.Valid() && Sound(w, cfg) && w.reserved == [] && w.arriving == {}
    ensures Act(w, Preempts(id), cfg).Some? <==> id in w.s.kv && w.s.kv[id].tier.Hot? && w.s.kv[id].Width() > 0
    ensures Act(w, Preempts(id), cfg).Some? ==>
      var next := Act(w, Preempts(id), cfg).value;
      && Preempt(w.s, id, cfg).Preempted? && next.s == Preempt(w.s, id, cfg).state
      && Keeps(w, next) && next.reserved == [] && next.arriving == {} && next.s.pendingBatch == w.s.pendingBatch
      && next.frontier == AfterPreempt(w.frontier, id, Preempt(w.s, id, cfg).mode)
      && (forall j :: j in w.s.kv && j != id ==> next.s.kv[j] == w.s.kv[j])
      && (Preempt(w.s, id, cfg).mode.Recompute? ==> next.s.kv[id].table == [])
  {
    hide Good, Inv, Migrate;
    SoundMeans(w, cfg);
    GoodInv(w.s, w.mems, w.frontier, w.reserved, w.arriving, cfg);
    PreemptInv(w.s, id, cfg);
    if Preempt(w.s, id, cfg).Preempted? && Migrate(w.s, id, true).Some? {
      MigrateFrame(w.s, id, true);
    }
  }

  lemma MigrateFrame(s: State, id: nat, toCold: bool)
    requires Migrate(s, id, toCold).Some?
    ensures SameRequests(s, Migrate(s, id, toCold).value)
    ensures forall j :: j in s.kv && j != id ==> Migrate(s, id, toCold).value.kv[j] == s.kv[j]
    ensures Migrate(s, id, toCold).value.pendingBatch == s.pendingBatch
  {
    hide AllocateRows;
  }

  lemma ReleasesFacts(w: World, id: nat, cfg: Config)
    requires cfg.Valid() && Sound(w, cfg) && id in w.s.kv && id !in InBatch(w.reserved)
    ensures Act(w, Releases(id), cfg).Some?
    ensures var next := Act(w, Releases(id), cfg).value;
      && next.s.kv == w.s.kv - {id} && next.frontier == w.frontier - {id}
      && next.reserved == w.reserved && next.arriving == w.arriving - {id} && next.s.pendingBatch == w.s.pendingBatch
  {
    hide Good, Inv, Release;
    SoundMeans(w, cfg);
    GoodInv(w.s, w.mems, w.frontier, w.reserved, w.arriving, cfg);
    ReleaseInv(w.s, id, cfg);
    ReleasePending(w.s, id);
  }

  lemma ReleasePending(s: State, id: nat)
    requires Release(s, id).Some?
    ensures Release(s, id).value.pendingBatch == s.pendingBatch
  {
    hide ReleaseOrder;
  }
}
