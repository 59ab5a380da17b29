/** Recovery by replay: a whole run without preemption, and what comes of its log when every batch is
    reserved at once.
 */
module ReplayRuns {
  import opened PrefixKeys
  import opened PrefixSpec
  import opened Tables
  import opened PlacementSpec
  import opened PlacementInvariant
  import opened PlannerSoundness
  import opened PlacementRuns
  import opened KvReservation
  import opened KvRuns
  import opened WorldFacts
  import opened LeanPlane
  import opened Replays
  import KvMemory
  import KvRefinement
  import KvSteps
  import KvAdmission

  // ------------------------------------------------------------ alike but for order

  ghost predicate SameKv(a: RequestKv, b: RequestKv)
  {
    b == a.(order := b.order)
  }

  /** The same blocks for the same requests; only the numbers of their admission may differ. */
  ghost predicate Alike(s: State, t: State)
  {
    && t.hot == s.hot && t.cold == s.cold && t.entries == s.entries && t.bytes == s.bytes
    && t.migrations == s.migrations && t.pendingBatch == s.pendingBatch && t.kv.Keys == s.kv.Keys
    && forall id :: id in s.kv ==> SameKv(s.kv[id], t.kv[id])
  }

  ghost predicate AlikeResults(a: Option<State>, b: Option<State>)
  {
    a.Some? == b.Some? && (a.Some? ==> Alike(a.value, b.value))
  }

  lemma OneAlike(s: State, t: State, batch: nat, slice: Slice, cfg: Config)
    requires Lean(cfg) && Alike(s, t)
    ensures AlikeResults(ReserveOne(s, batch, slice, cfg), ReserveOne(t, batch, slice, cfg))
  {
    hide AllocateRows, Appended;
    if slice.request in s.kv {
      assert SameKv(s.kv[slice.request], t.kv[slice.request]);
    }
  }

  lemma {:induction false} AllAlike(s: State, t: State, batch: nat, slices: seq<Slice>, cfg: Config)
    requires Lean(cfg) && Alike(s, t)
    ensures AlikeResults(ReserveAll(s, batch, slices, cfg), ReserveAll(t, batch, slices, cfg))
    decreases |slices|
  {
    hide ReserveOne, Alike;
    if slices != [] {
      OneAlike(s, t, batch, slices[0], cfg);
      if ReserveOne(s, batch, slices[0], cfg).Some? {
        AllAlike(ReserveOne(s, batch, slices[0], cfg).value, ReserveOne(t, batch, slices[0], cfg).value, batch, slices[1..], cfg);
      }
    }
  }

  lemma {:induction false} GrowthAlike(s: State, t: State, slices: seq<Slice>, cfg: Config)
    requires cfg.Valid() && Alike(s, t) && forall i :: 0 <= i < |slices| ==> slices[i].request in s.kv
    ensures GrowthSum(s.kv, slices, cfg) == GrowthSum(t.kv, slices, cfg)
    decreases |slices|
  {
    if slices != [] {
      assert SameKv(s.kv[slices[0].request], t.kv[slices[0].request]);
      GrowthAlike(s, t, slices[1..], cfg);
    }
  }

  lemma AllHotAlike(s: State, t: State, slices: seq<Slice>)
    requires Alike(s, t) && AllHot(s, slices)
    ensures AllHot(t, slices)
  {
    forall i | 0 <= i < |slices| ensures t.kv[slices[i].request].tier.Hot? {
      assert SameKv(s.kv[slices[i].request], t.kv[slices[i].request]);
    }
  }

  /** A reservation does not ask who came first. */
  lemma ReserveAlike(s: State, t: State, batch: nat, slices: seq<Slice>, cfg: Config)
    requires Alike(s, t) && Resting(s, batch, slices, cfg) && Inv(t, cfg)
    ensures Resting(t, batch, slices, cfg) && AlikeResults(Reserve(s, batch, slices, cfg), Reserve(t, batch, slices, cfg))
  {
    hide Inv, ReserveAll, Reserve, AllHot, After;
    AllHotAlike(s, t, slices);
    AllHotKnown(s, slices);
    LeanReserve(s, batch, slices, cfg);
    LeanReserve(t, batch, slices, cfg);
    GrowthAlike(s, t, slices, cfg);
    AllAlike(s, t, batch, slices, cfg);
  }

  lemma AllHotKnown(s: State, slices: seq<Slice>)
    requires AllHot(s, slices)
    ensures forall i :: 0 <= i < |slices| ==> slices[i].request in s.kv
  {
  }

  // -------------------------------------------------------------- new requests

  /** The requests that are not there yet join, in order. */
  ghost function AdmitEach(s: State, ids: seq<nat>, catalog: nat -> Request): State
  {
    if ids == [] then s
    else
      var before := AdmitEach(s, ids[..|ids| - 1], catalog);
      var id := ids[|ids| - 1];
      if id in before.kv then before else Joined(before, catalog(id))
  }

  /** The requests of the trace, by name. */
  ghost predicate Named(catalog: nat -> Request)
  {
    forall id :: catalog(id).id == id && catalog(id).Valid()
  }

  lemma AdmitEachPush(s: State, ids: seq<nat>, id: nat, catalog: nat -> Request)
    ensures AdmitEach(s, ids + [id], catalog) ==
      if id in AdmitEach(s, ids, catalog).kv then AdmitEach(s, ids, catalog) else Joined(AdmitEach(s, ids, catalog), catalog(id))
  {
    assert (ids + [id])[..|ids|] == ids;
  }

  lemma {:induction false} AdmitEachJoin(s: State, a: seq<nat>, b: seq<nat>, catalog: nat -> Request)
    ensures AdmitEach(s, a + b, catalog) == AdmitEach(AdmitEach(s, a, catalog), b, catalog)
    decreases |b|
  {
    if b == [] {
      assert a + b == a;
    } else {
      var n := |b| - 1;
      AdmitEachJoin(s, a, b[..n], catalog);
      assert (a + b)[..|a| + n] == a + b[..n];
    }
  }

  /** Whoever is named is there afterwards, and so is whoever was there before. */
  lemma {:induction false} AdmitEachKeys(s: State, ids: seq<nat>, catalog: nat -> Request)
    requires Named(catalog)
    ensures forall id :: id in AdmitEach(s, ids, catalog).kv <==> id in s.kv || id in ids
    ensures forall id :: id in s.kv ==> AdmitEach(s, ids, catalog).kv[id] == s.kv[id]
    ensures AdmitEach(s, ids, catalog).entries == s.entries && AdmitEach(s, ids, catalog).pendingBatch == s.pendingBatch
    decreases |ids|
  {
    if ids != [] {
      AdmitEachKeys(s, ids[..|ids| - 1], catalog);
      assert ids == ids[..|ids| - 1] + [ids[|ids| - 1]];
    }
  }

  lemma {:induction false} NobodyNew(s: State, ids: seq<nat>, catalog: nat -> Request)
    requires forall id :: id in ids ==> id in s.kv
    ensures AdmitEach(s, ids, catalog) == s
    decreases |ids|
  {
    if ids != [] {
      assert forall id :: id in ids[..|ids| - 1] ==> id in ids;
      NobodyNew(s, ids[..|ids| - 1], catalog);
    }
  }

  lemma NewInv(s: State, request: Request, cfg: Config)
    requires Lean(cfg) && Inv(s, cfg) && request.Valid() && request.id !in s.kv
    ensures Inv(Joined(s, request), cfg)
  {
    hide Accounted, ColdBalanced, Held, AllShaped;
    assert Held(s.kv, Hot) + Cells([]) == Held(s.kv, Hot);
    NewRequestInv(s, s.Cache(), RequestKv(request, s.nextOrder, Hot, [], -1, [], 0), cfg);
    assert s.WithCache(s.Cache()) == s;
  }

  lemma {:induction false} AdmitEachInv(s: State, ids: seq<nat>, catalog: nat -> Request, cfg: Config)
    requires Lean(cfg) && Inv(s, cfg) && Named(catalog)
    ensures Inv(AdmitEach(s, ids, catalog), cfg)
    decreases |ids|
  {
    hide Inv;
    if ids != [] {
      AdmitEachInv(s, ids[..|ids| - 1], catalog, cfg);
      var before, id := AdmitEach(s, ids[..|ids| - 1], catalog), ids[|ids| - 1];
      if id !in before.kv {
        NewInv(before, catalog(id), cfg);
      }
    }
  }

  /** A request that joins makes no difference to a reservation without it. */
  lemma JoinedReserve(s: State, batch: nat, slices: seq<Slice>, request: Request, cfg: Config)
    requires Resting(s, batch, slices, cfg) && request.Valid() && request.id !in s.kv
    ensures Resting(Joined(s, request), batch, slices, cfg)
    ensures Reserve(Joined(s, request), batch, slices, cfg) ==
      match Reserve(s, batch, slices, cfg) case None => None case Some(t) => Some(Joined(t, request))
    ensures Reserve(s, batch, slices, cfg).Some? ==> Reserve(s, batch, slices, cfg).value.kv.Keys == s.kv.Keys
  {
    hide Inv, ReserveAll, Reserve, After, GrowthOf;
    var next := Joined(s, request);
    NewInv(s, request, cfg);
    AllHotJoined(s, request, slices);
    LeanReserve(s, batch, slices, cfg);
    LeanReserve(next, batch, slices, cfg);
    GrowthFrame(s.kv, next.kv, slices, cfg);
    AdmissionCommutes(s, batch, slices, request, [], 0, cfg);
    if Reserve(s, batch, slices, cfg).Some? {
      AfterKeys(s, ReserveAll(s, batch, slices, cfg).value, batch, slices, cfg);
    }
  }

  lemma AfterKeys(s: State, t: State, batch: nat, slices: seq<Slice>, cfg: Config)
    requires cfg.Valid() && Known(s, slices) && After(s, t, batch, slices, cfg)
    ensures t.kv.Keys == s.kv.Keys
  {
  }

  lemma AllHotJoined(s: State, request: Request, slices: seq<Slice>)
    requires AllHot(s, slices) && request.id !in s.kv
    ensures AllHot(Joined(s, request), slices)
    ensures forall i :: 0 <= i < |slices| ==> slices[i].request in s.kv && Joined(s, request).kv[slices[i].request] == s.kv[slices[i].request]
  {
  }

  lemma JoinedAlike(s: State, t: State, request: Request)
    requires Alike(s, t)
    ensures Alike(Joined(s, request), Joined(t, request))
  {
  }

  // --------------------------------------------------------------------- the log

  /** A committed schedule. */
  datatype Commit = Commit(batch: nat, slices: seq<Slice>)

  function Ids(slices: seq<Slice>): (ids: seq<nat>)
    ensures |ids| == |slices| && forall i :: 0 <= i < |ids| ==> ids[i] == slices[i].request
  {
    seq(|slices|, i requires 0 <= i < |slices| => slices[i].request)
  }

  /** Admits the named requests that are not admitted yet. */
  ghost function AdmitNamed(s: State, ids: seq<nat>, catalog: nat -> Request, now: nat, cfg: Config): Option<State>
    requires cfg.Valid() && Named(catalog)
  {
    if ids == [] then Some(s)
    else
      match AdmitNamed(s, ids[..|ids| - 1], catalog, now, cfg)
      case None => None
      case Some(before) =>
        var request := catalog(ids[|ids| - 1]);
        Admit(before, request, KeysFor(request, cfg.blockTokens), now, cfg)
  }

  /** Recovery replays a batch: its requests are admitted, all slices reserved at once, and completed. */
  ghost function ReplayBatch(s: State, commit: Commit, catalog: nat -> Request, now: nat, cfg: Config): Option<State>
    requires cfg.Valid() && Named(catalog)
  {
    match AdmitNamed(s, Ids(commit.slices), catalog, now, cfg)
    case None => None
    case Some(admitted) =>
      match Reserve(admitted, commit.batch, commit.slices, cfg)
      case None => None
      case Some(t) => Complete(t.(migrations := [], pendingBatch := None), commit.slices, now, cfg)
  }

  ghost function Replayed(s: State, log: seq<Commit>, catalog: nat -> Request, now: nat, cfg: Config): Option<State>
    requires cfg.Valid() && Named(catalog)
  {
    if log == [] then Some(s)
    else
      match Replayed(s, log[..|log| - 1], catalog, now, cfg)
      case None => None
      case Some(before) => ReplayBatch(before, log[|log| - 1], catalog, now, cfg)
  }

  /** A run without preemption: only a request that was just admitted, and did not fit, is taken back;
      and a batch has slices. */
  ghost predicate Plain(w: World, action: Action, catalog: nat -> Request)
  {
    match action
    case Admits(request, _) => request == catalog(request.id)
    case Reserves(_, more) => more != []
    case Executes(_) => w.reserved != []
    case Preempts(_) => false
    case Releases(id) => id in w.arriving
  }

  ghost predicate Steady(opening: World, actions: seq<Action>, catalog: nat -> Request, cfg: Config)
    requires cfg.Valid()
    decreases |actions|
  {
    actions == []
    || (var front := actions[..|actions| - 1];
        && Steady(opening, front, catalog, cfg) && Play(opening, front, cfg).Some?
        && Plain(Play(opening, front, cfg).value, actions[|actions| - 1], catalog))
  }

  /** What the run has committed. */
  ghost function LogOf(opening: World, actions: seq<Action>, cfg: Config): seq<Commit>
    requires cfg.Valid()
    decreases |actions|
  {
    if actions == [] then []
    else
      var front := actions[..|actions| - 1];
      LogOf(opening, front, cfg)
      + (if actions[|actions| - 1].Executes? && Play(opening, front, cfg).Some? then [CommitOf(Play(opening, front, cfg).value)] else [])
  }

  ghost function CommitOf(w: World): Commit
  {
    Commit(if w.s.pendingBatch.Some? then w.s.pendingBatch.value else 0, w.reserved)
  }

  // -------------------------------------------------------- the run and its replay

  /** The replay's state, with the requests of the batch in the making. */
  ghost function Base(r: State, w: World, late: seq<nat>, catalog: nat -> Request): State
  {
    AdmitEach(r, Ids(w.reserved) + late, catalog)
  }

  /** The plane is where one reservation of the batch would bring the replay. */
  ghost predicate Tracks(w: World, r: State, late: seq<nat>, catalog: nat -> Request, cfg: Config)
  {
    && Inv(r, cfg) && r.entries == [] && r.pendingBatch.None?
    && |late| <= 1 && (forall id :: id in w.arriving <==> id in late)
    && (forall id :: id in late ==> id !in Base(r, w, [], catalog).kv)
    && if w.reserved == [] then Alike(Base(r, w, late, catalog), w.s)
       else
         && w.s.pendingBatch.Some? && Resting(Base(r, w, late, catalog), w.s.pendingBatch.value, w.reserved, cfg)
         && AlikeResults(Reserve(Base(r, w, late, catalog), w.s.pendingBatch.value, w.reserved, cfg), Some(w.s))
  }

  lemma BaseFacts(r: State, w: World, late: seq<nat>, catalog: nat -> Request, cfg: Config)
    requires Lean(cfg) && Named(catalog) && Tracks(w, r, late, catalog, cfg)
    ensures var v := Base(r, w, late, catalog);
      && Inv(v, cfg) && v.entries == [] && v.pendingBatch.None? && v.kv.Keys == w.s.kv.Keys
      && forall id :: id in InBatch(w.reserved) ==> id in v.kv
  {
    hide Inv, Reserve, Resting;
    var ids := Ids(w.reserved) + late;
    AdmitEachInv(r, ids, catalog, cfg);
    AdmitEachKeys(r, ids, catalog);
    if w.reserved != [] {
      var v := Base(r, w, late, catalog);
      ReservedKeys(v, w.s.pendingBatch.value, w.reserved, cfg);
    }
    forall id | id in InBatch(w.reserved) ensures id in ids {
      var i :| 0 <= i < |w.reserved| && w.reserved[i].request == id;
      assert Ids(w.reserved)[i] == id;
    }
  }

  lemma ReservedKeys(s: State, batch: nat, slices: seq<Slice>, cfg: Config)
    requires cfg.Valid() && Resting(s, batch, slices, cfg) && Reserve(s, batch, slices, cfg).Some?
    ensures Reserve(s, batch, slices, cfg).value.kv.Keys == s.kv.Keys
  {
    hide Reserve;
    ReserveSame(s, batch, slices, cfg);
  }

  lemma LeanAdmit(s: State, request: Request, keys: seq<Key>, now: nat, cfg: Config)
    requires Lean(cfg) && request.Valid()
    ensures Admit(s, request, keys, now, cfg) == Some(if request.id in s.kv then s else Joined(s, request))
  {
  }

  lemma {:induction false} NamedAdmits(s: State, ids: seq<nat>, catalog: nat -> Request, now: nat, cfg: Config)
    requires Lean(cfg) && Named(catalog)
    ensures AdmitNamed(s, ids, catalog, now, cfg) == Some(AdmitEach(s, ids, catalog))
    decreases |ids|
  {
    hide Admit;
    if ids != [] {
      NamedAdmits(s, ids[..|ids| - 1], catalog, now, cfg);
      var request := catalog(ids[|ids| - 1]);
      LeanAdmit(AdmitEach(s, ids[..|ids| - 1], catalog), request, KeysFor(request, cfg.blockTokens), now, cfg);
    }
  }

  lemma {:induction false} OneNew(s: State, ids: seq<nat>, x: nat, catalog: nat -> Request)
    requires Named(catalog) && x in ids && x !in s.kv && forall id :: id in ids ==> id == x || id in s.kv
    ensures AdmitEach(s, ids, catalog) == Joined(s, catalog(x))
    decreases |ids|
  {
    var n := |ids| - 1;
    var front := ids[..n];
    assert ids == front + [ids[n]];
    if x in front {
      OneNew(s, front, x, catalog);
    } else {
      NobodyNew(s, front, catalog);
    }
  }

  // ------------------------------------------------------------------- the steps

  lemma TrackAdmit(w: World, r: State, late: seq<nat>, request: Request, catalog: nat -> Request, cfg: Config)
    requires Lean(cfg) && Named(catalog) && Tracks(w, r, late, catalog, cfg) && w.arriving == {}
    requires request == catalog(request.id) && request.id !in w.s.kv
    ensures Tracks(w.(s := Joined(w.s, request), arriving := {request.id}), r, [request.id], catalog, cfg)
  {
    hide Inv, Reserve, Resting, AlikeResults;
    BaseFacts(r, w, late, catalog, cfg);
    HasFirst(late);
    var v := Base(r, w, [], catalog);
    AdmitEachPush(r, Ids(w.reserved), request.id, catalog);
    assert Ids(w.reserved) + [] == Ids(w.reserved);
    if w.reserved == [] {
      JoinedAlike(v, w.s, request);
    } else {
      var batch := w.s.pendingBatch.value;
      JoinedReserve(v, batch, w.reserved, request, cfg);
      JoinedResults(Reserve(v, batch, w.reserved, cfg), w.s, request);
    }
  }

  lemma JoinedResults(a: Option<State>, s: State, request: Request)
    requires AlikeResults(a, Some(s))
    ensures a.Some? && AlikeResults(Some(Joined(a.value, request)), Some(Joined(s, request)))
  {
  }

  /** Taking a request back that holds nothing. */
  lemma TrackRelease(w: World, r: State, late: seq<nat>, id: nat, catalog: nat -> Request, cfg: Config)
    requires Lean(cfg) && Named(catalog) && Tracks(w, r, late, catalog, cfg) && id in w.arriving && Release(w.s, id).Some?
    requires id !in InBatch(w.reserved)
    ensures Tracks(w.(s := Release(w.s, id).value, arriving := w.arriving - {id}), r, [], catalog, cfg)
  {
    hide Inv, Reserve, Resting, AlikeResults, Release;
    assert late == [id];
    BaseFacts(r, w, late, catalog, cfg);
    var v := Base(r, w, [], catalog);
    AdmitEachPush(r, Ids(w.reserved), id, catalog);
    assert Ids(w.reserved) + [] == Ids(w.reserved);
    AdmitEachInv(r, Ids(w.reserved), catalog, cfg);
    AdmitEachKeys(r, Ids(w.reserved), catalog);
    var request := catalog(id);
    if w.reserved == [] {
      ReleasedAlike(v, w.s, request);
    } else {
      var batch := w.s.pendingBatch.value;
      RestsWithout(v, batch, w.reserved, request, cfg);
      JoinedReserve(v, batch, w.reserved, request, cfg);
      TakenBack(Reserve(v, batch, w.reserved, cfg), w.s, request);
    }
  }

  lemma ReleasedAlike(v: State, s: State, request: Request)
    requires Alike(Joined(v, request), s) && request.id !in v.kv && Release(s, request.id).Some?
    ensures Alike(v, Release(s, request.id).value)
  {
    assert SameKv(Joined(v, request).kv[request.id], s.kv[request.id]);
    assert s.kv[request.id].table == [] && s.kv[request.id].keys == [];
    assert Cells([]) == multiset{};
    var freed := s.(hot := s.hot.Release(multiset{}), kv := s.kv - {request.id});
    assert s.hot.Release(multiset{}) == s.hot;
    assert Release(s, request.id) == Some(freed.WithCache(ReleaseOrder(freed.Cache(), [])));
    assert freed.WithCache(freed.Cache()) == freed;
    forall id | id in v.kv ensures SameKv(v.kv[id], freed.kv[id]) {
      assert SameKv(Joined(v, request).kv[id], s.kv[id]);
    }
  }

  lemma TakenBack(a: Option<State>, s: State, request: Request)
    requires a.Some? ==> request.id !in a.value.kv
    requires AlikeResults(match a case None => None case Some(t) => Some(Joined(t, request)), Some(s)) && Release(s, request.id).Some?
    ensures AlikeResults(a, Some(Release(s, request.id).value))
    ensures Release(s, request.id).value.pendingBatch == s.pendingBatch
  {
    hide Release;
    ReleasedAlike(a.value, s, request);
  }

  lemma RestsWithout(v: State, batch: nat, slices: seq<Slice>, request: Request, cfg: Config)
    requires Resting(Joined(v, request), batch, slices, cfg) && Inv(v, cfg) && request.id !in v.kv
    requires forall i :: 0 <= i < |slices| ==> slices[i].request in v.kv
    ensures Resting(v, batch, slices, cfg)
  {
    hide Inv;
  }

  /** The replay's base rests, when the plane reserves. */
  lemma BaseRests(v: State, s: State, batch: nat, slices: seq<Slice>, cfg: Config)
    requires Lean(cfg) && Inv(v, cfg) && v.entries == [] && v.pendingBatch.None? && v.kv.Keys == s.kv.Keys
    requires Reserve(s, batch, slices, cfg).Some? && forall i :: 0 <= i < |slices| ==> slices[i].count > 0
    ensures Resting(v, batch, slices, cfg)
  {
    AllHere(v, cfg);
    hide Inv, EvictKeys, MigrateAll, ReserveAll;
    assert Known(s, slices);
  }

  lemma AdmitNobody(s: State, catalog: nat -> Request)
    ensures AdmitEach(s, [], catalog) == s
  {
  }

  /** Admitting for the longer batch is what has been done already. */
  lemma SameBase(r: State, w: World, more: seq<Slice>, late: seq<nat>, catalog: nat -> Request, cfg: Config)
    requires Lean(cfg) && Named(catalog) && Tracks(w, r, late, catalog, cfg) && Known(w.s, w.reserved + more)
    requires w.arriving <= InBatch(w.reserved + more)
    ensures AdmitEach(r, Ids(w.reserved + more), catalog) == Base(r, w, late, catalog)
  {
    hide Inv, Reserve, Resting, AlikeResults, Alike, AdmitEach, Joined;
    BaseFacts(r, w, late, catalog, cfg);
    var v0 := AdmitEach(r, Ids(w.reserved), catalog);
    assert Ids(w.reserved + more) == Ids(w.reserved) + Ids(more);
    assert Ids(w.reserved) + [] == Ids(w.reserved);
    AdmitEachJoin(r, Ids(w.reserved), Ids(more), catalog);
    AdmitEachJoin(r, Ids(w.reserved), late, catalog);
    AdmitEachKeys(r, Ids(w.reserved), catalog);
    AdmitEachKeys(r, Ids(w.reserved) + late, catalog);
    forall id | id in Ids(more) ensures id in w.s.kv {
      var i :| 0 <= i < |more| && Ids(more)[i] == id;
      assert (w.reserved + more)[|w.reserved| + i].request == id;
    }
    AdmitNobody(v0, catalog);
    if late == [] {
      NobodyNew(v0, Ids(more), catalog);
    } else {
      var x := late[0];
      assert late == [x] && x in late && x in w.arriving;
      LateInMore(w, more, x, v0, Ids(w.reserved));
      AdmitEachPush(v0, [], x, catalog);
      assert [] + [x] == [x];
      OneNew(v0, Ids(more), x, catalog);
    }
  }

  lemma IdsHold(slices: seq<Slice>)
    ensures forall slice :: slice in slices ==> slice.request in Ids(slices)
  {
    forall i | 0 <= i < |slices| ensures slices[i].request in Ids(slices) {
      assert Ids(slices)[i] == slices[i].request;
    }
  }

  lemma HasFirst(s: seq<nat>)
    ensures s == [] || s[0] in s
  {
  }

  lemma LateInMore(w: World, more: seq<Slice>, x: nat, v0: State, ids: seq<nat>)
    requires x in InBatch(w.reserved + more) && x !in v0.kv && ids == Ids(w.reserved)
    requires forall id :: id in ids ==> id in v0.kv
    ensures x in Ids(more)
  {
    var all := w.reserved + more;
    var i :| 0 <= i < |all| && all[i].request == x;
    IdsHold(w.reserved);
    IdsHold(more);
    assert all[i] in w.reserved || all[i] in more;
  }

  lemma TrackReserve(w: World, r: State, late: seq<nat>, batch: nat, more: seq<Slice>, catalog: nat -> Request, cfg: Config)
    requires Lean(cfg) && Named(catalog) && Inv(w.s, cfg) && Tracks(w, r, late, catalog, cfg) && more != []
    requires w.arriving <= InBatch(w.reserved + more) && Reserve(w.s, batch, w.reserved + more, cfg).Some?
    requires forall i :: 0 <= i < |w.reserved + more| ==> (w.reserved + more)[i].count > 0
    ensures Tracks(w.(s := Reserve(w.s, batch, w.reserved + more, cfg).value, reserved := w.reserved + more, arriving := {}), r, [], catalog, cfg)
  {
    hide Inv, Reserve, Resting, AlikeResults, AllHot;
    var all := w.reserved + more;
    BaseFacts(r, w, late, catalog, cfg);
    ReserveSame(w.s, batch, all, cfg);
    SameBase(r, w, more, late, catalog, cfg);
    assert Ids(all) + [] == Ids(all);
    var v := Base(r, w, late, catalog);
    BaseRests(v, w.s, batch, all, cfg);
    if w.reserved == [] {
      ReserveAlike(v, w.s, batch, all, cfg);
    } else {
      ReserveMore(v, w.s, w.s.pendingBatch.value, batch, w.reserved, more, cfg);
    }
    ResultsWrap(Reserve(v, batch, all, cfg), Reserve(w.s, batch, all, cfg));
  }

  lemma ResultsWrap(a: Option<State>, b: Option<State>)
    requires AlikeResults(a, b) && b.Some?
    ensures AlikeResults(a, Some(b.value))
  {
  }

  /** The scheduler's next reservation of the same batch is the replay's one reservation. */
  lemma ReserveMore(v: State, s: State, before: nat, batch: nat, reserved: seq<Slice>, more: seq<Slice>, cfg: Config)
    requires Resting(v, before, reserved, cfg) && Resting(v, batch, reserved + more, cfg) && Inv(s, cfg) && more != []
    requires AlikeResults(Reserve(v, before, reserved, cfg), Some(s)) && s.pendingBatch == Some(before)
    requires Reserve(s, batch, reserved + more, cfg).Some?
    ensures AlikeResults(Reserve(v, batch, reserved + more, cfg), Reserve(s, batch, reserved + more, cfg))
  {
    hide Inv, Reserve, AllHot, Alike;
    var all, k := reserved + more, |reserved|;
    assert all[..k] == reserved;
    SameBatch(s, before, batch, all, cfg);
    var t := Reserve(v, batch, reserved, cfg).value;
    WholeRests(v, t, batch, all, k, cfg);
    ReserveAlike(t, s, batch, all, cfg);
    RestReserves(v, t, batch, all, k, cfg);
  }

  lemma SameBatch(s: State, before: nat, batch: nat, slices: seq<Slice>, cfg: Config)
    requires cfg.Valid() && s.pendingBatch == Some(before) && Reserve(s, batch, slices, cfg).Some?
    ensures batch == before
  {
    hide EvictKeys, MigrateAll, ReserveAll, MakePlan;
  }

  /** The batch has run: the replay of its log entry is where the plane is. */
  lemma TrackExecute(w: World, r: State, late: seq<nat>, next: World, finish: nat, catalog: nat -> Request, now: nat, cfg: Config)
    requires Lean(cfg) && Named(catalog) && Tracks(w, r, late, catalog, cfg) && w.reserved != [] && w.arriving == {}
    requires next.reserved == [] && next.arriving == {}
    requires Complete(w.s.(migrations := [], pendingBatch := None), w.reserved, finish, cfg) == Some(next.s)
    ensures ReplayBatch(r, CommitOf(w), catalog, now, cfg).Some?
    ensures Tracks(next, ReplayBatch(r, CommitOf(w), catalog, now, cfg).value, [], catalog, cfg)
  {
    hide Inv, Reserve, Resting, AlikeResults, AllHot;
    BaseFacts(r, w, late, catalog, cfg);
    HasFirst(late);
    var v := Base(r, w, late, catalog);
    assert Ids(w.reserved) + [] == Ids(w.reserved);
    NamedAdmits(r, Ids(w.reserved), catalog, now, cfg);
    var t := Reserve(v, w.s.pendingBatch.value, w.reserved, cfg);
    ExecutedAlike(t, w.s);
    ReservedInv(v, w.s.pendingBatch.value, w.reserved, cfg);
    assert next.s == w.s.(migrations := [], pendingBatch := None);
    var replayed := t.value.(migrations := [], pendingBatch := None);
    assert ReplayBatch(r, CommitOf(w), catalog, now, cfg) == Some(replayed);
    assert Ids([]) + [] == [];
  }

  lemma ExecutedAlike(a: Option<State>, s: State)
    requires AlikeResults(a, Some(s))
    ensures a.Some? && Alike(a.value.(migrations := [], pendingBatch := None), s.(migrations := [], pendingBatch := None))
  {
  }

  lemma ReservedInv(v: State, batch: nat, slices: seq<Slice>, cfg: Config)
    requires Resting(v, batch, slices, cfg) && Reserve(v, batch, slices, cfg).Some?
    ensures var t := Reserve(v, batch, slices, cfg).value.(migrations := [], pendingBatch := None);
      Inv(t, cfg) && t.entries == []
  {
    hide Inv, ReserveAll, Reserve, After;
    LeanReserve(v, batch, slices, cfg);
    AfterMeans(v, ReserveAll(v, batch, slices, cfg).value, batch, slices, cfg);
    PendingInv(Reserve(v, batch, slices, cfg).value, Reserve(v, batch, slices, cfg).value.(migrations := [], pendingBatch := None), cfg);
  }

  // ------------------------------------------------------------------- whole runs

  lemma TrackOpening(hotBlocks: nat, coldBlocks: nat, mems: KvMemory.Mems, catalog: nat -> Request, cfg: Config)
    requires Lean(cfg)
    ensures Tracks(Opening(hotBlocks, coldBlocks, mems), Start(hotBlocks, coldBlocks), [], catalog, cfg)
  {
    StartInv(hotBlocks, coldBlocks, cfg);
  }

  /** One call, and what it adds to the log. */
  lemma TrackStep(w: World, r: State, late: seq<nat>, action: Action, catalog: nat -> Request, now: nat, cfg: Config)
    returns (r': State, late': seq<nat>)
    requires Lean(cfg) && Named(catalog) && Sound(w, cfg) && Tracks(w, r, late, catalog, cfg) && Plain(w, action, catalog)
    requires Act(w, action, cfg).Some?
    ensures Tracks(Act(w, action, cfg).value, r', late', catalog, cfg)
    ensures if action.Executes? then ReplayBatch(r, CommitOf(w), catalog, now, cfg) == Some(r') else r' == r
  {
    hide Sound, Tracks, Admit, Reserve, Complete, Preempt, Release, Continuing, KvSteps.AdvancedAll, KvRefinement.Future, KeysFor, ReplayBatch;
    SoundKeysOf(w, cfg);
    r', late' := r, late;
    var next := Act(w, action, cfg).value;
    match action
    case Admits(request, _) =>
      LeanAdmit(w.s, request, KeysFor(request, cfg.blockTokens), 0, cfg);
      AdmitActs(w, action, cfg);
      TrackAdmit(w, r, late, request, catalog, cfg);
      late' := [request.id];
      SameTracks(w.(s := Joined(w.s, request), arriving := {request.id}), next, r, late', catalog, cfg);
    case Reserves(batch, more) =>
      TrackReserve(w, r, late, batch, more, catalog, cfg);
      late' := [];
      SameTracks(w.(s := Reserve(w.s, batch, w.reserved + more, cfg).value, reserved := w.reserved + more, arriving := {}), next, r, late',
                 catalog, cfg);
    case Executes(finish) =>
      TrackExecute(w, r, late, next, finish, catalog, now, cfg);
      r' := ReplayBatch(r, CommitOf(w), catalog, now, cfg).value;
      late' := [];
    case Releases(id) =>
      TrackRelease(w, r, late, id, catalog, cfg);
      late' := [];
      SameTracks(w.(s := Release(w.s, id).value, arriving := w.arriving - {id}), next, r, late', catalog, cfg);
  }

  lemma SoundKeysOf(w: World, cfg: Config)
    requires Sound(w, cfg)
    ensures Inv(w.s, cfg) && AllCounted(w.reserved)
  {
  }

  lemma AdmitActs(w: World, action: Action, cfg: Config)
    requires Lean(cfg) && action.Admits? && Act(w, action, cfg).Some?
    ensures w.arriving == {} && action.request.Valid() && action.request.id !in w.s.kv
    ensures Act(w, action, cfg).value.s == Joined(w.s, action.request)
    ensures Act(w, action, cfg).value.reserved == w.reserved && Act(w, action, cfg).value.arriving == {action.request.id}
  {
    hide KvAdmission.HitFront;
  }

  /** Only the plane, the batch and the newcomers matter. */
  lemma SameTracks(w: World, next: World, r: State, late: seq<nat>, catalog: nat -> Request, cfg: Config)
    requires Tracks(w, r, late, catalog, cfg) && next.s == w.s && next.reserved == w.reserved && next.arriving == w.arriving
    ensures Tracks(next, r, late, catalog, cfg)
  {
    hide Inv, Reserve, Resting, AlikeResults, Alike;
    assert Base(r, next, late, catalog) == Base(r, w, late, catalog) && Base(r, next, [], catalog) == Base(r, w, [], catalog);
  }

  lemma {:induction false} TrackRun(hotBlocks: nat, coldBlocks: nat, mems: KvMemory.Mems, actions: seq<Action>, catalog: nat -> Request, now: nat,
                                    cfg: Config) returns (r: State, late: seq<nat>)
    requires Lean(cfg) && Named(catalog)
    requires Play(Opening(hotBlocks, coldBlocks, mems), actions, cfg).Some? && Steady(Opening(hotBlocks, coldBlocks, mems), actions, catalog, cfg)
    ensures Replayed(Start(hotBlocks, coldBlocks), LogOf(Opening(hotBlocks, coldBlocks, mems), actions, cfg), catalog, now, cfg) == Some(r)
    ensures Tracks(Play(Opening(hotBlocks, coldBlocks, mems), actions, cfg).value, r, late, catalog, cfg)
    decreases |actions|
  {
    hide Tracks, Act, Play, Sound, ReplayBatch, Opening;
    var opening := Opening(hotBlocks, coldBlocks, mems);
    if actions == [] {
      PlayNone(opening, cfg);
      TrackOpening(hotBlocks, coldBlocks, mems, catalog, cfg);
      r, late := Start(hotBlocks, coldBlocks), [];
    } else {
      var front, last := actions[..|actions| - 1], actions[|actions| - 1];
      PlayLast(opening, actions, cfg);
      var before, newest := TrackRun(hotBlocks, coldBlocks, mems, front, catalog, now, cfg);
      OpeningSound(hotBlocks, coldBlocks, mems, cfg);
      PlaySound(opening, front, cfg);
      var w := Play(opening, front, cfg).value;
      r, late := TrackStep(w, before, newest, last, catalog, now, cfg);
      if last.Executes? {
        ReplayedPush(Start(hotBlocks, coldBlocks), LogOf(opening, front, cfg), CommitOf(w), catalog, now, cfg);
      } else {
        assert LogOf(opening, front, cfg) + [] == LogOf(opening, front, cfg);
      }
    }
  }

  lemma ReplayedPush(s: State, log: seq<Commit>, commit: Commit, catalog: nat -> Request, now: nat, cfg: Config)
    requires cfg.Valid() && Named(catalog)
    ensures Replayed(s, log + [commit], catalog, now, cfg) ==
      match Replayed(s, log, catalog, now, cfg) case None => None case Some(t) => ReplayBatch(t, commit, catalog, now, cfg)
  {
    hide ReplayBatch;
    assert (log + [commit])[..|log|] == log;
  }

  /** The main result: after a run without preemption, the replay of its log succeeds, and every live
      request has the same blocks, layer by layer, in the same order. */
  lemma ReplayRestores(hotBlocks: nat, coldBlocks: nat, mems: KvMemory.Mems, actions: seq<Action>, catalog: nat -> Request, now: nat, cfg: Config)
    returns (r: State)
    requires Lean(cfg) && Named(catalog)
    requires Play(Opening(hotBlocks, coldBlocks, mems), actions, cfg).Some? && Steady(Opening(hotBlocks, coldBlocks, mems), actions, catalog, cfg)
    requires var w := Play(Opening(hotBlocks, coldBlocks, mems), actions, cfg).value; w.reserved == [] && w.arriving == {}
    ensures Replayed(Start(hotBlocks, coldBlocks), LogOf(Opening(hotBlocks, coldBlocks, mems), actions, cfg), catalog, now, cfg) == Some(r)
    ensures Alike(r, Play(Opening(hotBlocks, coldBlocks, mems), actions, cfg).value.s)
  {
    hide Act, Play, Sound, Replayed, Alike, Inv, Steady, Opening;
    var late;
    r, late := TrackRun(hotBlocks, coldBlocks, mems, actions, catalog, now, cfg);
    HasFirst(late);
    assert Ids([]) + [] == [];
  }
}
