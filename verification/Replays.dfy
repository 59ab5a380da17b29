/** Replaying a logged batch with one reservation rebuilds the block tables that the scheduler's
    growing reservations built.
 */
module Replays {
  import opened PrefixKeys
  import opened PlacementSpec
  import opened PlacementInvariant
  import opened PlannerSoundness
  import opened PlacementRuns
  import opened LeanPlane

  /** The slice's blocks are there, and it is marked for the batch. */
  ghost predicate Settled(s: State, batch: nat, slice: Slice, cfg: Config)
    requires cfg.Valid()
  {
    && slice.request in s.kv && s.kv[slice.request].lastBatch == batch
    && BlocksFor(slice.End(), cfg.blockTokens) <= s.kv[slice.request].Width()
  }

  ghost predicate AllSettled(s: State, batch: nat, slices: seq<Slice>, cfg: Config)
    requires cfg.Valid()
  {
    forall i :: 0 <= i < |slices| ==> Settled(s, batch, slices[i], cfg)
  }

  lemma SettledOne(s: State, batch: nat, slice: Slice, cfg: Config)
    requires Lean(cfg) && Settled(s, batch, slice, cfg)
    ensures ReserveOne(s, batch, slice, cfg) == Some(s) && GrowthOf(s.kv[slice.request], slice, cfg) == 0
  {
    var st := s.kv[slice.request];
    assert st.(lastBatch := batch) == st && s.kv[slice.request := st] == s.kv;
  }

  /** Reserving again what is reserved changes nothing. */
  lemma {:induction false} SettledAll(s: State, batch: nat, slices: seq<Slice>, cfg: Config)
    requires Lean(cfg) && AllSettled(s, batch, slices, cfg)
    ensures ReserveAll(s, batch, slices, cfg) == Some(s)
    ensures GrowthSum(s.kv, slices, cfg) == 0
    decreases |slices|
  {
    if slices != [] {
      assert Settled(s, batch, slices[0], cfg);
      SettledOne(s, batch, slices[0], cfg);
      assert forall i :: 0 <= i < |slices[1..]| ==> slices[1..][i] == slices[i + 1];
      SettledAll(s, batch, slices[1..], cfg);
    }
  }

  lemma {:induction false} ReserveAllPush(s: State, batch: nat, slices: seq<Slice>, more: Slice, cfg: Config)
    requires cfg.Valid()
    ensures ReserveAll(s, batch, slices + [more], cfg) ==
            match ReserveAll(s, batch, slices, cfg) case None => None case Some(t) => ReserveOne(t, batch, more, cfg)
    decreases |slices|
  {
    hide ReserveOne;
    var all := slices + [more];
    if slices == [] {
      assert all[1..] == [];
      match ReserveOne(s, batch, more, cfg) {
        case None =>
        case Some(t) => assert ReserveAll(t, batch, [], cfg) == Some(t);
      }
    } else {
      assert all[0] == slices[0] && all[1..] == slices[1..] + [more];
      match ReserveOne(s, batch, slices[0], cfg) {
        case None =>
        case Some(t) => ReserveAllPush(t, batch, slices[1..], more, cfg);
      }
    }
  }

  lemma {:induction false} GrowthPush(kv: map<nat, RequestKv>, slices: seq<Slice>, more: Slice, cfg: Config)
    requires cfg.Valid() && more.request in kv
    requires forall i :: 0 <= i < |slices| ==> slices[i].request in kv
    ensures GrowthSum(kv, slices + [more], cfg) == GrowthSum(kv, slices, cfg) + GrowthOf(kv[more.request], more, cfg)
  {
    hide GrowthOf;
    var all := slices + [more];
    if slices != [] {
      assert all[0] == slices[0] && all[1..] == slices[1..] + [more];
      GrowthPush(kv, slices[1..], more, cfg);
    }
  }

  /** One slice takes exactly the blocks it grows by. */
  lemma LeanOne(s: State, batch: nat, slice: Slice, cfg: Config)
    requires Lean(cfg) && Inv(s, cfg) && slice.request in s.kv && s.kv[slice.request].tier.Hot? && slice.count > 0
    requires GrowthOf(s.kv[slice.request], slice, cfg) <= s.hot.Free()
    ensures ReserveOne(s, batch, slice, cfg).Some?
    ensures var t := ReserveOne(s, batch, slice, cfg).value;
      && Inv(t, cfg) && GrewOnly(s, t, slice.request) && t.entries == s.entries && Settled(t, batch, slice, cfg)
      && t.hot.Free() == s.hot.Free() - GrowthOf(s.kv[slice.request], slice, cfg)
  {
    hide Inv, GrowTable;
    ReserveOneExact(s, batch, slice, cfg);
    var grow := Grow(s.kv[slice.request], slice.End(), cfg.blockTokens);
    GrowFree(s, slice.request, grow, cfg);
    GrowEntries(s, slice.request, grow);
  }

  lemma GrowEntries(s: State, id: nat, grow: nat)
    requires id in s.kv && GrowTable(s, id, grow).Some?
    ensures GrowTable(s, id, grow).value.entries == s.entries
  {
  }

  /** What reserving several slices leaves. */
  ghost predicate After(s: State, t: State, batch: nat, slices: seq<Slice>, cfg: Config)
    requires cfg.Valid() && Known(s, slices)
  {
    && Inv(t, cfg) && t.entries == s.entries && t.kv.Keys == s.kv.Keys && t.pendingBatch == s.pendingBatch
    && (forall id :: id in s.kv && id !in InBatch(slices) ==> t.kv[id] == s.kv[id])
    && (forall id :: id in s.kv ==> t.kv[id].tier == s.kv[id].tier)
    && AllSettled(t, batch, slices, cfg)
    && t.hot.Free() == s.hot.Free() - GrowthSum(s.kv, slices, cfg)
  }

  lemma {:induction false} LeanAll(s: State, batch: nat, slices: seq<Slice>, cfg: Config)
    requires Lean(cfg) && Inv(s, cfg) && AllHot(s, slices) && GrowthSum(s.kv, slices, cfg) <= s.hot.Free()
    ensures ReserveAll(s, batch, slices, cfg).Some? && After(s, ReserveAll(s, batch, slices, cfg).value, batch, slices, cfg)
    decreases |slices|
  {
    if slices != [] {
      hide Inv, ReserveOne, GrowthOf, After, AllHot, GrewOnly, Settled;
      AllHotFirst(s, slices);
      LeanOne(s, batch, slices[0], cfg);
      var mid := ReserveOne(s, batch, slices[0], cfg).value;
      AllHotRest(s, mid, slices, cfg);
      GrowthFrame(s.kv, mid.kv, slices[1..], cfg);
      LeanAll(mid, batch, slices[1..], cfg);
      AfterChain(s, mid, ReserveAll(mid, batch, slices[1..], cfg).value, batch, slices, cfg);
    } else {
      hide Inv;
    }
  }

  lemma AfterChain(s: State, mid: State, t: State, batch: nat, slices: seq<Slice>, cfg: Config)
    requires cfg.Valid() && slices != [] && AllHot(s, slices) && AllHot(mid, slices[1..]) && GrewOnly(s, mid, slices[0].request)
    requires mid.entries == s.entries && Settled(mid, batch, slices[0], cfg)
    requires mid.hot.Free() == s.hot.Free() - GrowthOf(s.kv[slices[0].request], slices[0], cfg)
    requires GrowthSum(mid.kv, slices[1..], cfg) == GrowthSum(s.kv, slices[1..], cfg)
    requires After(mid, t, batch, slices[1..], cfg)
    ensures After(s, t, batch, slices, cfg)
  {
    hide Inv, GrowthOf, Settled, AllSettled;
    var rest := slices[1..];
    assert forall i :: 0 <= i < |rest| ==> rest[i] == slices[i + 1];
    InBatchFirst(slices);
    assert slices[0].request !in InBatch(rest);
    SettledChain(mid, t, batch, slices, cfg);
  }

  lemma SettledChain(mid: State, t: State, batch: nat, slices: seq<Slice>, cfg: Config)
    requires cfg.Valid() && slices != [] && Settled(mid, batch, slices[0], cfg) && AllSettled(t, batch, slices[1..], cfg)
    requires slices[0].request in t.kv && t.kv[slices[0].request] == mid.kv[slices[0].request]
    ensures AllSettled(t, batch, slices, cfg)
  {
    forall i | 0 <= i < |slices| ensures Settled(t, batch, slices[i], cfg) {
      assert i > 0 ==> slices[i] == slices[1..][i - 1];
    }
  }

  // ------------------------------------------------------------------ replay

  /** A lean reservation is the growth of its slices, or fails for lack of blocks. */
  lemma LeanReserve(s: State, batch: nat, slices: seq<Slice>, cfg: Config)
    requires Lean(cfg) && Inv(s, cfg) && s.entries == [] && AllHot(s, slices)
    requires s.pendingBatch.None? || s.pendingBatch.value == batch
    ensures Reserve(s, batch, slices, cfg).Some? <==> GrowthSum(s.kv, slices, cfg) <= s.hot.Free()
    ensures Reserve(s, batch, slices, cfg).Some? ==>
      && ReserveAll(s, batch, slices, cfg).Some?
      && Reserve(s, batch, slices, cfg).value == ReserveAll(s, batch, slices, cfg).value.(pendingBatch := Some(batch))
      && After(s, ReserveAll(s, batch, slices, cfg).value, batch, slices, cfg)
  {
    hide Inv, ReserveAll, After;
    NeededSplits(s.kv, slices, cfg);
    NoSwapIns(s.kv, slices);
    assert Needed(s.kv, slices, cfg.blockTokens) == GrowthSum(s.kv, slices, cfg);
    PlanWithoutTiers(s, slices, cfg);
    if GrowthSum(s.kv, slices, cfg) <= s.hot.Free() {
      LeanAll(s, batch, slices, cfg);
      LeanPlan(s, slices, cfg);
    }
  }

  ghost function Pending(s: Option<State>, batch: nat): Option<State>
  {
    match s case None => None case Some(t) => Some(t.(pendingBatch := Some(batch)))
  }

  lemma OnePending(s: State, batch: nat, slice: Slice, cfg: Config)
    requires Lean(cfg)
    ensures ReserveOne(s.(pendingBatch := Some(batch)), batch, slice, cfg) == Pending(ReserveOne(s, batch, slice, cfg), batch)
  {
    hide AllocateRows, Appended;
  }

  lemma AllHotPush(s: State, slices: seq<Slice>, more: Slice)
    requires AllHot(s, slices + [more])
    ensures AllHot(s, slices) && more.request in s.kv && s.kv[more.request].tier.Hot? && more.count > 0
    ensures more.request !in InBatch(slices)
  {
    var all := slices + [more];
    assert all[|slices|] == more;
    assert forall i :: 0 <= i < |slices| ==> all[i] == slices[i];
  }

  lemma AllHotStays(s: State, t: State, slices: seq<Slice>)
    requires AllHot(s, slices) && t.kv.Keys == s.kv.Keys && forall id :: id in s.kv ==> t.kv[id].tier == s.kv[id].tier
    ensures AllHot(t, slices)
  {
  }

  /** The state between two of the scheduler's reservations. */
  ghost predicate Resting(s: State, batch: nat, slices: seq<Slice>, cfg: Config)
  {
    && Lean(cfg) && Inv(s, cfg) && s.entries == [] && AllHot(s, slices)
    && (s.pendingBatch.None? || s.pendingBatch.value == batch)
  }

  /** Reserving some slices first makes no difference to reserving one more with them. */
  lemma OneMoreSlice(s: State, batch: nat, slices: seq<Slice>, more: Slice, cfg: Config)
    requires Resting(s, batch, slices + [more], cfg) && Reserve(s, batch, slices, cfg).Some?
    ensures
      var t := Reserve(s, batch, slices, cfg).value;
      Resting(t, batch, slices + [more], cfg) && Reserve(t, batch, slices + [more], cfg) == Reserve(s, batch, slices + [more], cfg)
  {
    AllHotPush(s, slices, more);
    LeanReserve(s, batch, slices, cfg);
    var all, t0 := slices + [more], ReserveAll(s, batch, slices, cfg).value;
    var t := t0.(pendingBatch := Some(batch));
    AfterMeans(s, t0, batch, slices, cfg);
    AllHotStays(s, t, all);
    hide Inv, ReserveAll, ReserveOne, AllHot, GrowthOf, After, AllSettled, Settled, Reserve;
    LeanReserve(s, batch, all, cfg);
    LeanReserve(t, batch, all, cfg);
    GrowthPush(s.kv, slices, more, cfg);
    GrowthPush(t.kv, slices, more, cfg);
    SettledAll(t, batch, slices, cfg);
    assert t.kv[more.request] == s.kv[more.request];
    ReserveAllPush(s, batch, slices, more, cfg);
    ReserveAllPush(t, batch, slices, more, cfg);
    OnePending(t0, batch, more, cfg);
  }

  lemma AfterMeans(s: State, t0: State, batch: nat, slices: seq<Slice>, cfg: Config)
    requires cfg.Valid() && Known(s, slices) && After(s, t0, batch, slices, cfg)
    ensures var t := t0.(pendingBatch := Some(batch));
      && Inv(t, cfg) && AllSettled(t, batch, slices, cfg) && t.kv.Keys == s.kv.Keys && t.entries == s.entries
      && (forall id :: id in s.kv && id !in InBatch(slices) ==> t.kv[id] == s.kv[id])
      && (forall id :: id in s.kv ==> t.kv[id].tier == s.kv[id].tier)
      && t.hot.Free() == s.hot.Free() - GrowthSum(s.kv, slices, cfg)
  {
    var t := t0.(pendingBatch := Some(batch));
    assert t.Cache() == t0.Cache();
    forall i | 0 <= i < |slices| ensures Settled(t, batch, slices[i], cfg) {
      assert Settled(t0, batch, slices[i], cfg);
    }
  }

  lemma PrefixRests(s: State, batch: nat, slices: seq<Slice>, k: nat, cfg: Config)
    requires Resting(s, batch, slices, cfg) && k <= |slices|
    ensures Resting(s, batch, slices[..k], cfg)
  {
  }

  lemma WholeRests(s: State, t: State, batch: nat, slices: seq<Slice>, k: nat, cfg: Config)
    requires Resting(s, batch, slices, cfg) && k <= |slices| && Reserve(s, batch, slices[..k], cfg) == Some(t)
    ensures Resting(t, batch, slices, cfg) && t.pendingBatch == Some(batch)
  {
    PrefixRests(s, batch, slices, k, cfg);
    LeanReserve(s, batch, slices[..k], cfg);
    AfterMeans(s, ReserveAll(s, batch, slices[..k], cfg).value, batch, slices[..k], cfg);
    hide Inv, ReserveAll, After, AllHot;
    AllHotStays(s, t, slices);
  }

  /** Slice by slice from t, or all at once from s. */
  lemma {:induction false} RestReserves(s: State, t: State, batch: nat, slices: seq<Slice>, k: nat, cfg: Config)
    requires Resting(s, batch, slices, cfg) && k < |slices| && Reserve(s, batch, slices[..k], cfg) == Some(t)
    ensures Reserve(t, batch, slices, cfg).Some? ==> Reserve(t, batch, slices, cfg) == Reserve(s, batch, slices, cfg)
  {
    Reserves(s, t, batch, slices, k, |slices|, cfg);
    assert slices[..|slices|] == slices;
  }

  /** Once the first k slices are reserved, reserving the first n gives what it gives from the start. */
  lemma {:induction false} Reserves(s: State, t: State, batch: nat, slices: seq<Slice>, k: nat, n: nat, cfg: Config)
    requires Resting(s, batch, slices, cfg) && k < n <= |slices| && Reserve(s, batch, slices[..k], cfg) == Some(t)
    ensures Reserve(t, batch, slices[..n], cfg).Some? ==> Reserve(t, batch, slices[..n], cfg) == Reserve(s, batch, slices[..n], cfg)
    decreases n
  {
    hide Inv, Reserve, AllHot;
    var front := slices[..n - 1];
    assert slices[..n] == front + [slices[n - 1]];
    PrefixRests(s, batch, slices, n, cfg);
    WholeRests(s, t, batch, slices, k, cfg);
    PrefixRests(t, batch, slices, n, cfg);
    if k == n - 1 {
      OneMoreSlice(s, batch, front, slices[n - 1], cfg);
    } else {
      Reserves(s, t, batch, slices, k, n - 1, cfg);
      if Reserve(t, batch, slices[..n], cfg).Some? {
        FewerFit(t, batch, slices, n - 1, cfg);
        OneMoreSlice(t, batch, front, slices[n - 1], cfg);
        OneMoreSlice(s, batch, front, slices[n - 1], cfg);
      }
    }
  }

  /** If n + 1 slices fit, n do. */
  lemma FewerFit(s: State, batch: nat, slices: seq<Slice>, n: nat, cfg: Config)
    requires Resting(s, batch, slices, cfg) && n < |slices| && Reserve(s, batch, slices[..n + 1], cfg).Some?
    ensures Reserve(s, batch, slices[..n], cfg).Some?
  {
    PrefixRests(s, batch, slices, n, cfg);
    PrefixRests(s, batch, slices, n + 1, cfg);
    GrowthLess(s, slices, n, cfg);
    hide Inv, Reserve, GrowthOf, After, ReserveAll, GrowthSum;
    LeanReserve(s, batch, slices[..n], cfg);
    LeanReserve(s, batch, slices[..n + 1], cfg);
  }

  lemma GrowthLess(s: State, slices: seq<Slice>, n: nat, cfg: Config)
    requires cfg.Valid() && n < |slices| && AllHot(s, slices[..n + 1]) && AllHot(s, slices[..n])
    ensures GrowthSum(s.kv, slices[..n], cfg) <= GrowthSum(s.kv, slices[..n + 1], cfg)
  {
    hide GrowthOf;
    assert slices[..n + 1] == slices[..n] + [slices[n]];
    AllHotPush(s, slices[..n], slices[n]);
    GrowthPush(s.kv, slices[..n], slices[n], cfg);
  }

  // ------------------------------------------------------------- admissions

  /** The state with one more request that holds nothing. */
  ghost function Joined(s: State, request: Request): State
  {
    s.(kv := s.kv[request.id := RequestKv(request, s.nextOrder, Hot, [], -1, [], 0)], nextOrder := s.nextOrder + 1)
  }

  lemma JoinedOne(s: State, batch: nat, slice: Slice, request: Request, cfg: Config)
    requires Lean(cfg) && request.id !in s.kv && slice.request in s.kv
    ensures
      var one := ReserveOne(s, batch, slice, cfg);
      && ReserveOne(Joined(s, request), batch, slice, cfg) == (if one.None? then None else Some(Joined(one.value, request)))
      && (one.Some? ==> one.value.kv.Keys == s.kv.Keys && one.value.nextOrder == s.nextOrder)
  {
    hide AllocateRows, Appended;
    var one := ReserveOne(s, batch, slice, cfg);
    if one.Some? {
      assert ReserveOne(Joined(s, request), batch, slice, cfg).value.kv == Joined(one.value, request).kv;
    }
  }

  /** Admitting a request before or after the reservations of others comes to the same. */
  lemma {:induction false} AdmissionCommutes(s: State, batch: nat, slices: seq<Slice>, request: Request, keys: seq<Key>, now: nat, cfg: Config)
    requires Lean(cfg) && request.Valid() && request.id !in s.kv && Known(s, slices)
    ensures Admit(s, request, keys, now, cfg) == Some(Joined(s, request))
    ensures
      var all := ReserveAll(s, batch, slices, cfg);
      && (all.Some? ==> request.id !in all.value.kv && Admit(all.value, request, keys, now, cfg) == Some(Joined(all.value, request)))
      && ReserveAll(Joined(s, request), batch, slices, cfg) == if all.None? then None else Some(Joined(all.value, request))
    decreases |slices|
  {
    hide ReserveOne;
    if slices != [] {
      JoinedOne(s, batch, slices[0], request, cfg);
      var one := ReserveOne(s, batch, slices[0], cfg);
      if one.Some? {
        AdmissionCommutes(one.value, batch, slices[1..], request, keys, now, cfg);
      }
    }
  }
}
