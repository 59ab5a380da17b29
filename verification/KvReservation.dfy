/** A reservation as a whole, across evictions, swap-outs, swap-ins, growth and publication. */
module KvReservation {
  import opened PrefixKeys
  import opened PrefixSpec
  import opened PlacementSpec
  import opened PlacementInvariant
  import opened PlannerSoundness
  import opened KvMemory
  import opened KvRefinement
  import opened KvPublish
  import opened KvSteps

  /** The scheduler's promise about the slices it adds to a batch: each continues its
      request's token frontier and stays inside its lifetime. */
  ghost predicate Continuing(s: State, frontier: map<nat, nat>, more: seq<Slice>)
  {
    forall i :: 0 <= i < |more| && more[i].request in s.kv && more[i].request in frontier ==>
      more[i].begin == frontier[more[i].request] && more[i].End() <= s.kv[more[i].request].request.Lifetime()
  }

  /** Reserving a batch, or the same batch grown by more slices, keeps every promise; the
      frontiers of the added requests move to the ends of their slices. */
  lemma ReserveGood(s: State, batch: nat, reserved: seq<Slice>, more: seq<Slice>, mems: Mems, frontier: map<nat, nat>,
                    exempt: set<nat>, cfg: Config)
    requires cfg.Valid() && Good(s, mems, frontier, reserved, exempt, cfg)
    requires Reserve(s, batch, reserved + more, cfg).Some?
    requires forall i :: 0 <= i < |reserved + more| ==> (reserved + more)[i].count > 0
    requires Continuing(s, frontier, more) && exempt <= InBatch(reserved + more)
    ensures Good(Reserve(s, batch, reserved + more, cfg).value, mems, AdvancedAll(frontier, more), reserved + more, {}, cfg)
  {
    hide Inv, Good, Needed, MakePlan, ReserveAll, EvictKeys, MigrateAll, AdvancedAll, Continuing;
    var slices := reserved + more;
    GoodInv(s, mems, frontier, reserved, exempt, cfg);
    FeasibleMeans(s, slices, cfg);
    var s3 := RoomGood(s, reserved, more, mems, frontier, exempt, cfg);
    SlicesGood(s, s3, batch, reserved, more, mems, frontier, exempt, cfg);
    var s4 := ReserveAll(s3, batch, slices, cfg).value;
    PendingGood(s4, batch, mems, AdvancedAll(frontier, more), slices, exempt, cfg);
  }

  lemma PendingGood(s: State, batch: nat, mems: Mems, frontier: map<nat, nat>, reserved: seq<Slice>, exempt: set<nat>, cfg: Config)
    requires Good(s, mems, frontier, reserved, exempt, cfg) && exempt <= InBatch(reserved)
    ensures Good(s.(pendingBatch := Some(batch)), mems, frontier, reserved, {}, cfg)
  {
    hide Accounted, Dirty, Held, ColdBalanced, AllShaped, ReadsRight, WriteAll, ApplyAll;
    var next := s.(pendingBatch := Some(batch));
    assert next.Cache() == s.Cache();
    PendingInv(s, next, cfg);
    assert Future(next, mems, reserved, cfg) == Future(s, mems, reserved, cfg);
  }

  lemma PendingInv(s: State, next: State, cfg: Config)
    requires Inv(s, cfg) && next.(pendingBatch := s.pendingBatch, migrations := s.migrations) == s
    ensures Inv(next, cfg)
  {
    assert next.Cache() == s.Cache();
  }

  /** The planned evictions and migrations in both directions. */
  lemma RoomGood(s: State, reserved: seq<Slice>, more: seq<Slice>, mems: Mems, frontier: map<nat, nat>,
                 exempt: set<nat>, cfg: Config) returns (s3: State)
    requires cfg.Valid() && Good(s, mems, frontier, reserved, exempt, cfg) && MakePlan(s, reserved + more, cfg).Feasible?
    requires forall i :: 0 <= i < |reserved + more| ==> (reserved + more)[i].count > 0
    requires exempt <= InBatch(reserved + more)
    ensures var plan := MakePlan(s, reserved + more, cfg);
      && EvictKeys(s, plan.evictions, cfg).Some?
      && MigrateAll(EvictKeys(s, plan.evictions, cfg).value, plan.victims, true).Some?
      && MigrateAll(MigrateAll(EvictKeys(s, plan.evictions, cfg).value, plan.victims, true).value, plan.swapIn, false) == Some(s3)
    ensures Good(s3, mems, frontier, reserved, exempt, cfg) && AllHot(s3, reserved + more)
    ensures GrowthSum(s3.kv, reserved + more, cfg) <= s3.hot.Free()
    ensures SameRequests(s, s3)
  {
    hide Inv, Good, Needed, MakePlan, EvictKeys, MigrateAll, Movable, Chosen, AllHot;
    var slices := reserved + more;
    var plan := MakePlan(s, slices, cfg);
    GoodInv(s, mems, frontier, reserved, exempt, cfg);
    FeasibleMeans(s, slices, cfg);
    var s2 := VictimsMakeRoom(s, slices, cfg);
    var s1 := EvictKeys(s, plan.evictions, cfg).value;
    EvictKeysGood(s, plan.evictions, mems, frontier, reserved, exempt, cfg);
    VictimsOutside(s, s1, reserved, more, plan, cfg);
    MigrateAllGood(s1, plan.victims, true, mems, frontier, reserved, exempt, cfg);
    s3 := SwapInsFit(s, s2, slices, plan.victims, cfg);
    BatchUntouched(s, s2, slices, plan.victims);
    SwapMovable(s, s2, slices, cfg);
    ReservedHot(s, mems, frontier, reserved, exempt, cfg);
    SwapInsOutside(s, reserved, more);
    MigrateAllGood(s2, plan.swapIn, false, mems, frontier, reserved, exempt, cfg);
  }

  lemma VictimsOutside(s: State, s1: State, reserved: seq<Slice>, more: seq<Slice>, plan: Plan, cfg: Config)
    requires cfg.Valid() && plan.Feasible? && plan == MakePlan(s, reserved + more, cfg) && s1.kv == s.kv
    requires Chosen(s.kv, plan.victims, Candidates(s.kv, InBatch(reserved + more)))
    ensures Movable(s1, plan.victims, true, cfg)
    ensures forall k :: 0 <= k < |plan.victims| ==>
      plan.victims[k] !in InBatch(reserved + more) && plan.victims[k] !in InBatch(reserved)
  {
    var slices := reserved + more;
    if cfg.hasCold {
      VictimsMovable(s1, Candidates(s.kv, InBatch(slices)), slices, plan.victims, cfg);
    }
    forall id | id in InBatch(reserved) ensures id in InBatch(slices) {
      var i :| 0 <= i < |reserved| && reserved[i].request == id;
      assert slices[i].request == id;
    }
  }

  lemma ReservedHot(s: State, mems: Mems, frontier: map<nat, nat>, reserved: seq<Slice>, exempt: set<nat>, cfg: Config)
    requires Good(s, mems, frontier, reserved, exempt, cfg)
    ensures forall id :: id in InBatch(reserved) ==> id in s.kv && s.kv[id].tier.Hot?
  {
  }

  lemma SwapInsOutside(s: State, reserved: seq<Slice>, more: seq<Slice>)
    requires Known(s, reserved + more)
    requires forall id :: id in InBatch(reserved) ==> id in s.kv && s.kv[id].tier.Hot?
    ensures forall k :: 0 <= k < |SwapIns(s.kv, reserved + more)| ==> SwapIns(s.kv, reserved + more)[k] !in InBatch(reserved)
  {
    SwapInsChosen(s.kv, reserved + more);
  }

  /** The slices one after the other: first those already reserved, then the new ones. */
  lemma SlicesGood(s: State, s3: State, batch: nat, reserved: seq<Slice>, more: seq<Slice>, mems: Mems, frontier: map<nat, nat>,
                   exempt: set<nat>, cfg: Config)
    requires cfg.Valid() && Good(s3, mems, frontier, reserved, exempt, cfg) && AllHot(s3, reserved + more)
    requires GrowthSum(s3.kv, reserved + more, cfg) <= s3.hot.Free()
    requires SameRequests(s, s3) && Continuing(s, frontier, more)
    ensures ReserveAll(s3, batch, reserved + more, cfg).Some?
    ensures Good(ReserveAll(s3, batch, reserved + more, cfg).value, mems, AdvancedAll(frontier, more), reserved + more, exempt, cfg)
  {
    hide Inv, Good, ReserveAll, AdvancedAll, GrowthOf, AllHot, SameRequests, Continuing, SameShapes, AllNext, Reserved;
    GoodInv(s3, mems, frontier, reserved, exempt, cfg);
    ReserveAllExact(s3, batch, reserved + more, cfg);
    AllHotMeans(s3, reserved, more);
    ReserveAgainAll(s3, batch, reserved, mems, frontier, reserved, exempt, cfg);
    var mid := ReserveAll(s3, batch, reserved, cfg).value;
    ReserveAllSplit(s3, batch, reserved, more, cfg);
    AddedNext(s, s3, mid, frontier, reserved, more);
    ReserveNewAll(mid, batch, more, mems, frontier, reserved, exempt, cfg);
  }

  lemma AllHotMeans(s: State, reserved: seq<Slice>, more: seq<Slice>)
    requires AllHot(s, reserved + more)
    ensures forall i :: 0 <= i < |reserved| ==> reserved[i] in reserved && reserved[i].count > 0
  {
    forall i | 0 <= i < |reserved| ensures reserved[i].count > 0 {
      assert (reserved + more)[i] == reserved[i];
    }
  }

  lemma AddedNext(s: State, s3: State, mid: State, frontier: map<nat, nat>, reserved: seq<Slice>, more: seq<Slice>)
    requires AllHot(s3, reserved + more) && SameRequests(s, s3) && SameShapes(s3, mid) && Continuing(s, frontier, more)
    requires frontier.Keys == s3.kv.Keys
    ensures AllNext(mid, frontier, reserved, more)
  {
    var slices := reserved + more;
    forall i | 0 <= i < |more| ensures Next(mid, frontier, reserved, more[i]) {
      assert slices[|reserved| + i] == more[i];
      forall k | 0 <= k < |reserved| ensures reserved[k].request != more[i].request {
        assert slices[k] == reserved[k];
      }
    }
    forall i, j | 0 <= i < j < |more| ensures more[i].request != more[j].request {
      assert slices[|reserved| + i] == more[i] && slices[|reserved| + j] == more[j];
    }
  }
}
