/** Admission, execution, preemption and release keep the promises about the contents. */
module KvLifecycle {
  import opened PrefixKeys
  import opened PrefixSpec
  import opened PrefixProvenance
  import opened Tables
  import opened PlacementSpec
  import opened PlacementInvariant
  import opened PlacementRuns
  import opened KvMemory
  import opened KvRefinement
  import opened KvPublish
  import opened KvSteps
  import opened KvReservation

  // --------------------------------------------------------------- execution

  /** A batch reads and writes as decided, and then publishes what it has filled. */
  lemma ExecuteGood(s: State, finish: nat, mems: Mems, frontier: map<nat, nat>, reserved: seq<Slice>, exempt: set<nat>, cfg: Config)
    requires cfg.Valid() && Good(s, mems, frontier, reserved, exempt, cfg)
    requires forall i :: 0 <= i < |reserved| ==> reserved[i].count > 0
    ensures var done := s.(migrations := [], pendingBatch := None);
      && Complete(done, reserved, finish, cfg).Some?
      && Good(Complete(done, reserved, finish, cfg).value, Future(s, mems, reserved, cfg), frontier, [], {}, cfg)
      && Complete(done, reserved, finish, cfg).value.kv == s.kv
  {
    hide Good;
    var done := s.(migrations := [], pendingBatch := None);
    DoneGood(s, mems, frontier, reserved, exempt, cfg);
    SlicesCovered(s, mems, frontier, reserved, exempt, cfg);
    if cfg.Caching() {
      CompleteGood(done, reserved, finish, Future(s, mems, reserved, cfg), frontier, cfg);
    }
  }

  lemma DoneGood(s: State, mems: Mems, frontier: map<nat, nat>, reserved: seq<Slice>, exempt: set<nat>, cfg: Config)
    requires Good(s, mems, frontier, reserved, exempt, cfg)
    ensures Good(s.(migrations := [], pendingBatch := None), Future(s, mems, reserved, cfg), frontier, [], {}, cfg)
  {
    hide Inv, Dirty, ReadsRight, BlocksHold, Unfinished;
    var done := s.(migrations := [], pendingBatch := None);
    var after := Future(s, mems, reserved, cfg);
    PendingInv(s, done, cfg);
    assert Future(done, after, [], cfg) == after;
    NothingDirty(s.kv, cfg.blockTokens);
  }

  lemma NothingDirty(kv: map<nat, RequestKv>, blockTokens: nat)
    ensures Dirty(kv, [], blockTokens) == {}
  {
  }

  ghost predicate CoveredSlice(s: State, frontier: map<nat, nat>, slice: Slice, cfg: Config)
    requires cfg.Valid()
  {
    && slice.request in s.kv && slice.request in frontier && s.kv[slice.request].tier.Hot? && s.kv[slice.request].table != []
    && slice.End() <= frontier[slice.request] && BlocksFor(slice.End(), cfg.blockTokens) <= s.kv[slice.request].Width()
  }

  lemma SlicesCovered(s: State, mems: Mems, frontier: map<nat, nat>, reserved: seq<Slice>, exempt: set<nat>, cfg: Config)
    requires cfg.Valid() && Good(s, mems, frontier, reserved, exempt, cfg)
    requires forall i :: 0 <= i < |reserved| ==> reserved[i].count > 0
    ensures forall i :: 0 <= i < |reserved| ==> CoveredSlice(s, frontier, reserved[i], cfg)
  {
    hide Good;
    forall i | 0 <= i < |reserved| ensures CoveredSlice(s, frontier, reserved[i], cfg) {
      ReservedCovered(s, mems, frontier, reserved, exempt, reserved[i], cfg);
    }
  }

  lemma {:induction false} CompleteGood(s: State, slices: seq<Slice>, finish: nat, mems: Mems, frontier: map<nat, nat>, cfg: Config)
    requires cfg.Valid() && Good(s, mems, frontier, [], {}, cfg)
    requires forall i :: 0 <= i < |slices| ==> CoveredSlice(s, frontier, slices[i], cfg)
    ensures CompleteFrom(s, slices, finish, cfg).Some?
    ensures Good(CompleteFrom(s, slices, finish, cfg).value, mems, frontier, [], {}, cfg)
    ensures CompleteFrom(s, slices, finish, cfg).value.kv == s.kv
    decreases |slices|
  {
    if slices != [] {
      hide Good, PublishFor, CoveredSlice;
      CoveredMeans(s, frontier, slices[0], cfg);
      PublishForGood(s, slices[0].request, slices[0].End(), finish, false, mems, frontier, [], {}, cfg);
      var next := PublishFor(s, slices[0].request, slices[0].End(), finish, false, cfg).value;
      CoveredStays(s, next, frontier, slices, cfg);
      CompleteGood(next, slices[1..], finish, mems, frontier, cfg);
    }
  }

  lemma CoveredMeans(s: State, frontier: map<nat, nat>, slice: Slice, cfg: Config)
    requires cfg.Valid() && CoveredSlice(s, frontier, slice, cfg)
    ensures slice.request in s.kv && slice.request in frontier && s.kv[slice.request].tier.Hot? && s.kv[slice.request].table != []
    ensures slice.End() <= frontier[slice.request] && BlocksFor(slice.End(), cfg.blockTokens) <= s.kv[slice.request].Width()
  {
  }

  lemma CoveredStays(s: State, next: State, frontier: map<nat, nat>, slices: seq<Slice>, cfg: Config)
    requires cfg.Valid() && slices != [] && next.kv == s.kv
    requires forall i :: 0 <= i < |slices| ==> CoveredSlice(s, frontier, slices[i], cfg)
    ensures forall i :: 0 <= i < |slices[1..]| ==> CoveredSlice(next, frontier, slices[1..][i], cfg)
  {
    forall i | 0 <= i < |slices[1..]| ensures CoveredSlice(next, frontier, slices[1..][i], cfg) {
      assert CoveredSlice(s, frontier, slices[i + 1], cfg);
    }
  }

  // -------------------------------------------------------------- preemption

  /** Dropping a request's blocks forgets its tokens and nobody else's. */
  lemma DropGood(s: State, id: nat, mems: Mems, frontier: map<nat, nat>, cfg: Config)
    requires Good(s, mems, frontier, [], {}, cfg) && id in s.kv && s.kv[id].tier.Hot?
    ensures Good(s.(hot := s.hot.Release(Cells(s.kv[id].table))).With(id, s.kv[id].(table := [])),
                 mems, frontier[id := 0], [], {}, cfg)
  {
    hide Inv, BlocksHold;
    var next := s.(hot := s.hot.Release(Cells(s.kv[id].table))).With(id, s.kv[id].(table := []));
    DroppedInv(s, id, cfg);
    assert Future(next, mems, [], cfg) == Future(s, mems, [], cfg);
    NothingDirty(next.kv, cfg.blockTokens);
    DropExclusive(s, id, frontier, next, frontier[id := 0], cfg);
    DropReads(s, id, frontier, next, Future(s, mems, [], cfg), cfg);
    DropCovering(s, id, frontier, next, cfg);
  }

  lemma DropExclusive(s: State, id: nat, frontier: map<nat, nat>, next: State, frontier': map<nat, nat>, cfg: Config)
    requires Inv(s, cfg) && frontier.Keys == s.kv.Keys && Exclusive(s, frontier, cfg) && id in s.kv && s.kv[id].tier.Hot?
    requires next.hot == s.hot.Release(Cells(s.kv[id].table)) && frontier'.Keys == next.kv.Keys
    requires forall j :: j in next.kv && j != id ==> j in s.kv && next.kv[j] == s.kv[j] && frontier'[j] == frontier[j]
    requires id in next.kv ==> next.kv[id].table == []
    ensures Exclusive(next, frontier', cfg)
  {
    hide Inv;
    forall j: nat, l: nat, o: nat | j in next.kv && next.kv[j].tier.Hot? && Unfinished(next.kv[j], frontier'[j], cfg.blockTokens, l, o)
      ensures next.hot.refs[next.kv[j].table[l][o]] == 1
    {
      assert j != id;
      assert Unfinished(s.kv[j], frontier[j], cfg.blockTokens, l, o);
      UnsharedMeans(s, cfg, j, l, o);
    }
  }

  lemma DropReads(s: State, id: nat, frontier: map<nat, nat>, next: State, mems: Mems, cfg: Config)
    requires frontier.Keys == s.kv.Keys && AllRead(s, frontier, mems, cfg) && id in s.kv
    requires next.kv == s.kv[id := s.kv[id].(table := [])]
    ensures AllRead(next, frontier[id := 0], mems, cfg)
  {
  }

  lemma DropCovering(s: State, id: nat, frontier: map<nat, nat>, next: State, cfg: Config)
    requires Covering(s, frontier, cfg) && id in s.kv && Inv(s, cfg)
    requires next.kv == s.kv[id := s.kv[id].(table := [])]
    ensures Covering(next, frontier[id := 0], cfg)
  {
    assert Shaped(s.kv[id], cfg);
  }

  ghost function AfterPreempt(frontier: map<nat, nat>, id: nat, mode: PlacementSpec.Preempted): map<nat, nat>
  {
    if mode.Recompute? then frontier[id := 0] else frontier
  }

  /** Between batches a request may be taken out of the hot pool: swapped out whole, or
      forgotten and recomputed from its first token. */
  lemma PreemptGood(s: State, id: nat, mems: Mems, frontier: map<nat, nat>, cfg: Config)
    requires cfg.Valid() && Good(s, mems, frontier, [], {}, cfg) && Preempt(s, id, cfg).Preempted?
    ensures Good(Preempt(s, id, cfg).state, mems, AfterPreempt(frontier, id, Preempt(s, id, cfg).mode), [], {}, cfg)
  {
    hide Good, Inv, Migrate;
    GoodInv(s, mems, frontier, [], {}, cfg);
    PreemptInv(s, id, cfg);
    if Preempt(s, id, cfg).mode.SwapOut? {
      MigrateGood(s, id, true, mems, frontier, [], {}, cfg);
    } else {
      DropGood(s, id, mems, frontier, cfg);
    }
  }

  // ----------------------------------------------------------------- release

  ghost function FreedState(s: State, id: nat): State
    requires id in s.kv
  {
    var cells := Cells(s.kv[id].table);
    if s.kv[id].tier.Hot? then s.(hot := s.hot.Release(cells), kv := s.kv - {id})
    else s.(cold := s.cold.Release(cells), kv := s.kv - {id})
  }

  lemma FreedInv(s: State, id: nat, cfg: Config)
    requires Inv(s, cfg) && id in s.kv
    ensures Inv(FreedState(s, id), cfg)
  {
    hide ColdBalanced, Accounted, Held, AllShaped, PoolBalanced, FreedState;
    FreedParts(s, id, cfg);
    ShapedWithout(s, id, cfg);
    BalancedMeans(FreedState(s, id));
  }

  lemma FreedParts(s: State, id: nat, cfg: Config)
    requires Inv(s, cfg) && id in s.kv
    ensures var next := FreedState(s, id);
      && next.kv == s.kv - {id} && next.nextOrder == s.nextOrder
      && AllShaped(s, cfg)
      && Accounted(next.Cache(), cfg.budget, Held(next.kv, Hot)) && PoolBalanced(next.cold, Held(next.kv, Cold))
  {
    hide ColdBalanced, Accounted, Held, AllShaped, PoolBalanced;
    InvParts(s, cfg);
    HeldSplit(s.kv, id, Hot);
    HeldSplit(s.kv, id, Cold);
    var next := FreedState(s, id);
    if s.kv[id].tier.Hot? {
      assert Held(next.kv, Cold) == Held(s.kv, Cold);
      Drops(s.Cache(), cfg.budget, Cells(s.kv[id].table), Held(next.kv, Hot));
      assert next.Cache() == s.Cache().(pool := next.hot);
    } else {
      ColdDrops(s.cold, Cells(s.kv[id].table), Held(s.kv - {id}, Cold));
      assert Held(next.kv, Hot) == Held(s.kv, Hot);
      assert next.Cache() == s.Cache();
    }
  }

  lemma ReleaseIs(s: State, id: nat, cfg: Config)
    requires Inv(s, cfg) && id in s.kv
    ensures Release(s, id) == Some(if s.kv[id].tier.Hot?
      then FreedState(s, id).WithCache(ReleaseOrder(FreedState(s, id).Cache(), s.kv[id].keys)) else FreedState(s, id))
  {
    hide Inv, Held, ReleaseOrder;
    MigrationFacts(s, id, s.kv[id].tier.Hot?, cfg);
  }

  lemma FreedGood(s: State, id: nat, mems: Mems, frontier: map<nat, nat>, reserved: seq<Slice>, exempt: set<nat>, cfg: Config)
    requires Good(s, mems, frontier, reserved, exempt, cfg) && id in s.kv && id !in InBatch(reserved)
    ensures Good(FreedState(s, id), mems, frontier - {id}, reserved, exempt - {id}, cfg)
  {
    hide Inv, BlocksHold, ReadsRight, Unfinished, Dirty, WriteAll;
    var next := FreedState(s, id);
    FreedInv(s, id, cfg);
    OutsideBatch(id, reserved);
    assert SameTables(s.kv, next.kv, reserved);
    WriteFrame(ApplyAll(mems, s.migrations).hot, s.kv, next.kv, reserved, cfg.blockTokens);
    assert Future(next, mems, reserved, cfg) == Future(s, mems, reserved, cfg);
    if s.kv[id].tier.Hot? {
      DropExclusive(s, id, frontier, next, frontier - {id}, cfg);
    }
  }

  lemma OutsideBatch(id: nat, reserved: seq<Slice>)
    requires id !in InBatch(reserved)
    ensures forall i :: 0 <= i < |reserved| ==> reserved[i].request != id
  {
    forall i | 0 <= i < |reserved| ensures reserved[i].request != id {
      assert reserved[i].request in InBatch(reserved);
    }
  }

  /** Releasing a request outside the batch takes nothing from anyone else. */
  lemma ReleaseGood(s: State, id: nat, mems: Mems, frontier: map<nat, nat>, reserved: seq<Slice>, exempt: set<nat>, cfg: Config)
    requires Good(s, mems, frontier, reserved, exempt, cfg) && id in s.kv && id !in InBatch(reserved)
    ensures Release(s, id).Some?
    ensures Good(Release(s, id).value, mems, frontier - {id}, reserved, exempt - {id}, cfg)
  {
    hide Good, Inv, Release, ReleaseOrder, Accounted;
    GoodInv(s, mems, frontier, reserved, exempt, cfg);
    ReleaseIs(s, id, cfg);
    FreedGood(s, id, mems, frontier, reserved, exempt, cfg);
    if s.kv[id].tier.Hot? {
      OrderGood(FreedState(s, id), s.kv[id].keys, mems, frontier - {id}, reserved, exempt - {id}, cfg);
    }
  }

  lemma OrderGood(s: State, keys: seq<Key>, mems: Mems, frontier: map<nat, nat>, reserved: seq<Slice>, exempt: set<nat>, cfg: Config)
    requires Good(s, mems, frontier, reserved, exempt, cfg)
    ensures Good(s.WithCache(ReleaseOrder(s.Cache(), keys)), mems, frontier, reserved, exempt, cfg)
  {
    hide Inv, Accounted, Held, ReleaseOrder, AllRead, Clean, BatchOk, Covering, Future, Unfinished, Avoids, Holds, EntriesHold;
    var p := ReleaseOrder(s.Cache(), keys);
    InvParts(s, cfg);
    ReleaseOrderAccounted(s.Cache(), keys, cfg.budget, Held(s.kv, Hot));
    var memory := Future(s, mems, reserved, cfg).hot;
    EntriesHoldAll(s.entries, memory, cfg);
    ReleaseOrderGood(s.Cache(), keys, Holds(memory, cfg));
    EntriesHoldAll(p.entries, memory, cfg);
    GoodInv(s, mems, frontier, reserved, exempt, cfg);
    KeepsOffNow(s, frontier, cfg);
    forall id: nat, l: nat, o: nat | id in s.kv && s.kv[id].tier.Hot? && Unfinished(s.kv[id], frontier[id], cfg.blockTokens, l, o)
      ensures UnfinishedCell(s, frontier, id, l, o, cfg) && AllGood(p.entries, Avoids(s.kv[id].table[l][o]))
    {
      UnfinishedMeans(s, frontier, id, l, o, cfg);
      ReleaseOrderGood(s.Cache(), keys, Avoids(s.kv[id].table[l][o]));
    }
    CacheGood(s, p, mems, frontier, reserved, exempt, cfg);
  }
}
