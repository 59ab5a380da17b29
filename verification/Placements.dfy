/** The placement plane of the simulator: its state is changed in place by admissions,
    reservations, completions, preemptions and releases, each proved to do exactly what
    the function of PlacementSpec with its name says.
 */
module Placements {
  import opened Pools
  import opened BlockPools
  import opened PrefixKeys
  import opened PrefixSpec
  import opened PrefixCaches
  import opened Tables
  import opened PlacementSpec
  import opened PlacementInvariant
  import opened PlannerSoundness
  import opened PlacementRuns
  import opened PlacementEffects
  import opened ReservationEffects
  import PrefixOrders
  import opened KvPlanning

  class Placement {
    const cfg: Config
    const hot: BlockPool
    /** Without a cold tier, a pool of no blocks that is never used. */
    const cold: BlockPool
    const prefix: PrefixCache
    var kv: map<nat, RequestKv>
    var nextOrder: nat
    var migrations: seq<Migration>
    var pendingBatch: Option<nat>

    ghost function Model(): State
      reads this, hot, cold, prefix
    {
      State(hot.Model(), cold.Model(), kv, prefix.entries, prefix.bytes, nextOrder, migrations, pendingBatch)
    }

    ghost predicate Wired()
      reads this, hot, cold, prefix
    {
      && hot != cold && prefix.pool == hot && prefix.budget == cfg.budget && cfg.Valid()
      && hot.Valid() && cold.Valid()
    }

    ghost predicate Valid()
      reads this, hot, cold, prefix
    {
      Wired() && Inv(Model(), cfg)
    }

    constructor (cfg: Config, hotBytes: nat, coldBytes: nat)
      requires cfg.Valid()
      ensures Valid() && this.cfg == cfg
      ensures Model() == Start(BlocksIn(hotBytes, cfg.budget.blockBytes),
                               BlocksIn(if cfg.hasCold then coldBytes else 0, cfg.budget.blockBytes))
    {
      hide BlockPool.Valid, Inv;
      this.cfg := cfg;
      var pool := new BlockPool(0, hotBytes, cfg.budget.blockBytes);
      hot := pool;
      cold := new BlockPool(0, if cfg.hasCold then coldBytes else 0, cfg.budget.blockBytes);
      prefix := new PrefixCache(pool, cfg.budget);
      kv, nextOrder, migrations, pendingBatch := map[], 0, [], None;
      new;
      assert hot.Valid() && cold.Valid();
      Opens();
    }

    lemma Opens()
      requires Wired()
      requires Model() == Start(hot.Model().capacity, cold.Model().capacity)
      ensures Valid()
    {
      hide BlockPool.Valid, Inv;
      StartInv(hot.Model().capacity, cold.Model().capacity, cfg);
    }

    /** The prefix cache's accounts beside the block tables of the hot requests. */
    lemma CacheValid()
      requires Valid()
      ensures prefix.Valid(Held(kv, Hot))
      ensures prefix.Model() == Model().Cache()
    {
    }

    // -------------------------------------------------------------- admission

    /** Registers a request behind its prefix hits, and says how many tokens they cover. */
    method AdmitRequest(request: Request, now: nat) returns (cached: nat)
      requires Valid() && request.Valid()
      modifies this, hot, prefix
      ensures Valid()
      ensures Admit(old(Model()), request, KeysFor(request, cfg.blockTokens), now, cfg) == Some(Model())
      ensures Admitted(old(Model()), Model(), request, KeysFor(request, cfg.blockTokens), now, cfg)
      ensures request.id in kv && cached == kv[request.id].hitTokens
    {
      hide BlockPool.Valid, Inv, Accounted, RightKeys, LooksUp, KeysFor, Admitted;
      ghost var before := Model();
      if request.tokens.Some? {
        KeysRight(request, cfg);
      }
      AdmitInv(before, request, KeysFor(request, cfg.blockTokens), now, cfg);
      AdmitMeans(before, request, KeysFor(request, cfg.blockTokens), now, cfg);
      if request.id in kv {
        return kv[request.id].hitTokens;
      }
      var st := RequestKv(request, nextOrder, Hot, [], -1, [], 0);
      if cfg.Caching() && request.tokens.Some? {
        var keys := BlockKeys(request, cfg.blockTokens);
        var empty := st;
        st := LookUp(empty, keys, now);
        AdmitsHit(before, Model(), request, st, keys, now, cfg);
      }
      hide Admit;
      kv := kv[request.id := st];
      nextOrder := nextOrder + 1;
      cached := st.hitTokens;
    }

    method LookUp(st: RequestKv, keys: seq<Key>, now: nat) returns (hit: RequestKv)
      requires Valid() && st.request.Valid() && RightKeys(st.request, keys, cfg)
      modifies hot, prefix
      ensures Wired() && LooksUp(old(Model()), Model(), st, hit, keys, now, cfg)
    {
      hide PrefixOrders.LooksUp;
      hide BlockPool.Valid, Inv, Accounted, Held, Lookup, PrefixCache.Valid, HitTable, RightKeys, Flat, Cells, Rectangular;
      ghost var before := Model();
      CacheValid();
      ghost var held := Held(kv, Hot);
      HitFacts(before.Cache(), st.request, keys, now, cfg, held);
      var found := prefix.Lookup(keys, (st.request.promptTokens - 1) / cfg.blockTokens, now, held);
      prefix.PoolValid(held + Flat(found));
      assert Hits(prefix.Model(), found) == AdmissionHits(before.Cache(), st.request, keys, now, cfg);
      var table := Transposed(found, st.request.model.layers);
      hit := st.(table := table, keys := keys, hitTokens := |found| * cfg.blockTokens);
      assert Model() == before.WithCache(prefix.Model());
    }

    // ------------------------------------------------------------- publication

    method PublishBlocks(id: nat, end: nat, now: nat, pending: bool)
      requires Valid() && id in kv && kv[id].tier.Hot? && kv[id].table != []
      requires BlocksFor(end, cfg.blockTokens) <= kv[id].Width()
      modifies hot, prefix
      ensures Valid() && PublishFor(old(Model()), id, end, now, pending, cfg) == Some(Model())
    {
      hide BlockPool.Valid, Inv, Accounted, Held, Publish, PrefixCache.Valid;
      ghost var before := Model();
      var st := kv[id];
      var complete := Min(end, st.request.promptTokens) / cfg.blockTokens;
      PublishReady(before, id, end, cfg);
      PublishForFree(before, id, end, now, pending, cfg);
      CacheValid();
      prefix.Publish(st.keys, st.table, complete, now, pending, Held(kv, Hot));
      prefix.PoolValid(Held(kv, Hot));
      assert Model() == before.WithCache(prefix.Model());
    }

    /** Publishes the full blocks of every slice of a completed batch. */
    method CompleteBatch(slices: seq<Slice>, finish: nat)
      requires Valid() && Covered(Model(), slices, cfg)
      modifies hot, prefix
      ensures Valid() && Complete(old(Model()), slices, finish, cfg) == Some(Model())
      ensures SameOutside(old(Model()), Model()) && forall i :: 0 <= i < |slices| ==> slices[i].request in old(kv)
      ensures if cfg.Caching() then exists stages :: SlicesPublished(stages, old(prefix.entries), prefix.entries, old(kv), slices, Some(finish), cfg)
              else Model() == old(Model())
    {
      hide BlockPool.Valid, Inv, PublishFor, SlicesPublished;
      ghost var stages := CompleteMeans(Model(), slices, finish, cfg);
      if !cfg.Caching() {
        return;
      }
      var i := 0;
      assert slices[0..] == slices;
      while i < |slices|
        invariant i <= |slices| && Valid() && Covered(Model(), slices, cfg)
        invariant CompleteFrom(old(Model()), slices, finish, cfg) == CompleteFrom(Model(), slices[i..], finish, cfg)
      {
        ghost var tail := slices[i..];
        assert tail[0] == slices[i] && tail[1..] == slices[i + 1..];
        BlocksCover(slices[i].End(), cfg.blockTokens);
        PublishBlocks(slices[i].request, slices[i].End(), finish, false);
        i := i + 1;
      }
    }

    /** The pending migrations go out with the batch, which then completes. */
    method Execute(slices: seq<Slice>, finish: nat)
      requires Valid() && Covered(Model(), slices, cfg)
      modifies this, hot, prefix
      ensures Valid()
      ensures Complete(old(Model()).(migrations := [], pendingBatch := None), slices, finish, cfg) == Some(Model())
    {
      hide BlockPool.Valid, Inv, Complete;
      ghost var before := Model();
      migrations, pendingBatch := [], None;
      assert Model() == before.(migrations := [], pendingBatch := None);
      MappedInv(before, cfg);
      CompleteBatch(slices, finish);
    }

    // --------------------------------------------------------------- migration

    /** Moves one layer's blocks: allocates in the target first, then frees the source. */
    method MoveRow(source: BlockPool, target: BlockPool, row: seq<nat>) returns (moved: seq<nat>)
      requires source != target && source.Valid() && target.Valid()
      requires |row| <= target.Model().Free() && multiset(row) <= source.Refs
      modifies source, target
      ensures source.Valid() && target.Valid()
      ensures moved == old(target.Model()).Lowest(|row|) && target.Model() == old(target.Model()).Take(|row|)
      ensures source.Model() == old(source.Model()).Release(multiset(row))
    {
      hide BlockPool.Valid;
      var ok;
      ok, moved := target.Allocate(|row|);
      ok := source.Release(row);
    }

    method MoveTable(source: BlockPool, target: BlockPool, table: Table, width: nat) returns (moved: Table)
      requires source != target && source.Valid() && target.Valid()
      requires Rectangular(table, |table|, width) && Cells(table) <= source.Refs
      requires AllocateRows(target.Model(), |table|, width).Rows?
      modifies source, target
      ensures source.Valid() && target.Valid()
      ensures AllocateRows(old(target.Model()), |table|, width) == Rows(target.Model(), moved)
      ensures source.Model() == old(source.Model()).Release(Cells(table))
    {
      hide BlockPool.Valid, HalfMoved, AllocateRows, Cells;
      ghost var from, to := source.Model(), target.Model();
      moved := [];
      var l := 0;
      HalfStart(from, to, table, width);
      while l < |table|
        invariant l <= |table| && source.Valid() && target.Valid()
        invariant HalfMoved(from, to, table, width, l, moved, source.Model(), target.Model())
      {
        HalfStep(from, to, table, width, l, moved, source.Model(), target.Model());
        var row := MoveRow(source, target, table[l]);
        moved := moved + [row];
        l := l + 1;
      }
      HalfEnd(from, to, table, width, moved, source.Model(), target.Model());
    }

    method MigrateRequest(id: nat, toCold: bool)
      requires Valid() && id in kv && Migrate(Model(), id, toCold).Some?
      requires toCold ==> cfg.hasCold && kv[id].Width() > 0
      modifies this, hot, cold
      ensures Valid() && Migrate(old(Model()), id, toCold) == Some(Model())
    {
      hide BlockPool.Valid, Inv, AllocateRows, Migrate, Cells, Rectangular;
      ghost var before := Model();
      MoveReady(before, id, toCold, cfg);
      MigrateInv(before, id, toCold, cfg);
      var rows := MigrateExact(before, id, toCold, cfg);
      var st := kv[id];
      var source, target := if toCold then hot else cold, if toCold then cold else hot;
      var table := MoveTable(source, target, st.table, st.Width());
      kv := kv[id := st.(table := table, tier := if toCold then Cold else Hot)];
      migrations := migrations + [Migration(toCold, id, st.table, table)];
      assert Model() == Moved(before, id, toCold, rows);
    }

    method MigrateEach(ids: seq<nat>, toCold: bool)
      requires Valid() && Movable(Model(), ids, toCold, cfg) && MigrateAll(Model(), ids, toCold).Some?
      modifies this, hot, cold
      ensures Valid() && MigrateAll(old(Model()), ids, toCold) == Some(Model())
    {
      hide BlockPool.Valid, Inv, Migrate, Movable;
      var k := 0;
      assert ids[0..] == ids;
      while k < |ids|
        invariant k <= |ids| && Valid() && Movable(Model(), ids[k..], toCold, cfg)
        invariant MigrateAll(Model(), ids[k..], toCold).Some?
        invariant MigrateAll(old(Model()), ids, toCold) == MigrateAll(Model(), ids[k..], toCold)
      {
        ghost var tail := ids[k..];
        assert tail[0] == ids[k] && tail[1..] == ids[k + 1..];
        MovableStep(Model(), tail, toCold, cfg);
        MigrateRequest(ids[k], toCold);
        k := k + 1;
      }
    }

    // -------------------------------------------------------------- reservation

    /** Looks at the free blocks, the unpinned entries and the requests outside the batch. */
    method Planned(slices: seq<Slice>) returns (plan: Plan)
      requires Valid()
      ensures plan == MakePlan(Model(), slices, cfg)
    {
      hide BlockPool.Valid, Inv, PlacementSpec.PlanEvictions, PlacementSpec.PlanVictims, Needed, SwapIns;
      if i :| 0 <= i < |slices| && slices[i].request !in kv {
        return Invalid;
      }
      if i, j :| 0 <= i < j < |slices| && slices[i].request == slices[j].request {
        return Invalid;
      }
      assert Known(Model(), slices);
      InvOrders(Model(), cfg);
      var needed, swapIn := Demand(kv, slices, cfg.blockTokens);
      var free := hot.FreeBlocks();
      var deficit := needed as int - free as int;
      var e := KvPlanning.PlanEvictions(hot, prefix.entries, deficit);
      if e.deficit <= 0 {
        return Feasible(needed, swapIn, [], e.keys);
      }
      if !cfg.hasCold {
        return Infeasible;
      }
      var coldFree := cold.FreeBlocks();
      var picked := KvPlanning.PlanVictims(hot, kv, Candidates(kv, InBatch(slices)),
                                           Picking([], e.releases, e.deficit, coldFree));
      plan := match picked
        case None => Infeasible
        case Some(p) => Feasible(needed, swapIn, p.ids, e.keys);
    }

    /** True exactly when the reservation that follows at once will succeed. */
    method CanReserve(slices: seq<Slice>, ghost batch: nat) returns (fits: bool)
      requires Valid() && forall i :: 0 <= i < |slices| ==> slices[i].count > 0
      requires pendingBatch.None? || pendingBatch.value == batch
      ensures fits <==> Reserve(Model(), batch, slices, cfg).Some?
    {
      hide BlockPool.Valid, Inv, MakePlan, Reserve;
      var plan := Planned(slices);
      PlannerSound(Model(), batch, slices, cfg);
      fits := plan.Feasible?;
    }

    method EvictEach(keys: seq<Key>)
      requires Valid() && EvictKeys(Model(), keys, cfg).Some?
      modifies hot, prefix
      ensures Valid() && EvictKeys(old(Model()), keys, cfg) == Some(Model())
    {
      hide BlockPool.Valid, Inv, PrefixCache.Valid, Held, Evict;
      var k := 0;
      assert keys[0..] == keys;
      while k < |keys|
        invariant k <= |keys| && Valid() && EvictKeys(Model(), keys[k..], cfg).Some?
        invariant EvictKeys(old(Model()), keys, cfg) == EvictKeys(Model(), keys[k..], cfg)
      {
        ghost var tail := keys[k..];
        assert tail[0] == keys[k] && tail[1..] == keys[k + 1..];
        EvictOne(keys[k]);
        k := k + 1;
      }
    }

    method EvictOne(key: Key)
      requires Valid() && Find(prefix.entries, key) < |prefix.entries|
      modifies hot, prefix
      ensures Valid()
      ensures var i := Find(old(prefix.entries), key);
        Model() == old(Model()).WithCache(Evict(old(Model()).Cache(), i, cfg.budget))
    {
      hide BlockPool.Valid, Inv, PrefixCache.Valid, Held, Accounted;
      ghost var before, held := Model(), Held(kv, Hot);
      ghost var i := Find(prefix.entries, key);
      CacheValid();
      InvParts(before, cfg);
      EvictAccounted(before.Cache(), i, cfg.budget, held);
      CacheInv(before, Evict(before.Cache(), i, cfg.budget), cfg);
      var _ := prefix.Evict(key, held);
      prefix.PoolValid(held);
      assert Model() == before.WithCache(prefix.Model());
    }

    /** Extends every layer's row by the same number of new blocks. */
    method GrowRequest(id: nat, grow: nat)
      requires Valid() && id in kv && kv[id].tier.Hot? && GrowTable(Model(), id, grow).Some?
      modifies this, hot
      ensures Valid() && GrowTable(old(Model()), id, grow) == Some(Model())
    {
      hide BlockPool.Valid, Inv, AllocateRows, GrowTable;
      ghost var before := Model();
      GrowInv(before, id, grow, cfg);
      if grow == 0 {
        NoGrowth(before, id);
        return;
      }
      ghost var rows := GrowExact(before, id, grow, cfg);
      var st := kv[id];
      var base := if st.table == [] then Empty(st.request.model.layers) else st.table;
      ShapedLayers(before, id, cfg);
      var more := AllocateEach(hot, |base|, grow);
      kv := kv[id := st.(table := Appended(base, more))];
      assert Model() == Grown(before, id, rows.table, rows.pool);
    }

    method ReserveSlice(batch: nat, slice: Slice)
      requires Valid() && slice.request in kv && kv[slice.request].tier.Hot? && slice.count > 0
      requires ReserveOne(Model(), batch, slice, cfg).Some?
      modifies this, hot, prefix
      ensures Valid() && ReserveOne(old(Model()), batch, slice, cfg) == Some(Model())
    {
      hide BlockPool.Valid, Inv, GrowTable, PublishFor;
      ghost var before := Model();
      var id := slice.request;
      ReserveOneExact(before, batch, slice, cfg);
      var grow := Grow(kv[id], slice.End(), cfg.blockTokens);
      GrowFree(before, id, grow, cfg);
      GrowInv(before, id, grow, cfg);
      GrowRequest(id, grow);
      MarkInv(Model(), id, batch, cfg);
      ghost var grown := Model();
      kv := kv[id := kv[id].(lastBatch := batch)];
      assert Model() == Marked(grown, id, batch);
      if cfg.Caching() {
        BlocksCover(slice.End(), cfg.blockTokens);
        PublishBlocks(id, slice.End(), kv[id].request.arrival, true);
      }
    }

    method ReserveEach(batch: nat, slices: seq<Slice>)
      requires Valid() && AllHot(Model(), slices) && GrowthSum(kv, slices, cfg) <= hot.Model().Free()
      modifies this, hot, prefix
      ensures Valid() && ReserveAll(old(Model()), batch, slices, cfg) == Some(Model())
    {
      hide BlockPool.Valid, Inv, ReserveOne, AllHot, GrowthOf, GrewOnly;
      var k := 0;
      assert slices[0..] == slices;
      ReserveAllExact(Model(), batch, slices, cfg);
      while k < |slices|
        invariant k <= |slices| && Valid() && AllHot(Model(), slices[k..])
        invariant ReserveAll(Model(), batch, slices[k..], cfg).Some?
        invariant ReserveAll(old(Model()), batch, slices, cfg) == ReserveAll(Model(), batch, slices[k..], cfg)
      {
        ghost var tail := slices[k..];
        assert tail[0] == slices[k] && tail[1..] == slices[k + 1..];
        AllHotFirst(Model(), tail);
        ReserveOneExact(Model(), batch, tail[0], cfg);
        AllHotRest(Model(), ReserveOne(Model(), batch, tail[0], cfg).value, tail, cfg);
        ReserveSlice(batch, slices[k]);
        k := k + 1;
      }
    }

    /** Evicts, swaps out, swaps in and grows as planned; raises, changing nothing, exactly
        when another batch is pending or the plan is not feasible. */
    method ReserveBatch(batch: nat, slices: seq<Slice>) returns (ok: bool)
      requires Valid() && forall i :: 0 <= i < |slices| ==> slices[i].count > 0
      modifies this, hot, cold, prefix
      ensures Valid()
      ensures ok <==> Reserve(old(Model()), batch, slices, cfg).Some?
      ensures Reserve(old(Model()), batch, slices, cfg) == if ok then Some(Model()) else None
      ensures !ok ==> Model() == old(Model())
      ensures ok ==> Known(old(Model()), slices) && MakePlan(old(Model()), slices, cfg).Feasible?
      ensures ok ==> exists stages :: Reserves(old(Model()), Model(), batch, slices, MakePlan(old(Model()), slices, cfg), cfg, stages)
    {
      hide BlockPool.Valid, Inv, MakePlan, Needed, EvictKeys, MigrateAll, ReserveAll, Movable, AllHot, GrowthSum, Chosen, Reserves;
      ghost var before := Model();
      if pendingBatch.Some? && pendingBatch.value != batch {
        return false;
      }
      var plan := Planned(slices);
      if !plan.Feasible? {
        return false;
      }
      PlannerSound(before, batch, slices, cfg);
      ghost var stages := ReserveMeans(before, batch, slices, cfg);
      FeasibleMeans(before, slices, cfg);
      ghost var s2 := VictimsMakeRoom(before, slices, cfg);
      EvictEach(plan.evictions);
      EvictedKeeps(before, plan.evictions, cfg);
      VictimsMove(before, Model(), slices, plan, cfg);
      MigrateEach(plan.victims, true);
      ghost var s3 := SwapInsFit(before, s2, slices, plan.victims, cfg);
      BatchUntouched(before, s2, slices, plan.victims);
      SwapMovable(before, s2, slices, cfg);
      MigrateEach(plan.swapIn, false);
      ReserveEach(batch, slices);
      pendingBatch := Some(batch);
      ok := true;
    }

    // -------------------------------------------------------- preemption, release

    /** Takes a running request's KV out of the hot pool, or raises when it holds none. */
    method PreemptRequest(id: nat) returns (result: Option<PlacementSpec.Preempted>)
      requires Valid()
      modifies this, hot, cold
      ensures Valid()
      ensures Preempt(old(Model()), id, cfg) == (if result.Some? then PreemptResult.Preempted(Model(), result.value) else Refused)
      ensures Preempts(old(Model()), if result.Some? then PreemptResult.Preempted(Model(), result.value) else Refused, id, cfg)
      ensures result.None? ==> Model() == old(Model())
    {
      hide BlockPool.Valid, Inv, Migrate, Held, Preempts;
      ghost var before := Model();
      PreemptMeans(before, id, cfg);
      PreemptInv(before, id, cfg);
      if id !in kv || kv[id].tier.Cold? || kv[id].Total() == 0 {
        return None;
      }
      var st := kv[id];
      var coldFree := cold.FreeBlocks();
      MigrationFacts(before, id, true, cfg);
      if cfg.hasCold && coldFree >= st.Total() {
        MigrateOne(before, id, true, cfg);
        MigrateRequest(id, true);
        return Some(SwapOut);
      }
      ReleaseTable(hot, st.table);
      kv := kv[id := st.(table := [])];
      result := Some(Recompute);
    }

    method ReleaseTable(pool: BlockPool, table: Table)
      requires pool.Valid() && Cells(table) <= pool.Refs
      modifies pool
      ensures pool.Valid() && pool.Model() == old(pool.Model()).Release(Cells(table))
    {
      hide BlockPool.Valid, Cells;
      assert table[..0] == [];
      EmptyTable();
      for l := 0 to |table|
        invariant pool.Valid() && pool.Refs == old(pool.Refs) - Cells(table[..l])
      {
        RowHeld(table, l, old(pool.Refs));
        var _ := pool.Release(table[l]);
      }
      assert table[..|table|] == table;
    }

    /** Forgets a request and frees its blocks; raises for an unknown one. */
    method ReleaseRequest(id: nat) returns (ok: bool)
      requires Valid()
      modifies this, hot, cold, prefix
      ensures Valid() && ok == (id in old(kv))
      ensures Release(old(Model()), id) == (if ok then Some(Model()) else None)
      ensures if ok then Releases(old(Model()), Model(), id) else Model() == old(Model())
    {
      hide BlockPool.Valid, Inv, ReleaseOrder, Held, PrefixCache.Valid, Accounted, Releases;
      ghost var before := Model();
      ReleaseMeans(before, id, cfg);
      ReleaseInv(before, id, cfg);
      if id !in kv {
        return false;
      }
      ok := true;
      if kv[id].tier.Hot? {
        ReleaseHot(id);
      } else {
        ReleaseReady(before, id, cfg);
        ReleaseTable(cold, kv[id].table);
        kv := kv - {id};
      }
    }

    method ReleaseHot(id: nat)
      requires Valid() && id in kv && kv[id].tier.Hot?
      modifies this, hot, prefix
      ensures Wired() && Release(old(Model()), id) == Some(Model())
    {
      hide BlockPool.Valid, Inv, ReleaseOrder, Held, PrefixCache.Valid, Accounted;
      ghost var before := Model();
      var st := kv[id];
      ReleaseReady(before, id, cfg);
      FreedCache(before, id, cfg);
      ReleaseTable(hot, st.table);
      kv := kv - {id};
      assert prefix.Model() == before.Cache().(pool := hot.Model());
      prefix.IsValid(Held(kv, Hot));
      prefix.ReleaseOrder(st.keys, Held(kv, Hot));
      prefix.PoolValid(Held(kv, Hot));
    }
  }

  lemma MappedInv(s: State, cfg: Config)
    requires Inv(s, cfg)
    ensures Inv(s.(migrations := [], pendingBatch := None), cfg)
  {
    assert s.(migrations := [], pendingBatch := None).Cache() == s.Cache();
  }

  /** One allocation per layer. */
  method AllocateEach(pool: BlockPool, layers: nat, width: nat) returns (rows: Table)
    requires pool.Valid() && AllocateRows(pool.Model(), layers, width).Rows?
    modifies pool
    ensures pool.Valid() && AllocateRows(old(pool.Model()), layers, width) == Rows(pool.Model(), rows)
  {
    hide BlockPool.Valid;
    rows := [];
    ghost var first := pool.Model();
    assert [] + AllocateRows(first, layers, width).table == AllocateRows(first, layers, width).table;
    for l := 0 to layers
      invariant pool.Valid() && AllocateRows(pool.Model(), layers - l, width).Rows?
      invariant AllocateRows(first, layers, width) == Behind(rows, AllocateRows(pool.Model(), layers - l, width))
    {
      ghost var rest := AllocateRows(pool.Model().Take(width), layers - l - 1, width);
      assert rows + ([pool.Model().Lowest(width)] + rest.table) == rows + [pool.Model().Lowest(width)] + rest.table;
      var ok, row := pool.Allocate(width);
      rows := rows + [row];
    }
    assert rows + [] == rows;
  }

  lemma EmptyTable()
    ensures Cells([]) == multiset{}
  {
  }

  lemma ShapedLayers(s: State, id: nat, cfg: Config)
    requires Inv(s, cfg) && id in s.kv
    ensures s.kv[id].table == [] || |s.kv[id].table| == s.kv[id].request.model.layers
  {
    hide Accounted, ColdBalanced;
    assert Shaped(s.kv[id], cfg);
  }

  lemma VictimsMove(s: State, s1: State, slices: seq<Slice>, plan: Plan, cfg: Config)
    requires cfg.Valid() && plan.Feasible? && plan == MakePlan(s, slices, cfg) && s1.kv == s.kv
    requires Chosen(s.kv, plan.victims, Candidates(s.kv, InBatch(slices)))
    ensures Movable(s1, plan.victims, true, cfg)
  {
    if cfg.hasCold {
      VictimsMovable(s1, Candidates(s.kv, InBatch(slices)), slices, plan.victims, cfg);
    }
  }

  lemma ReleaseReady(s: State, id: nat, cfg: Config)
    requires Inv(s, cfg) && id in s.kv
    ensures Cells(s.kv[id].table) <= (if s.kv[id].tier.Hot? then s.hot else s.cold).refs
  {
    HeldSplit(s.kv, id, s.kv[id].tier);
  }

  lemma FreedCache(s: State, id: nat, cfg: Config)
    requires Inv(s, cfg) && id in s.kv && s.kv[id].tier.Hot?
    ensures Accounted(s.Cache().(pool := s.hot.Release(Cells(s.kv[id].table))), cfg.budget, Held(s.kv - {id}, Hot))
  {
    hide Accounted, Held;
    InvParts(s, cfg);
    HeldSplit(s.kv, id, Hot);
    Drops(s.Cache(), cfg.budget, Cells(s.kv[id].table), Held(s.kv - {id}, Hot));
  }

  ghost function Behind(front: Table, rest: Rows): Rows
  {
    match rest
    case NoRows => NoRows
    case Rows(pool, table) => Rows(pool, front + table)
  }

  /** The first l rows have left the source, and their copies stand in front of the rest. */
  ghost predicate HalfMoved(from: Pool, to: Pool, table: Table, width: nat, l: nat, moved: Table, source: Pool, target: Pool)
  {
    && l <= |table| && Rectangular(table, |table|, width) && Cells(table) <= from.refs
    && source == from.Release(Cells(table[..l]))
    && AllocateRows(target, |table| - l, width).Rows?
    && AllocateRows(to, |table|, width) == Behind(moved, AllocateRows(target, |table| - l, width))
  }

  lemma HalfStart(from: Pool, to: Pool, table: Table, width: nat)
    requires Rectangular(table, |table|, width) && Cells(table) <= from.refs && AllocateRows(to, |table|, width).Rows?
    ensures HalfMoved(from, to, table, width, 0, [], from, to)
  {
    assert table[..0] == [];
    assert from.Release(Cells([])) == from;
  }

  lemma HalfStep(from: Pool, to: Pool, table: Table, width: nat, l: nat, moved: Table, source: Pool, target: Pool)
    requires HalfMoved(from, to, table, width, l, moved, source, target) && l < |table|
    ensures |table[l]| <= target.Free() && multiset(table[l]) <= source.refs
    ensures HalfMoved(from, to, table, width, l + 1, moved + [target.Lowest(|table[l]|)],
                      source.Release(multiset(table[l])), target.Take(|table[l]|))
  {
    hide Cells;
    RowHeld(table, l, from.refs);
    var row := target.Lowest(width);
    var rest := AllocateRows(target.Take(width), |table| - l - 1, width);
    assert moved + ([row] + rest.table) == (moved + [row]) + rest.table;
  }

  lemma HalfEnd(from: Pool, to: Pool, table: Table, width: nat, moved: Table, source: Pool, target: Pool)
    requires HalfMoved(from, to, table, width, |table|, moved, source, target)
    ensures AllocateRows(to, |table|, width) == Rows(target, moved) && source == from.Release(Cells(table))
  {
    assert table[..|table|] == table;
    assert moved + [] == moved;
  }

  lemma PublishReady(s: State, id: nat, end: nat, cfg: Config)
    requires cfg.Valid() && Inv(s, cfg) && id in s.kv && s.kv[id].tier.Hot? && s.kv[id].table != []
    requires BlocksFor(end, cfg.blockTokens) <= s.kv[id].Width()
    ensures var complete := Min(end, s.kv[id].request.promptTokens) / cfg.blockTokens;
      && (forall l :: 0 <= l < |s.kv[id].table| ==> complete <= |s.kv[id].table[l]|)
      && (forall l, o :: 0 <= l < |s.kv[id].table| && 0 <= o < complete ==> s.kv[id].table[l][o] in Held(s.kv, Hot))
      && (forall k :: 0 <= k < |s.kv[id].keys| ==> KeyModel(s.kv[id].keys[k]).layers == |s.kv[id].table|)
  {
    hide Accounted, ColdBalanced, Held;
    CompleteCovered(s, id, end, cfg);
    CellsHeld(s, id, Min(end, s.kv[id].request.promptTokens) / cfg.blockTokens);
    FitsModel(s, id, cfg);
  }

  lemma RowHeld(table: Table, l: nat, refs: multiset<nat>)
    requires l < |table| && Cells(table) <= refs
    ensures Cells(table[..l + 1]) == Cells(table[..l]) + multiset(table[l])
    ensures multiset(table[l]) <= refs - Cells(table[..l])
    ensures (refs - Cells(table[..l])) - multiset(table[l]) == refs - Cells(table[..l + 1])
  {
    hide Cells;
    RowSplit(table, l);
    Parts(Cells(table[..l]), multiset(table[l]), Cells(table[l + 1..]), refs);
  }

  lemma RowSplit(table: Table, l: nat)
    requires l < |table|
    ensures Cells(table[..l + 1]) == Cells(table[..l]) + multiset(table[l])
    ensures Cells(table) == Cells(table[..l]) + multiset(table[l]) + Cells(table[l + 1..])
  {
    hide Cells;
    var one, rest := table[l..l + 1], table[l + 1..];
    OneRow(one);
    CellsAppend(table[..l], one);
    assert table[..l + 1] == table[..l] + one;
    CellsAppend(table[..l + 1], rest);
    assert table == table[..l + 1] + rest;
  }

  lemma OneRow(one: Table)
    requires |one| == 1
    ensures Cells(one) == multiset(one[0])
  {
    assert one[1..] == [];
  }

  lemma Parts(a: multiset<nat>, b: multiset<nat>, c: multiset<nat>, refs: multiset<nat>)
    requires a + b + c <= refs
    ensures b <= refs - a && (refs - a) - b == refs - (a + b)
  {
  }

  lemma MoveReady(s: State, id: nat, toCold: bool, cfg: Config)
    requires Inv(s, cfg) && id in s.kv && Migrate(s, id, toCold).Some?
    ensures s.kv[id].tier.Cold? != toCold && Cells(s.kv[id].table) <= (if toCold then s.hot else s.cold).refs
    ensures Rectangular(s.kv[id].table, |s.kv[id].table|, s.kv[id].Width())
    ensures AllocateRows(Target(s, toCold), |s.kv[id].table|, s.kv[id].Width()).Rows?
  {
    hide Accounted, ColdBalanced;
    assert Shaped(s.kv[id], cfg);
  }

  lemma MovableStep(s: State, ids: seq<nat>, toCold: bool, cfg: Config)
    requires Inv(s, cfg) && ids != [] && Movable(s, ids, toCold, cfg) && MigrateAll(s, ids, toCold).Some?
    ensures ids[0] in s.kv && Migrate(s, ids[0], toCold).Some?
    ensures toCold ==> cfg.hasCold && s.kv[ids[0]].Width() > 0
    ensures Movable(Migrate(s, ids[0], toCold).value, ids[1..], toCold, cfg)
  {
    hide Inv, Migrate, Movable;
    FirstMovable(s, ids, toCold, cfg);
    var rows := MigrateExact(s, ids[0], toCold, cfg);
    MigrateOne(s, ids[0], toCold, cfg);
    StillMovable(s, Migrate(s, ids[0], toCold).value, ids, toCold, cfg);
  }

  /** The hits as a block table: entry i of layer l is block l of hit i. */
  method Transposed(found: seq<seq<nat>>, layers: nat) returns (table: Table)
    requires forall i :: 0 <= i < |found| ==> |found[i]| == layers
    ensures HitTable(found, layers) == Some(table)
  {
    table := if found == [] then []
      else seq(layers, l requires 0 <= l < layers => seq(|found|, i requires 0 <= i < |found| => found[i][l]));
  }

  ghost predicate LooksUp(before: State, after: State, st: RequestKv, hit: RequestKv, keys: seq<Key>, now: nat, cfg: Config)
  {
    && cfg.Valid() && st.request.Valid()
    && var hits := AdmissionHits(before.Cache(), st.request, keys, now, cfg);
       var table := HitTable(hits.found, st.request.model.layers);
       && after == before.WithCache(hits.p) && table.Some?
       && hit == st.(table := table.value, keys := keys, hitTokens := |hits.found| * cfg.blockTokens)
  }

  lemma AdmitsHit(before: State, after: State, request: Request, hit: RequestKv, keys: seq<Key>, now: nat, cfg: Config)
    requires LooksUp(before, after, RequestKv(request, before.nextOrder, Hot, [], -1, [], 0), hit, keys, now, cfg)
    requires request.id !in before.kv && cfg.Caching() && request.tokens.Some?
    ensures Admit(before, request, keys, now, cfg) == Some(after.(kv := after.kv[request.id := hit], nextOrder := before.nextOrder + 1))
    ensures after.kv == before.kv && after.nextOrder == before.nextOrder
  {
  }
}
