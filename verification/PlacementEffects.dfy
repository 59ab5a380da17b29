/** What every call on the placement plane leaves, request by request and entry by entry, said without
    the functions that compute it.
 */
module PlacementEffects {
  import opened Pools
  import opened PrefixKeys
  import opened PrefixSpec
  import opened PrefixOrders
  import opened Tables
  import opened PlacementSpec
  import opened PlacementInvariant
  import opened PlannerSoundness
  import opened PlacementRuns

  /** Only these parts of the plane may differ: pool references, entries and their bytes. */
  ghost predicate SameOutside(s: State, t: State)
  {
    && t.cold == s.cold && t.kv == s.kv && t.nextOrder == s.nextOrder && t.migrations == s.migrations && t.pendingBatch == s.pendingBatch
    && t.hot.capacity == s.hot.capacity
  }

  // --------------------------------------------------------------- admission

  /** The table whose column k is hit k. */
  ghost predicate Transposes(found: seq<seq<nat>>, table: Table, layers: nat)
  {
    if found == [] then table == []
    else
      && |table| == layers && (forall l :: 0 <= l < |table| ==> |table[l]| == |found|)
      && forall l, i :: 0 <= l < |table| && 0 <= i < |found| ==> l < |found[i]| && table[l][i] == found[i][l]
  }

  /** A new request stands behind its hits: the longest run of its leading keys in the cache. */
  ghost predicate BehindHits(s: State, t: State, st: RequestKv, found: seq<seq<nat>>, keys: seq<Key>, now: nat, cfg: Config)
    requires cfg.Valid() && st.request.Valid()
  {
    && PrefixOrders.LooksUp(s.entries, t.entries, found, keys, (st.request.promptTokens - 1) / cfg.blockTokens, now, cfg.budget)
    && st.keys == keys && st.hitTokens == |found| * cfg.blockTokens && Transposes(found, st.table, st.request.model.layers)
  }

  ghost predicate Admitted(s: State, t: State, request: Request, keys: seq<Key>, now: nat, cfg: Config)
    requires cfg.Valid() && request.Valid()
  {
    if request.id in s.kv then t == s
    else
      && request.id in t.kv
      && var st := t.kv[request.id];
         && t.kv == s.kv[request.id := st] && t.nextOrder == s.nextOrder + 1
         && SameOutside(s, t.(kv := s.kv, nextOrder := s.nextOrder))
         && st.request == request && st.order == s.nextOrder && st.tier.Hot? && st.lastBatch == -1
         && if cfg.Caching() && request.tokens.Some? then exists found :: BehindHits(s, t, st, found, keys, now, cfg)
            else st.table == [] && st.keys == [] && st.hitTokens == 0 && t.hot == s.hot && t.entries == s.entries && t.bytes == s.bytes
  }

  lemma AdmitMeans(s: State, request: Request, keys: seq<Key>, now: nat, cfg: Config)
    requires cfg.Valid() && Inv(s, cfg) && request.Valid()
    requires request.tokens.Some? ==> RightKeys(request, keys, cfg)
    ensures Admit(s, request, keys, now, cfg).Some? && Admitted(s, Admit(s, request, keys, now, cfg).value, request, keys, now, cfg)
  {
    hide Inv, RightKeys, Lookup, HitTable, BehindHits;
    AdmitInv(s, request, keys, now, cfg);
    if request.id !in s.kv && cfg.Caching() && request.tokens.Some? {
      var hits := Lookup(s.Cache(), keys, (request.promptTokens - 1) / cfg.blockTokens, now, cfg.budget);
      var st := Admit(s, request, keys, now, cfg).value.kv[request.id];
      EntryKeys(s, cfg);
      LookupMeans(s.Cache(), keys, (request.promptTokens - 1) / cfg.blockTokens, now, cfg.budget);
      LookupCapacity(s.Cache(), keys, (request.promptTokens - 1) / cfg.blockTokens, now, cfg.budget);
      HitsTransposed(hits.found, request.model.layers);
      HitsBehind(s, Admit(s, request, keys, now, cfg).value, st, hits.found, keys, now, cfg);
    }
  }

  lemma HitsBehind(s: State, t: State, st: RequestKv, found: seq<seq<nat>>, keys: seq<Key>, now: nat, cfg: Config)
    requires cfg.Valid() && st.request.Valid()
    requires PrefixOrders.LooksUp(s.entries, t.entries, found, keys, (st.request.promptTokens - 1) / cfg.blockTokens, now, cfg.budget)
    requires st.keys == keys && st.hitTokens == |found| * cfg.blockTokens && Transposes(found, st.table, st.request.model.layers)
    ensures BehindHits(s, t, st, found, keys, now, cfg)
  {
  }

  lemma EntryKeys(s: State, cfg: Config)
    requires Inv(s, cfg)
    ensures DistinctKeys(s.entries)
  {
    hide Held;
  }

  lemma HitsTransposed(found: seq<seq<nat>>, layers: nat)
    ensures HitTable(found, layers).Some? ==> Transposes(found, HitTable(found, layers).value, layers)
  {
  }

  lemma LookupCapacity(p: Prefix, keys: seq<Key>, most: nat, now: nat, budget: Budget)
    ensures Lookup(p, keys, most, now, budget).p.pool.capacity == p.pool.capacity
  {
    ExpireCapacity(p, 0, now, budget);
    LookupFromCapacity(Expire(p, now, budget), Asked(keys, most), []);
  }

  lemma {:induction false} ExpireCapacity(p: Prefix, i: nat, now: nat, budget: Budget)
    ensures ExpireFrom(p, i, now, budget).pool.capacity == p.pool.capacity
    decreases |p.entries| - i
  {
    if i < |p.entries| {
      if Expired(p.entries[i], now) {
        ExpireCapacity(Evict(p, i, budget), i, now, budget);
      } else {
        ExpireCapacity(p, i + 1, now, budget);
      }
    }
  }

  lemma {:induction false} LookupFromCapacity(p: Prefix, keys: seq<Key>, found: seq<seq<nat>>)
    ensures LookupFrom(p, keys, found).p.pool.capacity == p.pool.capacity
    decreases |keys|
  {
    if keys != [] && Find(p.entries, keys[0]) < |p.entries| {
      var i := Find(p.entries, keys[0]);
      var blocks := p.entries[i].blocks;
      LookupFromCapacity(p.(pool := p.pool.Retain(multiset(blocks)), entries := ToEnd(p.entries, i)), keys[1..], found + [blocks]);
    }
  }

  // -------------------------------------------------------------- preemption

  /** A request in the same place of the same size, in the other tier. */
  ghost predicate Rehoused(a: RequestKv, b: RequestKv, toCold: bool)
  {
    && b == a.(tier := if toCold then Cold else Hot, table := b.table)
    && |b.table| == |a.table| && b.Width() == a.Width()
  }

  /** The call fails exactly for a request without hot blocks.  With room in the cold pool the request is
      swapped out and its migration noted, otherwise it loses its blocks; nobody else is touched. */
  ghost predicate Preempts(s: State, r: PreemptResult, id: nat, cfg: Config)
  {
    && (r.Refused? <==> id !in s.kv || s.kv[id].tier.Cold? || s.kv[id].Total() == 0)
    && (r.Preempted? ==>
          && id in s.kv && id in r.state.kv
          && var t := r.state;
             && t.kv == s.kv[id := t.kv[id]] && t.entries == s.entries && t.bytes == s.bytes
             && t.nextOrder == s.nextOrder && t.pendingBatch == s.pendingBatch
             && t.hot == s.hot.Release(Cells(s.kv[id].table))
             && (r.mode.SwapOut? <==> cfg.hasCold && s.kv[id].Total() <= s.cold.Free())
             && (r.mode.SwapOut? ==>
                   && Rehoused(s.kv[id], t.kv[id], true)
                   && t.migrations == s.migrations + [Migration(true, id, s.kv[id].table, t.kv[id].table)])
             && (r.mode.Recompute? ==>
                   t.kv[id] == s.kv[id].(table := []) && t.migrations == s.migrations && t.cold == s.cold))
  }

  lemma PreemptMeans(s: State, id: nat, cfg: Config)
    requires cfg.Valid() && Inv(s, cfg)
    ensures Preempts(s, Preempt(s, id, cfg), id, cfg)
  {
    hide Inv, Migrate, Rehoused;
    if id in s.kv && s.kv[id].tier.Hot? && s.kv[id].Total() != 0 {
      HotHeld(s, id, cfg);
      if cfg.hasCold && s.cold.Free() >= s.kv[id].Total() {
        TotalWide(s.kv[id]);
        MigrateOne(s, id, true, cfg);
        MigrateEffect(s, id, true, cfg);
      }
    }
  }

  lemma TotalWide(st: RequestKv)
    requires st.Total() != 0
    ensures st.Width() > 0
  {
  }

  lemma HotHeld(s: State, id: nat, cfg: Config)
    requires Inv(s, cfg) && id in s.kv && s.kv[id].tier.Hot?
    ensures Cells(s.kv[id].table) <= s.hot.refs
  {
    hide Held;
    HeldSplit(s.kv, id, Hot);
  }

  /** What one migration leaves. */
  lemma MigrateEffect(s: State, id: nat, toCold: bool, cfg: Config)
    requires Inv(s, cfg) && id in s.kv && s.kv[id].tier.Cold? != toCold && Migrate(s, id, toCold).Some?
    requires toCold ==> cfg.hasCold && s.kv[id].Width() > 0
    ensures var t := Migrate(s, id, toCold).value;
      && id in t.kv && t == s.(hot := t.hot, cold := t.cold, kv := s.kv[id := t.kv[id]], migrations := t.migrations)
      && Rehoused(s.kv[id], t.kv[id], toCold)
      && t.migrations == s.migrations + [Migration(toCold, id, s.kv[id].table, t.kv[id].table)]
      && (if toCold then t.hot else t.cold) == (if toCold then s.hot else s.cold).Release(Cells(s.kv[id].table))
  {
    hide Inv, AllocateRows;
    var rows := MigrateExact(s, id, toCold, cfg);
    MigrationFacts(s, id, toCold, cfg);
    RowsShaped(if toCold then s.cold else s.hot, s.kv[id], rows);
    MovedWidth(s.kv[id].table, rows.table, s.kv[id].Width());
  }

  lemma RowsShaped(pool: Pool, st: RequestKv, rows: Rows)
    requires pool.Valid() && rows == AllocateRows(pool, |st.table|, st.Width()) && rows.Rows?
    ensures Rectangular(rows.table, |st.table|, st.Width())
  {
    AllocateRowsExact(pool, |st.table|, st.Width());
  }

  // ----------------------------------------------------------------- release

  /** A request goes with all its blocks; the entries that only the cache holds now go to the young end. */
  ghost predicate Releases(s: State, t: State, id: nat)
    requires id in s.kv
  {
    var st := s.kv[id];
    && t.kv == s.kv - {id} && t.nextOrder == s.nextOrder && t.migrations == s.migrations && t.pendingBatch == s.pendingBatch
    && t.bytes == s.bytes
    && if st.tier.Hot? then
         && t.hot == s.hot.Release(Cells(st.table)) && t.cold == s.cold
         && Rejuvenated(s.entries, t.entries, Returned(st.keys, s.entries, t.hot.refs))
       else t.cold == s.cold.Release(Cells(st.table)) && t.hot == s.hot && t.entries == s.entries
  }

  lemma ReleaseMeans(s: State, id: nat, cfg: Config)
    requires cfg.Valid() && Inv(s, cfg)
    ensures Release(s, id).Some? <==> id in s.kv
    ensures id in s.kv ==> Releases(s, Release(s, id).value, id)
  {
    hide Inv, ReleaseOrder, Rejuvenated, Returned;
    if id in s.kv {
      PartHeld(s, id, cfg);
      EntryKeys(s, cfg);
      if s.kv[id].tier.Hot? {
        var freed := s.(hot := s.hot.Release(Cells(s.kv[id].table)), kv := s.kv - {id});
        ReleaseOrderMeans(freed.Cache(), s.kv[id].keys);
        ReleaseOrderPool(freed.Cache(), s.kv[id].keys);
      }
    }
  }

  lemma PartHeld(s: State, id: nat, cfg: Config)
    requires Inv(s, cfg) && id in s.kv
    ensures Cells(s.kv[id].table) <= (if s.kv[id].tier.Hot? then s.hot else s.cold).refs
  {
    HeldSplit(s.kv, id, s.kv[id].tier);
    hide Held;
  }

  lemma {:induction false} ReleaseOrderPool(p: Prefix, keys: seq<Key>)
    ensures ReleaseOrder(p, keys).pool == p.pool && ReleaseOrder(p, keys).bytes == p.bytes
    decreases |keys|
  {
    if keys != [] {
      var i := Find(p.entries, keys[|keys| - 1]);
      if i < |p.entries| && (forall b :: b in p.entries[i].blocks ==> p.pool.refs[b] == 1) {
        ReleaseOrderPool(p.(entries := ToEnd(p.entries, i)), keys[..|keys| - 1]);
      } else {
        ReleaseOrderPool(p, keys[..|keys| - 1]);
      }
    }
  }

  // ------------------------------------------------------------- publication

  /** The entries after the full blocks of a request up to a token have been published. */
  ghost predicate PublishedUpTo(before: seq<Entry>, after: seq<Entry>, st: RequestKv, end: nat, now: nat, pending: bool, cfg: Config)
    requires cfg.Valid()
  {
    var complete := (if end < st.request.promptTokens then end else st.request.promptTokens) / cfg.blockTokens;
    && (forall l :: 0 <= l < |st.table| ==> complete <= |st.table[l]|)
    && exists steps :: PublishSteps(steps, before, after, st.keys, st.table, complete, now, pending, cfg.budget)
  }

  lemma PublishForMeans(s: State, id: nat, end: nat, now: nat, pending: bool, cfg: Config)
    requires cfg.Valid() && Inv(s, cfg) && id in s.kv && s.kv[id].tier.Hot? && s.kv[id].table != []
    requires BlocksFor(end, cfg.blockTokens) <= s.kv[id].Width()
    ensures PublishFor(s, id, end, now, pending, cfg).Some?
    ensures var t := PublishFor(s, id, end, now, pending, cfg).value;
      SameOutside(s, t) && PublishedUpTo(s.entries, t.entries, s.kv[id], end, now, pending, cfg)
  {
    hide Inv, Publish, PublishSteps;
    var st := s.kv[id];
    var complete := Min(end, st.request.promptTokens) / cfg.blockTokens;
    PublishForFree(s, id, end, now, pending, cfg);
    PublicationReady(s, id, end, cfg);
    var steps := PublishMeans(s.Cache(), st.keys, st.table, complete, now, pending, cfg.budget, Held(s.kv, Hot));
    PublishCapacity(s, id, complete, now, pending, cfg);
  }

  lemma PublishCapacity(s: State, id: nat, complete: nat, now: nat, pending: bool, cfg: Config)
    requires cfg.Valid() && id in s.kv && Accounted(s.Cache(), cfg.budget, Held(s.kv, Hot))
    requires forall l :: 0 <= l < |s.kv[id].table| ==> complete <= |s.kv[id].table[l]|
    requires forall k :: 0 <= k < |s.kv[id].keys| ==> KeyModel(s.kv[id].keys[k]).layers == |s.kv[id].table|
    requires forall l, o :: 0 <= l < |s.kv[id].table| && 0 <= o < complete ==> s.kv[id].table[l][o] in Held(s.kv, Hot)
    ensures Publish(s.Cache(), s.kv[id].keys, s.kv[id].table, complete, now, pending, cfg.budget).pool.capacity == s.hot.capacity
  {
    hide Accounted, Held;
    ExpireAccounted(s.Cache(), 0, now, cfg.budget, Held(s.kv, Hot));
    PublishAccounted(Expire(s.Cache(), now, cfg.budget), s.kv[id].keys, s.kv[id].table, 0, complete, now, pending, cfg.budget, Held(s.kv, Hot));
  }

  /** What publication asks for holds of every request with hot blocks. */
  lemma PublicationReady(s: State, id: nat, end: nat, cfg: Config)
    requires cfg.Valid() && Inv(s, cfg) && id in s.kv && s.kv[id].tier.Hot? && s.kv[id].table != []
    requires BlocksFor(end, cfg.blockTokens) <= s.kv[id].Width()
    ensures Accounted(s.Cache(), cfg.budget, Held(s.kv, Hot))
    ensures var complete := Min(end, s.kv[id].request.promptTokens) / cfg.blockTokens;
      && (forall l :: 0 <= l < |s.kv[id].table| ==> complete <= |s.kv[id].table[l]|)
      && (forall k :: 0 <= k < |s.kv[id].keys| ==> KeyModel(s.kv[id].keys[k]).layers == |s.kv[id].table|)
      && forall l, o :: 0 <= l < |s.kv[id].table| && 0 <= o < complete ==> s.kv[id].table[l][o] in Held(s.kv, Hot)
  {
    hide Accounted, Held;
    CompleteCovered(s, id, end, cfg);
    assert Shaped(s.kv[id], cfg);
    KeyLayers(s.kv[id], cfg);
    forall l, o | 0 <= l < |s.kv[id].table| && 0 <= o < |s.kv[id].table[l]| ensures s.kv[id].table[l][o] in Held(s.kv, Hot) {
      CellIn(s.kv[id].table, l, o);
      HeldSplit(s.kv, id, Hot);
    }
  }

  /** One slice after the other is published, with the tables of the plane. */
  ghost predicate SlicesPublished(stages: seq<seq<Entry>>, before: seq<Entry>, after: seq<Entry>, kv: map<nat, RequestKv>,
                                  slices: seq<Slice>, finish: Option<nat>, cfg: Config)
    requires cfg.Valid() && forall i :: 0 <= i < |slices| ==> slices[i].request in kv
  {
    && |stages| == |slices| + 1 && stages[0] == before && stages[|slices|] == after
    && forall i :: 0 <= i < |slices| ==>
         var st := kv[slices[i].request];
         PublishedUpTo(stages[i], stages[i + 1], st, slices[i].End(), if finish.Some? then finish.value else st.request.arrival,
                       finish.None?, cfg)
  }

  /** Completion publishes the slices for good, and changes nothing but the cache. */
  lemma CompleteMeans(s: State, slices: seq<Slice>, finish: nat, cfg: Config) returns (stages: seq<seq<Entry>>)
    requires cfg.Valid() && Inv(s, cfg) && Covered(s, slices, cfg)
    ensures Complete(s, slices, finish, cfg).Some? && forall i :: 0 <= i < |slices| ==> slices[i].request in s.kv
    ensures var t := Complete(s, slices, finish, cfg).value;
      && SameOutside(s, t)
      && if cfg.Caching() then SlicesPublished(stages, s.entries, t.entries, s.kv, slices, Some(finish), cfg) else t == s
  {
    hide Inv;
    if cfg.Caching() {
      stages := CompleteFromMeans(s, slices, finish, cfg);
    } else {
      stages := [];
      assert forall i :: 0 <= i < |slices| ==> slices[i].request in s.kv;
    }
  }

  lemma CoveredFirst(s: State, slices: seq<Slice>, cfg: Config)
    requires cfg.Valid() && Covered(s, slices, cfg) && slices != []
    ensures var id := slices[0].request;
      && id in s.kv && s.kv[id].tier.Hot? && s.kv[id].table != [] && BlocksFor(slices[0].End(), cfg.blockTokens) <= s.kv[id].Width()
      && Covered(s, slices[1..], cfg)
    ensures forall i :: 0 <= i < |slices| ==> slices[i].request in s.kv
  {
    BlocksCover(slices[0].End(), cfg.blockTokens);
  }

  lemma {:induction false} CompleteFromMeans(s: State, slices: seq<Slice>, finish: nat, cfg: Config) returns (stages: seq<seq<Entry>>)
    requires cfg.Valid() && Inv(s, cfg) && Covered(s, slices, cfg)
    ensures CompleteFrom(s, slices, finish, cfg).Some? && forall i :: 0 <= i < |slices| ==> slices[i].request in s.kv
    ensures var t := CompleteFrom(s, slices, finish, cfg).value;
      SameOutside(s, t) && SlicesPublished(stages, s.entries, t.entries, s.kv, slices, Some(finish), cfg)
    decreases |slices|
  {
    hide Inv, PublishFor, PublishedUpTo;
    stages := [s.entries];
    if slices != [] {
      var id := slices[0].request;
      CoveredFirst(s, slices, cfg);
      PublishForMeans(s, id, slices[0].End(), finish, false, cfg);
      PublishForFree(s, id, slices[0].End(), finish, false, cfg);
      var mid := PublishFor(s, id, slices[0].End(), finish, false, cfg).value;
      var rest := CompleteFromMeans(mid, slices[1..], finish, cfg);
      stages := stages + rest;
      StagesMore(stages, rest, s.entries, CompleteFrom(mid, slices[1..], finish, cfg).value.entries, s.kv, slices, Some(finish), cfg);
    }
  }

  lemma StagesMore(stages: seq<seq<Entry>>, rest: seq<seq<Entry>>, before: seq<Entry>, after: seq<Entry>, kv: map<nat, RequestKv>,
                   slices: seq<Slice>, finish: Option<nat>, cfg: Config)
    requires cfg.Valid() && slices != [] && (forall i :: 0 <= i < |slices| ==> slices[i].request in kv) && rest != []
    requires stages == [before] + rest && SlicesPublished(rest, rest[0], after, kv, slices[1..], finish, cfg)
    requires var st := kv[slices[0].request];
      PublishedUpTo(before, rest[0], st, slices[0].End(), if finish.Some? then finish.value else st.request.arrival, finish.None?, cfg)
    ensures SlicesPublished(stages, before, after, kv, slices, finish, cfg)
  {
    hide PublishedUpTo;
    forall i | 0 <= i < |slices|
      ensures var st := kv[slices[i].request];
        PublishedUpTo(stages[i], stages[i + 1], st, slices[i].End(), if finish.Some? then finish.value else st.request.arrival, finish.None?, cfg)
    {
      if i > 0 {
        assert slices[i] == slices[1..][i - 1] && stages[i] == rest[i - 1] && stages[i + 1] == rest[i];
      }
    }
  }
}
