/** What a reservation leaves: the planned entries gone, the planned victims in the cold pool, the batch
    in the hot one with the blocks its slices need, its full prompt blocks published, and nothing else.
 */
module ReservationEffects {
  import opened PrefixKeys
  import opened PrefixSpec
  import opened PrefixOrders
  import opened Tables
  import opened PlacementSpec
  import opened PlacementInvariant
  import opened PlannerSoundness
  import opened PlacementEffects

  // --------------------------------------------------------------- evictions

  lemma {:induction false} RestTwice(entries: seq<Entry>, key: Key, keys: seq<Key>)
    ensures Rest(Rest(entries, [key]), keys) == Rest(entries, [key] + keys)
  {
    if entries != [] {
      var first, all := entries[0], [key] + keys;
      RestTwice(entries[1..], key, keys);
      RestJoin(if first.key == key then [] else [first], Rest(entries[1..], [key]), keys);
      RestOne(first, keys);
      assert first.key in all <==> first.key == key || first.key in keys;
    }
  }

  lemma {:induction false} EvictedEntries(s: State, keys: seq<Key>, cfg: Config)
    requires EvictKeys(s, keys, cfg).Some? && DistinctKeys(s.entries)
    ensures EvictKeys(s, keys, cfg).value.entries == Rest(s.entries, keys)
    decreases |keys|
  {
    hide Rest;
    if keys == [] {
      RestAll(s.entries, []);
    } else {
      var i := Find(s.entries, keys[0]);
      RestIsWithout(s.entries, i);
      WithoutKeys(s.entries, i);
      EvictedEntries(s.WithCache(Evict(s.Cache(), i, cfg.budget)), keys[1..], cfg);
      RestTwice(s.entries, keys[0], keys[1..]);
      assert [keys[0]] + keys[1..] == keys;
    }
  }

  // -------------------------------------------------------------- migrations

  /** The migrations of these requests, in order, from the tables they had to those they have. */
  ghost predicate Logged(log: seq<Migration>, before: map<nat, RequestKv>, after: map<nat, RequestKv>, ids: seq<nat>, toCold: bool)
    requires forall k :: 0 <= k < |ids| ==> ids[k] in before && ids[k] in after
  {
    && |log| == |ids|
    && forall k :: 0 <= k < |ids| ==> log[k] == Migration(toCold, ids[k], before[ids[k]].table, after[ids[k]].table)
  }

  /** These requests are in the other tier, with their migrations noted; all others stay. */
  ghost predicate Moves(s: State, t: State, ids: seq<nat>, toCold: bool)
  {
    && t.kv.Keys == s.kv.Keys && t.entries == s.entries && t.nextOrder == s.nextOrder && t.pendingBatch == s.pendingBatch
    && (forall k :: 0 <= k < |ids| ==> ids[k] in s.kv && Rehoused(s.kv[ids[k]], t.kv[ids[k]], toCold))
    && (forall id :: id in s.kv && id !in ids ==> t.kv[id] == s.kv[id])
    && |s.migrations| <= |t.migrations| && t.migrations[..|s.migrations|] == s.migrations
    && Logged(t.migrations[|s.migrations|..], s.kv, t.kv, ids, toCold)
  }

  lemma {:induction false} MovesAll(s: State, ids: seq<nat>, toCold: bool, cfg: Config)
    requires Inv(s, cfg) && Movable(s, ids, toCold, cfg) && MigrateAll(s, ids, toCold).Some?
    ensures Inv(MigrateAll(s, ids, toCold).value, cfg) && Moves(s, MigrateAll(s, ids, toCold).value, ids, toCold)
    decreases |ids|
  {
    hide Inv, Migrate, Relocated, Movable, Moves, Rehoused;
    if ids == [] {
      MovesNone(s, toCold);
    } else {
      var first, rest := ids[0], ids[1..];
      FirstMovable(s, ids, toCold, cfg);
      var rows := MigrateExact(s, first, toCold, cfg);
      MigrateOne(s, first, toCold, cfg);
      MigrateEffect(s, first, toCold, cfg);
      var mid := Migrate(s, first, toCold).value;
      StillMovable(s, mid, ids, toCold, cfg);
      OfFrame(s.kv, mid.kv, rest);
      MovesAll(mid, rest, toCold, cfg);
      MovableDiffers(s, ids, toCold, cfg);
      MovesMore(s, mid, MigrateAll(mid, rest, toCold).value, ids, toCold);
    }
  }

  lemma MovableDiffers(s: State, ids: seq<nat>, toCold: bool, cfg: Config)
    requires Movable(s, ids, toCold, cfg) && ids != []
    ensures ids[0] !in ids[1..]
  {
  }

  lemma MovesNone(s: State, toCold: bool)
    ensures Moves(s, s, [], toCold)
  {
  }

  lemma MovesMore(s: State, mid: State, t: State, ids: seq<nat>, toCold: bool)
    requires ids != [] && ids[0] in s.kv && ids[0] in mid.kv && ids[0] !in ids[1..] && Rehoused(s.kv[ids[0]], mid.kv[ids[0]], toCold)
    requires mid == s.(hot := mid.hot, cold := mid.cold, kv := s.kv[ids[0] := mid.kv[ids[0]]], migrations := mid.migrations)
    requires mid.migrations == s.migrations + [Migration(toCold, ids[0], s.kv[ids[0]].table, mid.kv[ids[0]].table)]
    requires Moves(mid, t, ids[1..], toCold)
    ensures Moves(s, t, ids, toCold)
  {
    hide Rehoused, Logged;
    var rest, n := ids[1..], |s.migrations|;
    forall k | 0 <= k < |ids| ensures ids[k] in s.kv && Rehoused(s.kv[ids[k]], t.kv[ids[k]], toCold) {
      assert k > 0 ==> ids[k] == rest[k - 1] && rest[k - 1] in rest;
    }
    assert t.migrations[..n] == t.migrations[..n + 1][..n];
    assert t.migrations[n..][0] == t.migrations[..n + 1][n] && t.migrations[n..][1..] == t.migrations[n + 1..];
    LoggedMore(t.migrations[n..], s.kv, mid.kv, t.kv, ids, toCold);
  }

  lemma LoggedMore(log: seq<Migration>, before: map<nat, RequestKv>, mid: map<nat, RequestKv>, after: map<nat, RequestKv>,
                   ids: seq<nat>, toCold: bool)
    requires log != [] && ids != [] && forall k :: 0 <= k < |ids| ==> ids[k] in before && ids[k] in mid && ids[k] in after
    requires log[0] == Migration(toCold, ids[0], before[ids[0]].table, after[ids[0]].table)
    requires forall k :: 0 <= k < |ids[1..]| ==> mid[ids[1..][k]] == before[ids[1..][k]]
    requires Logged(log[1..], mid, after, ids[1..], toCold)
    ensures Logged(log, before, after, ids, toCold)
  {
    forall k | 0 <= k < |ids| ensures log[k] == Migration(toCold, ids[k], before[ids[k]].table, after[ids[k]].table) {
      assert k > 0 ==> log[k] == log[1..][k - 1] && ids[k] == ids[1..][k - 1];
    }
  }

  // ------------------------------------------------------------------ growth

  /** Rows that go on where they were. */
  ghost predicate Longer(table: Table, more: Table)
  {
    |table| <= |more| && forall l :: 0 <= l < |table| ==> table[l] <= more[l]
  }

  /** The blocks up to a token are there, and the request is marked for the batch. */
  ghost predicate Grows(a: RequestKv, b: RequestKv, end: nat, batch: nat, cfg: Config)
    requires cfg.Valid()
  {
    && b == a.(table := b.table, lastBatch := batch) && Longer(a.table, b.table)
    && b.Width() == (if BlocksFor(end, cfg.blockTokens) > a.Width() then BlocksFor(end, cfg.blockTokens) else a.Width())
    && (b.table == [] || Rectangular(b.table, a.request.model.layers, b.Width()))
  }

  /** The number of blocks is the least that holds the tokens. */
  lemma BlocksLeast(tokens: nat, blockTokens: nat)
    requires blockTokens > 0
    ensures tokens <= BlocksFor(tokens, blockTokens) * blockTokens < tokens + blockTokens
  {
    BlocksCover(tokens, blockTokens);
  }

  lemma GrowMeans(s: State, id: nat, end: nat, batch: nat, cfg: Config)
    requires cfg.Valid() && Inv(s, cfg) && id in s.kv
    requires GrowTable(s, id, Grow(s.kv[id], end, cfg.blockTokens)).Some?
    ensures var t := GrowTable(s, id, Grow(s.kv[id], end, cfg.blockTokens)).value;
      && id in t.kv && t == s.(hot := t.hot, kv := s.kv[id := t.kv[id]])
      && Grows(s.kv[id], t.kv[id].(lastBatch := batch), end, batch, cfg)
  {
    var st, grow := s.kv[id], Grow(s.kv[id], end, cfg.blockTokens);
    assert Shaped(st, cfg);
    hide Inv, AllocateRows;
    if grow > 0 {
      var rows := GrowExact(s, id, grow, cfg);
      Appends(st, rows.table, grow, cfg);
    } else {
      assert s.kv[id := s.kv[id]] == s.kv;
    }
  }

  lemma Appends(st: RequestKv, more: Table, grow: nat, cfg: Config)
    requires Shaped(st, cfg) && Rectangular(more, st.request.model.layers, grow) && grow > 0
    ensures |more| == |BaseTable(st)|
    ensures var table := Appended(BaseTable(st), more);
      && Longer(st.table, table) && Rectangular(table, st.request.model.layers, st.Width() + grow)
      && (if table == [] then 0 else |table[0]|) == st.Width() + grow
  {
  }

  /** One slice: growth, mark and publication. */
  lemma ReserveOneMeans(s: State, batch: nat, slice: Slice, cfg: Config)
    requires cfg.Valid() && Inv(s, cfg) && slice.request in s.kv && s.kv[slice.request].tier.Hot? && slice.count > 0
    requires ReserveOne(s, batch, slice, cfg).Some?
    ensures var t := ReserveOne(s, batch, slice, cfg).value;
      && slice.request in t.kv && Grows(s.kv[slice.request], t.kv[slice.request], slice.End(), batch, cfg)
      && SameOutside(s.(kv := s.kv[slice.request := t.kv[slice.request]]), t)
      && if cfg.Caching() then PublishedUpTo(s.entries, t.entries, t.kv[slice.request], slice.End(), s.kv[slice.request].request.arrival, true, cfg)
         else t.entries == s.entries
  {
    hide Inv, GrowTable, PublishFor, Grows, PublishedUpTo;
    var id := slice.request;
    var grow := Grow(s.kv[id], slice.End(), cfg.blockTokens);
    GrowFree(s, id, grow, cfg);
    var grown := GrowTable(s, id, grow).value;
    GrowMeans(s, id, slice.End(), batch, cfg);
    GrowInv(s, id, grow, cfg);
    GrowCapacity(s, id, grow, cfg);
    MarkInv(grown, id, batch, cfg);
    var marked := Marked(grown, id, batch);
    GrowsMeans(s.kv[id], marked.kv[id], slice.End(), batch, cfg);
    BlocksCover(slice.End(), cfg.blockTokens);
    if cfg.Caching() {
      PublishForMeans(marked, id, slice.End(), s.kv[id].request.arrival, true, cfg);
    }
  }

  lemma GrowCapacity(s: State, id: nat, grow: nat, cfg: Config)
    requires Inv(s, cfg) && id in s.kv && GrowTable(s, id, grow).Some?
    ensures GrowTable(s, id, grow).value.hot.capacity == s.hot.capacity
  {
    hide Inv, AllocateRows;
    InvParts(s, cfg);
    if grow > 0 {
      var rows := GrowExact(s, id, grow, cfg);
      AllocateRowsExact(s.hot, s.kv[id].request.model.layers, grow);
    }
  }

  lemma GrowsMeans(a: RequestKv, b: RequestKv, end: nat, batch: nat, cfg: Config)
    requires cfg.Valid() && Grows(a, b, end, batch, cfg)
    ensures b.request == a.request && b.tier == a.tier && BlocksFor(end, cfg.blockTokens) <= b.Width()
    ensures b.Width() > 0 ==> b.table != []
  {
  }

  /** What reserving hot slices leaves. */
  ghost predicate Books(s: State, t: State, batch: nat, slices: seq<Slice>, cfg: Config, stages: seq<seq<Entry>>)
    requires cfg.Valid() && forall i :: 0 <= i < |slices| ==> slices[i].request in s.kv
  {
    && t.kv.Keys == s.kv.Keys && SameOutside(s.(kv := t.kv), t)
    && (forall i :: 0 <= i < |slices| ==> Grows(s.kv[slices[i].request], t.kv[slices[i].request], slices[i].End(), batch, cfg))
    && (forall id :: id in s.kv && id !in InBatch(slices) ==> t.kv[id] == s.kv[id])
    && if cfg.Caching() then SlicesPublished(stages, s.entries, t.entries, t.kv, slices, None, cfg) else t.entries == s.entries
  }

  lemma {:induction false} BooksAll(s: State, batch: nat, slices: seq<Slice>, cfg: Config) returns (stages: seq<seq<Entry>>)
    requires cfg.Valid() && Inv(s, cfg) && AllHot(s, slices) && ReserveAll(s, batch, slices, cfg).Some?
    ensures Books(s, ReserveAll(s, batch, slices, cfg).value, batch, slices, cfg, stages)
    decreases |slices|
  {
    hide Inv, ReserveOne, AllHot, GrewOnly, Books, Grows, PublishedUpTo;
    stages := [s.entries];
    if slices == [] {
      BooksNone(s, batch, cfg);
    } else {
      AllHotFirst(s, slices);
      ReserveOneExact(s, batch, slices[0], cfg);
      ReserveOneMeans(s, batch, slices[0], cfg);
      var mid := ReserveOne(s, batch, slices[0], cfg).value;
      AllHotRest(s, mid, slices, cfg);
      var rest := BooksAll(mid, batch, slices[1..], cfg);
      stages := stages + rest;
      AllHotKnown(s, slices);
      BooksMore(s, mid, ReserveAll(mid, batch, slices[1..], cfg).value, batch, slices, cfg, rest);
    }
  }

  lemma AllHotKnown(s: State, slices: seq<Slice>)
    requires AllHot(s, slices)
    ensures Known(s, slices)
  {
  }

  lemma BooksNone(s: State, batch: nat, cfg: Config)
    requires cfg.Valid()
    ensures Books(s, s, batch, [], cfg, [s.entries])
  {
  }

  lemma BooksMore(s: State, mid: State, t: State, batch: nat, slices: seq<Slice>, cfg: Config, rest: seq<seq<Entry>>)
    requires cfg.Valid() && slices != [] && Known(s, slices) && mid.kv.Keys == s.kv.Keys
    requires var id := slices[0].request;
      && Grows(s.kv[id], mid.kv[id], slices[0].End(), batch, cfg) && SameOutside(s.(kv := s.kv[id := mid.kv[id]]), mid)
      && if cfg.Caching() then PublishedUpTo(s.entries, mid.entries, mid.kv[id], slices[0].End(), s.kv[id].request.arrival, true, cfg)
         else mid.entries == s.entries
    requires forall i :: 0 <= i < |slices[1..]| ==> slices[1..][i].request in mid.kv
    requires Books(mid, t, batch, slices[1..], cfg, rest)
    ensures Books(s, t, batch, slices, cfg, [s.entries] + rest)
  {
    var id := slices[0].request;
    GrowsMeans(s.kv[id], mid.kv[id], slices[0].End(), batch, cfg);
    hide Grows, PublishedUpTo;
    assert forall i :: 0 <= i < |slices[1..]| ==> slices[1..][i] == slices[i + 1];
    InBatchFirst(slices);
    assert id !in InBatch(slices[1..]);
    assert t.kv[id] == mid.kv[id];
    forall i | 0 <= i < |slices| ensures Grows(s.kv[slices[i].request], t.kv[slices[i].request], slices[i].End(), batch, cfg) {
      assert i > 0 ==> slices[i] == slices[1..][i - 1] && mid.kv[slices[i].request] == s.kv[slices[i].request];
    }
    if cfg.Caching() {
      StagesMore([s.entries] + rest, rest, s.entries, t.entries, t.kv, slices, None, cfg);
    }
  }

  // ----------------------------------------------------------- the reservation

  /** A slice's request in the hot pool with all its blocks, marked; what was there stays in front. */
  ghost predicate Seated(a: RequestKv, b: RequestKv, end: nat, batch: nat, cfg: Config)
    requires cfg.Valid()
  {
    && b == a.(tier := Hot, table := b.table, lastBatch := batch) && (a.tier.Hot? ==> Longer(a.table, b.table))
    && b.Width() == (if BlocksFor(end, cfg.blockTokens) > a.Width() then BlocksFor(end, cfg.blockTokens) else a.Width())
    && (b.table == [] || Rectangular(b.table, a.request.model.layers, b.Width()))
  }

  /** A swap-in of a request of the batch: the front of the table it has now. */
  ghost predicate Returns(m: Migration, id: nat, before: RequestKv, after: RequestKv)
  {
    && m == Migration(false, id, before.table, m.destination)
    && |m.destination| == |before.table| && Longer(m.destination, after.table)
    && (m.destination != [] ==> |m.destination[0]| == before.Width())
  }

  /** Every slice's request is seated. */
  ghost predicate BatchSeated(s: State, t: State, batch: nat, slices: seq<Slice>, cfg: Config)
    requires cfg.Valid() && Known(s, slices) && t.kv.Keys == s.kv.Keys
  {
    forall i :: 0 <= i < |slices| ==> Seated(s.kv[slices[i].request], t.kv[slices[i].request], slices[i].End(), batch, cfg)
  }

  /** The victims are in the cold pool, and everybody else is as before. */
  ghost predicate OthersLeft(s: State, t: State, slices: seq<Slice>, victims: seq<nat>)
    requires t.kv.Keys == s.kv.Keys
  {
    && (forall k :: 0 <= k < |victims| ==> victims[k] in s.kv && Rehoused(s.kv[victims[k]], t.kv[victims[k]], true))
    && forall id :: id in s.kv && id !in InBatch(slices) && id !in victims ==> t.kv[id] == s.kv[id]
  }

  /** The victims' migrations are noted first, then those of the batch. */
  ghost predicate LogGrown(s: State, t: State, victims: seq<nat>, swapIn: seq<nat>)
    requires t.kv.Keys == s.kv.Keys && forall k :: 0 <= k < |victims| ==> victims[k] in s.kv
  {
    var m, v := |s.migrations|, |victims|;
    && |t.migrations| == m + v + |swapIn| && t.migrations[..m] == s.migrations
    && Logged(t.migrations[m..m + v], s.kv, t.kv, victims, true)
    && forall k :: 0 <= k < |swapIn| ==>
         swapIn[k] in s.kv && Returns(t.migrations[m + v + k], swapIn[k], s.kv[swapIn[k]], t.kv[swapIn[k]])
  }

  ghost predicate Reserves(s: State, t: State, batch: nat, slices: seq<Slice>, plan: Plan, cfg: Config, stages: seq<seq<Entry>>)
    requires cfg.Valid() && Known(s, slices) && plan.Feasible?
  {
    && t.kv.Keys == s.kv.Keys && t.nextOrder == s.nextOrder && t.pendingBatch == Some(batch)
    && BatchSeated(s, t, batch, slices, cfg) && OthersLeft(s, t, slices, plan.victims) && LogGrown(s, t, plan.victims, plan.swapIn)
    && if cfg.Caching() then SlicesPublished(stages, Rest(s.entries, plan.evictions), t.entries, t.kv, slices, None, cfg)
       else t.entries == Rest(s.entries, plan.evictions)
  }

  lemma ReserveMeans(s: State, batch: nat, slices: seq<Slice>, cfg: Config) returns (stages: seq<seq<Entry>>)
    requires cfg.Valid() && Inv(s, cfg) && Reserve(s, batch, slices, cfg).Some?
    requires forall i :: 0 <= i < |slices| ==> slices[i].count > 0
    ensures Known(s, slices) && MakePlan(s, slices, cfg).Feasible?
    ensures Reserves(s, Reserve(s, batch, slices, cfg).value, batch, slices, MakePlan(s, slices, cfg), cfg, stages)
  {
    hide Inv, EvictKeys, MigrateAll, ReserveAll, MakePlan, Moves, Books, AllHot, Movable, Chosen, Reserves;
    var plan := MakePlan(s, slices, cfg);
    FeasibleMeans(s, slices, cfg);
    PlanParts(s, slices, cfg);
    EvictKeysExact(s, plan.evictions, cfg);
    EntryKeys(s, cfg);
    EvictedEntries(s, plan.evictions, cfg);
    var s1 := EvictKeys(s, plan.evictions, cfg).value;
    var s2 := VictimsMakeRoom(s, slices, cfg);
    ChosenMove(s1, slices, plan.victims, cfg);
    MovesAll(s1, plan.victims, true, cfg);
    var s3 := SwapInsFit(s, s2, slices, plan.victims, cfg);
    BatchUntouched(s, s2, slices, plan.victims);
    SwapMovable(s, s2, slices, cfg);
    MovesAll(s2, plan.swapIn, false, cfg);
    stages := BooksAll(s3, batch, slices, cfg);
    var s4 := ReserveAll(s3, batch, slices, cfg).value;
    SwapInsAre(s.kv, slices);
    StepsMake(s, s1, s2, s3, s4, batch, slices, plan, cfg, stages);
  }

  lemma PlanParts(s: State, slices: seq<Slice>, cfg: Config)
    requires cfg.Valid() && Inv(s, cfg) && MakePlan(s, slices, cfg).Feasible?
    ensures Present(s.entries, MakePlan(s, slices, cfg).evictions)
    ensures MakePlan(s, slices, cfg).victims != [] ==> cfg.hasCold
  {
    hide Inv, Present, KeyCells, Held, PlanEvictions, PlanVictims, Needed;
    var start := Evictions([], multiset{}, Needed(s.kv, slices, cfg.blockTokens) - s.hot.Free());
    StartPlanned(s, start, cfg);
    PlanEvictionsSound(s.entries, 0, s.hot.refs, start, Held(s.kv, Hot));
    assert s.entries[0..] == s.entries;
  }

  lemma ChosenMove(s: State, slices: seq<Slice>, victims: seq<nat>, cfg: Config)
    requires Chosen(s.kv, victims, Candidates(s.kv, InBatch(slices))) && (victims != [] ==> cfg.hasCold)
    ensures Movable(s, victims, true, cfg)
  {
  }

  /** Exactly the cold requests of the batch come back. */
  lemma {:induction false} SwapInsAre(kv: map<nat, RequestKv>, slices: seq<Slice>)
    requires forall i :: 0 <= i < |slices| ==> slices[i].request in kv
    ensures forall id :: id in SwapIns(kv, slices) <==> id in InBatch(slices) && kv[id].tier.Cold?
  {
    if slices != [] {
      SwapInsAre(kv, slices[1..]);
      InBatchFirst(slices);
    }
  }

  lemma StepsMake(s: State, s1: State, s2: State, s3: State, s4: State, batch: nat, slices: seq<Slice>, plan: Plan, cfg: Config,
                  stages: seq<seq<Entry>>)
    requires cfg.Valid() && Known(s, slices) && plan.Feasible? && plan.swapIn == SwapIns(s.kv, slices)
    requires forall id :: id in plan.swapIn <==> id in InBatch(slices) && s.kv[id].tier.Cold?
    requires Chosen(s.kv, plan.victims, Candidates(s.kv, InBatch(slices)))
    requires s1.kv == s.kv && s1.migrations == s.migrations && s1.nextOrder == s.nextOrder && s1.entries == Rest(s.entries, plan.evictions)
    requires Moves(s1, s2, plan.victims, true) && Moves(s2, s3, plan.swapIn, false)
    requires (forall i :: 0 <= i < |slices| ==> slices[i].request in s3.kv) && Books(s3, s4, batch, slices, cfg, stages)
    ensures Reserves(s, s4.(pendingBatch := Some(batch)), batch, slices, plan, cfg, stages)
  {
    hide Rest, SwapIns, Grows, Rehoused, SlicesPublished, Moves, Books, Chosen, Logged, Seated, Returns, InBatch, Candidates,
      BatchSeated, OthersLeft, LogGrown;
    var t := s4.(pendingBatch := Some(batch));
    InBatchMeans(slices);
    VictimsOutside(s.kv, plan.victims, slices);
    MovesMeans(s1, s2, plan.victims, true);
    MovesMeans(s2, s3, plan.swapIn, false);
    BooksMeans(s3, s4, batch, slices, cfg, stages);
    SeatedAll(s, s2, s3, t, batch, slices, plan, cfg);
    VictimsStay(s, s2, s3, t, slices, plan);
    LogNow(s, s2, s3, t, batch, slices, plan, cfg);
  }

  lemma SeatedAll(s: State, s2: State, s3: State, t: State, batch: nat, slices: seq<Slice>, plan: Plan, cfg: Config)
    requires cfg.Valid() && Known(s, slices) && plan.Feasible? && t.kv.Keys == s3.kv.Keys == s2.kv.Keys == s.kv.Keys
    requires forall i :: 0 <= i < |slices| ==> slices[i].request in InBatch(slices)
    requires forall id :: id in plan.swapIn <==> id in InBatch(slices) && s.kv[id].tier.Cold?
    requires forall id :: id in plan.victims ==> id !in InBatch(slices)
    requires forall id :: id in s.kv && id !in plan.victims ==> s2.kv[id] == s.kv[id]
    requires forall id :: id in plan.swapIn ==> id in s2.kv && Rehoused(s2.kv[id], s3.kv[id], false)
    requires forall id :: id in s2.kv && id !in plan.swapIn ==> s3.kv[id] == s2.kv[id]
    requires forall i :: 0 <= i < |slices| ==> Grows(s3.kv[slices[i].request], t.kv[slices[i].request], slices[i].End(), batch, cfg)
    ensures BatchSeated(s, t, batch, slices, cfg)
  {
    hide Grows, Rehoused, Seated, InBatch;
    forall i | 0 <= i < |slices| ensures Seated(s.kv[slices[i].request], t.kv[slices[i].request], slices[i].End(), batch, cfg) {
      var id := slices[i].request;
      SeatedNow(s2, s3, plan.swapIn, id, t.kv[id], slices[i].End(), batch, cfg);
    }
  }

  lemma LogNow(s: State, s2: State, s3: State, t: State, batch: nat, slices: seq<Slice>, plan: Plan, cfg: Config)
    requires cfg.Valid() && Known(s, slices) && plan.Feasible? && t.kv.Keys == s3.kv.Keys == s2.kv.Keys == s.kv.Keys
    requires t.migrations == s3.migrations
    requires forall k :: 0 <= k < |plan.victims| ==> plan.victims[k] in s.kv && t.kv[plan.victims[k]] == s2.kv[plan.victims[k]]
    requires forall k :: 0 <= k < |plan.swapIn| ==> plan.swapIn[k] in s.kv
    requires forall id :: id in plan.swapIn ==> id in InBatch(slices) && s2.kv[id] == s.kv[id] && Rehoused(s2.kv[id], s3.kv[id], false)
    requires forall i :: 0 <= i < |slices| ==> Grows(s3.kv[slices[i].request], t.kv[slices[i].request], slices[i].End(), batch, cfg)
    requires |s2.migrations| == |s.migrations| + |plan.victims| && s2.migrations[..|s.migrations|] == s.migrations
    requires |s3.migrations| == |s2.migrations| + |plan.swapIn| && s3.migrations[..|s2.migrations|] == s2.migrations
    requires Logged(s2.migrations[|s.migrations|..], s.kv, s2.kv, plan.victims, true)
    requires Logged(s3.migrations[|s2.migrations|..], s2.kv, s3.kv, plan.swapIn, false)
    ensures LogGrown(s, t, plan.victims, plan.swapIn)
  {
    hide Grows, Rehoused, Returns;
    LogsJoin(s.migrations, s2.migrations, s3.migrations, |plan.victims|);
    SameLog(s.kv, s2.kv, t.kv, s2.migrations[|s.migrations|..], plan.victims);
    forall k | 0 <= k < |plan.swapIn|
      ensures Returns(t.migrations[|s2.migrations| + k], plan.swapIn[k], s.kv[plan.swapIn[k]], t.kv[plan.swapIn[k]])
    {
      var id := plan.swapIn[k];
      assert id in plan.swapIn && id in InBatch(slices);
      var i :| 0 <= i < |slices| && slices[i].request == id;
      assert s3.migrations[|s2.migrations|..][k] == s3.migrations[|s2.migrations| + k];
      ReturnsNow(s3.migrations[|s2.migrations| + k], id, s2.kv[id], s3.kv[id], t.kv[id], slices[i].End(), batch, cfg);
    }
  }

  lemma SeatedNow(s2: State, s3: State, swapIn: seq<nat>, id: nat, b: RequestKv, end: nat, batch: nat, cfg: Config)
    requires cfg.Valid() && id in s2.kv && id in s3.kv && Grows(s3.kv[id], b, end, batch, cfg)
    requires if id in swapIn then Rehoused(s2.kv[id], s3.kv[id], false) else s3.kv[id] == s2.kv[id]
    requires id in swapIn <==> s2.kv[id].tier.Cold?
    ensures Seated(s2.kv[id], b, end, batch, cfg)
  {
  }

  lemma ReturnsNow(m: Migration, id: nat, before: RequestKv, mid: RequestKv, after: RequestKv, end: nat, batch: nat, cfg: Config)
    requires cfg.Valid() && m == Migration(false, id, before.table, mid.table)
    requires Rehoused(before, mid, false) && Grows(mid, after, end, batch, cfg)
    ensures Returns(m, id, before, after)
  {
  }

  lemma VictimsOutside(kv: map<nat, RequestKv>, victims: seq<nat>, slices: seq<Slice>)
    requires Chosen(kv, victims, Candidates(kv, InBatch(slices)))
    ensures forall k :: 0 <= k < |victims| ==> victims[k] in kv && victims[k] !in InBatch(slices) && kv[victims[k]].tier.Hot?
    ensures forall id :: id in victims ==> id !in InBatch(slices)
  {
  }

  lemma MovesMeans(s: State, t: State, ids: seq<nat>, toCold: bool)
    requires Moves(s, t, ids, toCold)
    ensures t.kv.Keys == s.kv.Keys && t.entries == s.entries && t.nextOrder == s.nextOrder
    ensures forall k :: 0 <= k < |ids| ==> ids[k] in s.kv && Rehoused(s.kv[ids[k]], t.kv[ids[k]], toCold)
    ensures forall id :: id in ids ==> id in s.kv && Rehoused(s.kv[id], t.kv[id], toCold)
    ensures forall id :: id in s.kv && id !in ids ==> t.kv[id] == s.kv[id]
    ensures |t.migrations| == |s.migrations| + |ids| && t.migrations[..|s.migrations|] == s.migrations
    ensures Logged(t.migrations[|s.migrations|..], s.kv, t.kv, ids, toCold)
  {
    hide Rehoused;
  }

  lemma BooksMeans(s: State, t: State, batch: nat, slices: seq<Slice>, cfg: Config, stages: seq<seq<Entry>>)
    requires cfg.Valid() && (forall i :: 0 <= i < |slices| ==> slices[i].request in s.kv) && Books(s, t, batch, slices, cfg, stages)
    ensures t.kv.Keys == s.kv.Keys && t.nextOrder == s.nextOrder && t.migrations == s.migrations
    ensures forall i :: 0 <= i < |slices| ==> Grows(s.kv[slices[i].request], t.kv[slices[i].request], slices[i].End(), batch, cfg)
    ensures forall id :: id in s.kv && id !in InBatch(slices) ==> t.kv[id] == s.kv[id]
    ensures if cfg.Caching() then SlicesPublished(stages, s.entries, t.entries, t.kv, slices, None, cfg) else t.entries == s.entries
  {
    hide Grows, SlicesPublished;
  }

  lemma LogsJoin(a: seq<Migration>, b: seq<Migration>, c: seq<Migration>, v: nat)
    requires |b| == |a| + v && |b| <= |c| && b[..|a|] == a && c[..|b|] == b
    ensures c[..|a|] == a && c[|a|..|a| + v] == b[|a|..]
  {
    assert c[..|a|] == c[..|b|][..|a|];
    assert c[|a|..|a| + v] == c[..|b|][|a|..];
  }

  /** Victims stay where they were moved to, and everybody else where they were. */
  lemma VictimsStay(s: State, s2: State, s3: State, t: State, slices: seq<Slice>, plan: Plan)
    requires plan.Feasible? && s2.kv.Keys == s.kv.Keys && s3.kv.Keys == s.kv.Keys && t.kv.Keys == s.kv.Keys
    requires forall id :: id in plan.swapIn ==> id in InBatch(slices)
    requires forall k :: 0 <= k < |plan.victims| ==> plan.victims[k] in s.kv && plan.victims[k] !in InBatch(slices)
    requires forall k :: 0 <= k < |plan.victims| ==> Rehoused(s.kv[plan.victims[k]], s2.kv[plan.victims[k]], true)
    requires forall id :: id in s.kv && id !in plan.victims ==> s2.kv[id] == s.kv[id]
    requires forall id :: id in s.kv && id !in plan.swapIn ==> s3.kv[id] == s2.kv[id]
    requires forall id :: id in s.kv && id !in InBatch(slices) ==> t.kv[id] == s3.kv[id]
    ensures OthersLeft(s, t, slices, plan.victims)
    ensures forall k :: 0 <= k < |plan.victims| ==> t.kv[plan.victims[k]] == s2.kv[plan.victims[k]]
  {
    hide Rehoused, InBatch;
  }

  lemma SameLog(before: map<nat, RequestKv>, mid: map<nat, RequestKv>, after: map<nat, RequestKv>, log: seq<Migration>, ids: seq<nat>)
    requires forall k :: 0 <= k < |ids| ==> ids[k] in before && ids[k] in mid && ids[k] in after && after[ids[k]] == mid[ids[k]]
    requires Logged(log, before, mid, ids, true)
    ensures Logged(log, before, after, ids, true)
  {
  }

  lemma InBatchMeans(slices: seq<Slice>)
    ensures forall i :: 0 <= i < |slices| ==> slices[i].request in InBatch(slices)
  {
  }
}
