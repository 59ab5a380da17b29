/** Every run of the placement plane: the accounts stay exact whatever is admitted, reserved,
    executed, preempted and released, and nothing is left behind at the end.
 */
module PlacementRuns {
  import opened Pools
  import opened PrefixKeys
  import opened PrefixSpec
  import opened Tables
  import opened PlacementSpec
  import opened PlacementInvariant
  import opened PlannerSoundness

  // --------------------------------------------------------------- admission

  /** The hit columns are held blocks, and the table built from them lists them all. */
  lemma {:induction false} HitCells(found: seq<seq<nat>>, layers: nat)
    requires forall i :: 0 <= i < |found| ==> |found[i]| == layers
    requires found != []
    ensures HitTable(found, layers).Some?
    ensures Cells(HitTable(found, layers).value) == Flat(found)
    ensures Rectangular(HitTable(found, layers).value, layers, |found|)
  {
    var table := HitTable(found, layers).value;
    var front, last := found[..|found| - 1], found[|found| - 1];
    assert |table| == layers;
    if front == [] {
      assert Flat(front) == multiset{};
      ColumnCells(last, table);
    } else {
      HitCells(front, layers);
      var before := HitTable(front, layers).value;
      var column: Table := seq(layers, l requires 0 <= l < layers => [last[l]]);
      ColumnCells(last, column);
      ColumnAppended(found, layers, before, column, table);
      CellsZip(before, column, table);
    }
  }

  lemma ColumnAppended(found: seq<seq<nat>>, layers: nat, before: Table, column: Table, table: Table)
    requires |found| > 0 && forall i :: 0 <= i < |found| ==> |found[i]| == layers
    requires |before| == |column| == |table| == layers
    requires forall l :: 0 <= l < layers ==> |before[l]| == |found| - 1 && |table[l]| == |found|
    requires forall l, i :: 0 <= l < layers && 0 <= i < |found| - 1 ==> before[l][i] == found[i][l]
    requires forall l, i :: 0 <= l < layers && 0 <= i < |found| ==> table[l][i] == found[i][l]
    requires forall l :: 0 <= l < layers ==> column[l] == [found[|found| - 1][l]]
    ensures forall l :: 0 <= l < layers ==> table[l] == before[l] + column[l]
  {
    forall l | 0 <= l < layers ensures table[l] == before[l] + column[l] {
      forall i | 0 <= i < |found| ensures table[l][i] == (before[l] + column[l])[i] {
        assert table[l][i] == found[i][l];
        if i == |found| - 1 {
          assert column[l] == [found[i][l]];
        } else {
          assert before[l][i] == found[i][l];
        }
      }
    }
  }

  lemma {:induction false} ColumnCells(column: seq<nat>, table: Table)
    requires |table| == |column| && forall l :: 0 <= l < |table| ==> table[l] == [column[l]]
    ensures Cells(table) == multiset(column)
  {
    if column != [] {
      ColumnCells(column[1..], table[1..]);
      assert column == [column[0]] + column[1..];
    }
  }

  /** Every hit has one block per layer of the request's own model. */
  lemma {:induction false} HitsFit(p: Prefix, keys: seq<Key>, found: seq<seq<nat>>, budget: Budget, others: multiset<nat>, layers: nat)
    requires Accounted(p, budget, others + Flat(found))
    requires forall k :: 0 <= k < |keys| ==> KeyModel(keys[k]).layers == layers
    requires forall i :: 0 <= i < |found| ==> |found[i]| == layers
    ensures forall i :: 0 <= i < |LookupFrom(p, keys, found).found| ==> |LookupFrom(p, keys, found).found[i]| == layers
    ensures |LookupFrom(p, keys, found).found| <= |found| + |keys|
    decreases |keys|
  {
    if keys != [] && Find(p.entries, keys[0]) < |p.entries| {
      var i := Find(p.entries, keys[0]);
      var blocks := p.entries[i].blocks;
      LookupAccounted(p, [keys[0]], found, budget, others);
      var next := p.(pool := p.pool.Retain(multiset(blocks)), entries := ToEnd(p.entries, i));
      assert [keys[0]][1..] == [];
      assert LookupFrom(next, [], found + [blocks]) == Hits(next, found + [blocks]);
      assert LookupFrom(p, [keys[0]], found) == Hits(next, found + [blocks]);
      HitsFit(next, keys[1..], found + [blocks], budget, others, layers);
    }
  }

  ghost predicate RightKeys(request: Request, keys: seq<Key>, cfg: Config)
  {
    && KeysOf(request, cfg.blockTokens, keys)
    && Span(|keys|, cfg.blockTokens) <= request.promptTokens
  }

  /** A newly admitted request gets an empty table, or the table of its prefix hits. */
  lemma AdmitInv(s: State, request: Request, keys: seq<Key>, now: nat, cfg: Config)
    requires cfg.Valid() && Inv(s, cfg) && request.Valid()
    requires request.tokens.Some? ==> RightKeys(request, keys, cfg)
    ensures Admit(s, request, keys, now, cfg).Some?
    ensures Inv(Admit(s, request, keys, now, cfg).value, cfg)
  {
    if request.id in s.kv {
    } else if !cfg.Caching() || request.tokens.None? {
      NewRequestInv(s, s.Cache(), RequestKv(request, s.nextOrder, Hot, [], -1, [], 0), cfg);
      assert s.WithCache(s.Cache()) == s;
    } else {
      HitInv(s, request, keys, now, cfg);
    }
  }

  lemma HitInv(s: State, request: Request, keys: seq<Key>, now: nat, cfg: Config)
    requires cfg.Valid() && Inv(s, cfg) && request.Valid() && request.id !in s.kv
    requires cfg.Caching() && request.tokens.Some? && RightKeys(request, keys, cfg)
    ensures Admit(s, request, keys, now, cfg).Some?
    ensures Inv(Admit(s, request, keys, now, cfg).value, cfg)
  {
    hide Accounted, ColdBalanced, AllShaped, Held, Lookup, HitTable, Flat;
    InvParts(s, cfg);
    HitFacts(s.Cache(), request, keys, now, cfg, Held(s.kv, Hot));
    var hits := AdmissionHits(s.Cache(), request, keys, now, cfg);
    var table := HitTable(hits.found, request.model.layers).value;
    var st := RequestKv(request, s.nextOrder, Hot, table, -1, keys, |hits.found| * cfg.blockTokens);
    HitShaped(st, |hits.found|, cfg);
    NewRequestInv(s, hits.p, st, cfg);
  }

  lemma HitShaped(st: RequestKv, width: nat, cfg: Config)
    requires st.request.Valid() && st.request.tokens.Some? && st.tier.Hot? && RightKeys(st.request, st.keys, cfg)
    requires if width == 0 then st.table == [] else Rectangular(st.table, st.request.model.layers, width)
    ensures Shaped(st, cfg)
  {
  }

  ghost function AdmissionHits(p: Prefix, request: Request, keys: seq<Key>, now: nat, cfg: Config): Hits
    requires cfg.Valid() && request.Valid()
  {
    Lookup(p, keys, (request.promptTokens - 1) / cfg.blockTokens, now, cfg.budget)
  }

  lemma HitLists(p: Prefix, request: Request, keys: seq<Key>, now: nat, cfg: Config, held: multiset<nat>)
    requires cfg.Valid() && request.Valid() && RightKeys(request, keys, cfg)
    requires Accounted(p, cfg.budget, held)
    ensures var hits := AdmissionHits(p, request, keys, now, cfg);
      && Accounted(hits.p, cfg.budget, held + Flat(hits.found))
      && (forall i :: 0 <= i < |hits.found| ==> |hits.found[i]| == request.model.layers)
  {
    hide Accounted, KeysUpTo;
    var budget := cfg.budget;
    var most := (request.promptTokens - 1) / cfg.blockTokens;
    var asked := if most < |keys| then keys[..most] else keys;
    var live := Expire(p, now, budget);
    ExpireAccounted(p, 0, now, budget, held);
    assert held + Flat([]) == held;
    LookupAccounted(live, asked, [], budget, held);
    RequestKeyLayers(request, keys, cfg);
    assert forall k :: 0 <= k < |asked| ==> asked[k] == keys[k];
    HitsFit(live, asked, [], budget, held, request.model.layers);
  }

  /** A lookup hands the caller one reference per cell of the table built from its hits. */
  lemma HitFacts(p: Prefix, request: Request, keys: seq<Key>, now: nat, cfg: Config, held: multiset<nat>)
    requires cfg.Valid() && request.Valid() && RightKeys(request, keys, cfg)
    requires Accounted(p, cfg.budget, held)
    ensures var hits := AdmissionHits(p, request, keys, now, cfg);
      var table := HitTable(hits.found, request.model.layers);
      && table.Some? && Accounted(hits.p, cfg.budget, held + Cells(table.value))
      && (if |hits.found| == 0 then table.value == [] else Rectangular(table.value, request.model.layers, |hits.found|))
      && (forall i :: 0 <= i < |hits.found| ==> |hits.found[i]| == request.model.layers)
  {
    hide Accounted, AdmissionHits;
    HitLists(p, request, keys, now, cfg, held);
    var found := AdmissionHits(p, request, keys, now, cfg).found;
    if found != [] {
      HitCells(found, request.model.layers);
    } else {
      assert Flat(found) == Cells([]);
    }
  }

  lemma RequestKeyLayers(request: Request, keys: seq<Key>, cfg: Config)
    requires KeysOf(request, cfg.blockTokens, keys)
    ensures forall k :: 0 <= k < |keys| ==> KeyModel(keys[k]).layers == request.model.layers
  {
    forall k | 0 <= k < |keys| ensures KeyModel(keys[k]) == request.model {
      KeyAt(request, cfg.blockTokens, |keys|, k);
      ParentMeans(request, cfg.blockTokens, k + 1);
    }
  }

  lemma NewRequestInv(s: State, p: Prefix, st: RequestKv, cfg: Config)
    requires Inv(s, cfg) && st.request.id !in s.kv && st.order == s.nextOrder && st.tier.Hot?
    requires Accounted(p, cfg.budget, Held(s.kv, Hot) + Cells(st.table)) && Shaped(st, cfg)
    ensures Inv(s.WithCache(p).(kv := s.kv[st.request.id := st], nextOrder := s.nextOrder + 1), cfg)
  {
    hide Accounted, ColdBalanced, Shaped, Held;
    var id := st.request.id;
    var next := s.WithCache(p).(kv := s.kv[id := st], nextOrder := s.nextOrder + 1);
    InvParts(s, cfg);
    assert s.kv - {id} == s.kv;
    HeldUpdate(s.kv, id, st, Hot);
    HeldUpdate(s.kv, id, st, Cold);
    assert Held(next.kv, Hot) == Held(s.kv, Hot) + Cells(st.table);
    assert next.Cache() == p;
    SameCold(s, next);
  }

  // -------------------------------------------------------------- completion

  ghost predicate Covered(s: State, slices: seq<Slice>, cfg: Config)
    requires cfg.Valid()
  {
    forall i :: 0 <= i < |slices| ==>
         && slices[i].request in s.kv && s.kv[slices[i].request].tier.Hot? && slices[i].count > 0
         && BlocksFor(slices[i].End(), cfg.blockTokens) <= s.kv[slices[i].request].Width()
  }

  /** Publishing a completed batch touches only the cache. */
  lemma {:induction false} CompleteInv(s: State, slices: seq<Slice>, finish: nat, cfg: Config)
    requires cfg.Valid() && Inv(s, cfg) && Covered(s, slices, cfg)
    ensures CompleteFrom(s, slices, finish, cfg).Some?
    ensures var next := CompleteFrom(s, slices, finish, cfg).value; Inv(next, cfg) && next.kv == s.kv && next.cold == s.cold
    decreases |slices|
  {
    if slices != [] {
      hide Inv, PublishFor;
      BlocksCover(slices[0].End(), cfg.blockTokens);
      PublishForFree(s, slices[0].request, slices[0].End(), finish, false, cfg);
      var next := PublishFor(s, slices[0].request, slices[0].End(), finish, false, cfg).value;
      assert forall i :: 0 <= i < |slices[1..]| ==> slices[1..][i] == slices[i + 1];
      CompleteInv(next, slices[1..], finish, cfg);
    }
  }

  // ------------------------------------------------------ preemption, release

  lemma PreemptInv(s: State, id: nat, cfg: Config)
    requires cfg.Valid() && Inv(s, cfg)
    ensures Preempt(s, id, cfg).Refused? <==> id !in s.kv || s.kv[id].tier.Cold? || s.kv[id].Width() == 0
    ensures Preempt(s, id, cfg).Preempted? ==>
      var next := Preempt(s, id, cfg).state;
      && Inv(next, cfg)
      && (Preempt(s, id, cfg).mode.SwapOut? <==> cfg.hasCold && s.kv[id].Total() <= s.cold.Free())
      && (Preempt(s, id, cfg).mode.Recompute? ==> next.kv[id].table == [])
  {
    if id in s.kv && s.kv[id].tier.Hot? {
      hide ColdBalanced, Accounted, AllocateRows, Migrate;
      TotalPositive(s.kv[id], cfg);
      MigrationFacts(s, id, true, cfg);
      if s.kv[id].Width() > 0 {
        if cfg.hasCold && s.cold.Free() >= s.kv[id].Total() {
          MigrateOne(s, id, true, cfg);
        } else {
          DroppedInv(s, id, cfg);
        }
      }
    }
  }

  lemma TotalPositive(st: RequestKv, cfg: Config)
    requires Shaped(st, cfg)
    ensures st.Total() == 0 <==> st.Width() == 0
  {
    if st.Width() > 0 {
      assert st.Width() * st.request.model.layers >= st.request.model.layers;
    }
  }

  lemma DroppedInv(s: State, id: nat, cfg: Config)
    requires Inv(s, cfg) && id in s.kv && s.kv[id].tier.Hot?
    ensures Inv(s.(hot := s.hot.Release(Cells(s.kv[id].table))).With(id, s.kv[id].(table := [])), cfg)
  {
    hide ColdBalanced, Accounted, Held, AllShaped, PoolBalanced;
    var st := s.kv[id];
    var next := s.(hot := s.hot.Release(Cells(st.table))).With(id, st.(table := []));
    DroppedShaped(s, id, next, cfg);
    InvParts(s, cfg);
    HeldSplit(s.kv, id, Hot);
    HeldSplit(s.kv, id, Cold);
    HeldUpdate(s.kv, id, next.kv[id], Hot);
    HeldUpdate(s.kv, id, next.kv[id], Cold);
    Drops(s.Cache(), cfg.budget, Cells(st.table), Held(s.kv - {id}, Hot));
    assert next.Cache() == s.Cache().(pool := s.hot.Release(Cells(st.table)));
    assert Held(next.kv, Hot) == Held(s.kv - {id}, Hot);
    SameCold(s, next);
  }

  lemma DroppedShaped(s: State, id: nat, next: State, cfg: Config)
    requires AllShaped(s, cfg) && id in s.kv && s.kv[id].tier.Hot?
    requires next.kv == s.kv[id := s.kv[id].(table := [])] && next.nextOrder == s.nextOrder
    ensures AllShaped(next, cfg)
  {
    assert Shaped(s.kv[id], cfg);
  }

  lemma ReleaseInv(s: State, id: nat, cfg: Config)
    requires Inv(s, cfg)
    ensures Release(s, id).Some? <==> id in s.kv
    ensures id in s.kv ==> Inv(Release(s, id).value, cfg) && Release(s, id).value.kv == s.kv - {id}
  {
    if id in s.kv {
      hide ColdBalanced, Accounted, Held, AllShaped, PoolBalanced;
      InvParts(s, cfg);
      MigrationFacts(s, id, s.kv[id].tier.Hot?, cfg);
      HeldSplit(s.kv, id, Hot);
      HeldSplit(s.kv, id, Cold);
      var st := s.kv[id];
      ShapedWithout(s, id, cfg);
      if st.tier.Hot? {
        ReleaseHotInv(s, id, cfg);
      } else {
        var next := s.(cold := s.cold.Release(Cells(st.table)), kv := s.kv - {id});
        ColdDrops(s.cold, Cells(st.table), Held(s.kv - {id}, Cold));
        assert next.Cache() == s.Cache();
        BalancedMeans(next);
      }
    }
  }

  lemma BalancedMeans(s: State)
    requires PoolBalanced(s.cold, Held(s.kv, Cold))
    ensures ColdBalanced(s)
  {
  }

  lemma ShapedWithout(s: State, id: nat, cfg: Config)
    requires AllShaped(s, cfg)
    ensures forall next: State :: next.kv == s.kv - {id} && next.nextOrder == s.nextOrder ==> AllShaped(next, cfg)
  {
  }

  lemma ReleaseHotInv(s: State, id: nat, cfg: Config)
    requires Inv(s, cfg) && id in s.kv && s.kv[id].tier.Hot?
    ensures Release(s, id).Some?
    ensures Inv(Release(s, id).value, cfg) && Release(s, id).value.kv == s.kv - {id}
  {
    hide ColdBalanced, Accounted, Held, AllShaped, PoolBalanced;
    var st := s.kv[id];
    InvParts(s, cfg);
    MigrationFacts(s, id, true, cfg);
    HeldSplit(s.kv, id, Hot);
    HeldSplit(s.kv, id, Cold);
    var freed := s.(hot := s.hot.Release(Cells(st.table)), kv := s.kv - {id});
    Drops(s.Cache(), cfg.budget, Cells(st.table), Held(freed.kv, Hot));
    assert freed.Cache() == s.Cache().(pool := freed.hot);
    ReleaseOrderAccounted(freed.Cache(), st.keys, cfg.budget, Held(freed.kv, Hot));
    var next := freed.WithCache(ReleaseOrder(freed.Cache(), st.keys));
    assert next.Cache() == ReleaseOrder(freed.Cache(), st.keys);
    ShapedWithout(s, id, cfg);
    BalancedMeans(next);
  }

  // --------------------------------------------------------------------- runs

  datatype Op =
    | OpAdmit(request: Request, now: nat)
    | OpReserve(batch: nat, slices: seq<Slice>)
    | OpExecute(slices: seq<Slice>, finish: nat)
    | OpPreempt(id: nat)
    | OpRelease(id: nat)

  /** One call on the plane; None when it raises. */
  ghost function Step(s: State, op: Op, cfg: Config): Option<State>
    requires cfg.Valid()
  {
    match op
    case OpAdmit(request, now) =>
      if request.Valid() then Admit(s, request, KeysFor(request, cfg.blockTokens), now, cfg) else None
    case OpReserve(batch, slices) =>
      if forall i :: 0 <= i < |slices| ==> slices[i].count > 0 then Reserve(s, batch, slices, cfg) else None
    case OpExecute(slices, finish) =>
      if Covered(s, slices, cfg)
      then Complete(s.(migrations := [], pendingBatch := None), slices, finish, cfg)
      else None
    case OpPreempt(id) =>
      (match Preempt(s, id, cfg)
       case Refused => None
       case Preempted(next, _) => Some(next))
    case OpRelease(id) => Release(s, id)
  }

  ghost function Run(s: State, ops: seq<Op>, cfg: Config): Option<State>
    requires cfg.Valid()
    decreases |ops|
  {
    if ops == [] then Some(s)
    else
      match Step(s, ops[0], cfg)
      case None => None
      case Some(next) => Run(next, ops[1..], cfg)
  }

  ghost function Start(hotBlocks: nat, coldBlocks: nat): State
  {
    State(Pool(hotBlocks, multiset{}), Pool(coldBlocks, multiset{}), map[], [], 0, 0, [], None)
  }

  lemma StartInv(hotBlocks: nat, coldBlocks: nat, cfg: Config)
    ensures Inv(Start(hotBlocks, coldBlocks), cfg)
  {
    var s := Start(hotBlocks, coldBlocks);
    assert TablesOf(s.kv, Hot) == map[] && TablesOf(s.kv, Cold) == map[];
  }

  lemma KeysRight(request: Request, cfg: Config)
    requires cfg.Valid() && request.Valid() && request.tokens.Some?
    ensures RightKeys(request, KeysFor(request, cfg.blockTokens), cfg)
  {
    WholeBlocks(request.promptTokens, cfg.blockTokens, 0);
  }

  lemma StepInv(s: State, op: Op, cfg: Config)
    requires cfg.Valid() && Inv(s, cfg) && Step(s, op, cfg).Some?
    ensures Inv(Step(s, op, cfg).value, cfg)
  {
    hide Inv, Admit, Reserve, CompleteFrom, Preempt, Release, Covered;
    match op
    case OpAdmit(request, now) =>
      if request.tokens.Some? {
        KeysRight(request, cfg);
      }
      AdmitInv(s, request, KeysFor(request, cfg.blockTokens), now, cfg);
    case OpReserve(batch, slices) =>
      ReserveInv(s, batch, slices, cfg);
    case OpExecute(slices, finish) =>
      ExecuteInv(s, slices, finish, cfg);
    case OpPreempt(id) =>
      PreemptInv(s, id, cfg);
    case OpRelease(id) =>
      ReleaseInv(s, id, cfg);
  }

  lemma ReserveInv(s: State, batch: nat, slices: seq<Slice>, cfg: Config)
    requires cfg.Valid() && Inv(s, cfg) && Reserve(s, batch, slices, cfg).Some?
    requires forall i :: 0 <= i < |slices| ==> slices[i].count > 0
    ensures Inv(Reserve(s, batch, slices, cfg).value, cfg)
  {
    PlannerSound(s, batch, slices, cfg);
  }

  lemma ExecuteInv(s: State, slices: seq<Slice>, finish: nat, cfg: Config)
    requires cfg.Valid() && Inv(s, cfg) && Covered(s, slices, cfg)
    ensures Complete(s.(migrations := [], pendingBatch := None), slices, finish, cfg).Some?
    ensures Inv(Complete(s.(migrations := [], pendingBatch := None), slices, finish, cfg).value, cfg)
  {
    var done := s.(migrations := [], pendingBatch := None);
    assert done.Cache() == s.Cache();
    assert Inv(done, cfg) && Covered(done, slices, cfg);
    CompleteInv(done, slices, finish, cfg);
  }

  /** Conservation over every run: the count of a hot block is the number of block-table
      cells and prefix entries naming it, a cold block has at most one holder, and the
      cache's bytes are the sum over its entries and stay within the budget. */
  lemma {:induction false} RunConserves(s: State, ops: seq<Op>, cfg: Config)
    requires cfg.Valid() && Inv(s, cfg) && Run(s, ops, cfg).Some?
    ensures var t := Run(s, ops, cfg).value;
      && Inv(t, cfg)
      && (forall b :: t.hot.refs[b] == Held(t.kv, Hot)[b] + EntryCells(t.entries)[b])
      && (forall b :: t.cold.refs[b] == Held(t.kv, Cold)[b] <= 1)
      && t.bytes == EntryBytes(t.entries, cfg.budget.blockBytes) <= cfg.budget.capacityBytes
    decreases |ops|
  {
    if ops != [] {
      hide Inv, Step;
      StepInv(s, ops[0], cfg);
      RunConserves(Step(s, ops[0], cfg).value, ops[1..], cfg);
    }
  }

  /** After all requests are gone the cold pool is fully free, and hot blocks are held
      only by prefix entries. */
  lemma RunDrains(hotBlocks: nat, coldBlocks: nat, ops: seq<Op>, cfg: Config)
    requires cfg.Valid() && Run(Start(hotBlocks, coldBlocks), ops, cfg).Some?
    requires Run(Start(hotBlocks, coldBlocks), ops, cfg).value.kv == map[]
    ensures var t := Run(Start(hotBlocks, coldBlocks), ops, cfg).value;
      && t.cold.refs == multiset{} && t.cold.Free() == t.cold.capacity
      && t.hot.refs == EntryCells(t.entries)
  {
    StartInv(hotBlocks, coldBlocks, cfg);
    RunConserves(Start(hotBlocks, coldBlocks), ops, cfg);
    var t := Run(Start(hotBlocks, coldBlocks), ops, cfg).value;
    assert TablesOf(t.kv, Hot) == map[] && TablesOf(t.kv, Cold) == map[];
    t.cold.Counts();
    assert Distinct(t.cold.refs) == {};
  }

  /** Without a cold tier and with an empty cache, a reservation fits exactly when its
      growth fits the free blocks. */
  lemma PlanWithoutTiers(s: State, slices: seq<Slice>, cfg: Config)
    requires cfg.Valid() && Known(s, slices) && !cfg.hasCold && s.entries == []
    ensures MakePlan(s, slices, cfg).Feasible? <==> Needed(s.kv, slices, cfg.blockTokens) <= s.hot.Free()
  {
  }
}
