/** What every placement operation keeps: each hot block has exactly one reference per
    block-table cell and per prefix entry naming it, each cold block has one holder.
 */
module PlacementInvariant {
  import opened Pools
  import opened PrefixKeys
  import opened PrefixSpec
  import opened Tables
  import opened PlacementSpec

  ghost function TablesOf(kv: map<nat, RequestKv>, tier: Tier): map<nat, Table>
  {
    map id | id in kv && kv[id].tier == tier :: kv[id].table
  }

  /** The cells of all block tables of one tier. */
  ghost function Held(kv: map<nat, RequestKv>, tier: Tier): multiset<nat>
  {
    Sum(TablesOf(kv, tier))
  }

  ghost function Part(st: RequestKv, tier: Tier): multiset<nat>
  {
    if st.tier == tier then Cells(st.table) else multiset{}
  }

  lemma HeldSplit(kv: map<nat, RequestKv>, id: nat, tier: Tier)
    requires id in kv
    ensures Held(kv, tier) == Part(kv[id], tier) + Held(kv - {id}, tier)
  {
    var tables := TablesOf(kv, tier);
    assert TablesOf(kv - {id}, tier) == tables - {id};
    if kv[id].tier == tier {
      SumRemove(tables, id);
    } else {
      assert tables - {id} == tables;
    }
  }

  lemma HeldUpdate(kv: map<nat, RequestKv>, id: nat, st: RequestKv, tier: Tier)
    ensures Held(kv[id := st], tier) == Part(st, tier) + Held(kv - {id}, tier)
  {
    HeldSplit(kv[id := st], id, tier);
    assert kv[id := st] - {id} == kv - {id};
  }

  ghost predicate Shaped(st: RequestKv, cfg: Config)
  {
    && st.request.Valid()
    && (st.table == [] || (Rectangular(st.table, st.request.model.layers, st.Width()) && st.Width() > 0))
    && (st.tier.Cold? ==> st.table != [] && cfg.hasCold)
    && (st.keys == [] || (KeysOf(st.request, cfg.blockTokens, st.keys)
                          && Span(|st.keys|, cfg.blockTokens) <= st.request.promptTokens))
  }

  ghost predicate AllShaped(s: State, cfg: Config)
  {
    && (forall id :: id in s.kv ==> s.kv[id].request.id == id && Shaped(s.kv[id], cfg) && s.kv[id].order < s.nextOrder)
    && DistinctOrders(s.kv)
  }

  ghost predicate ColdBalanced(s: State)
  {
    && s.cold.Valid()
    && s.cold.refs == Held(s.kv, Cold)
    && forall b :: s.cold.refs[b] <= 1
  }

  ghost predicate Inv(s: State, cfg: Config)
  {
    && Accounted(s.Cache(), cfg.budget, Held(s.kv, Hot))
    && ColdBalanced(s)
    && AllShaped(s, cfg)
  }

  lemma TotalMeans(st: RequestKv, cfg: Config)
    requires Shaped(st, cfg)
    ensures Times(st.Width(), |st.table|) == st.Total()
    ensures |Cells(st.table)| == st.Total()
  {
    if st.table != [] {
      CellsSize(st.table, st.request.model.layers, st.Width());
    }
  }

  lemma KeyLayers(st: RequestKv, cfg: Config)
    requires Shaped(st, cfg)
    ensures forall k :: 0 <= k < |st.keys| ==> KeyModel(st.keys[k]) == st.request.model
  {
    forall k | 0 <= k < |st.keys| ensures KeyModel(st.keys[k]) == st.request.model {
      KeyAt(st.request, cfg.blockTokens, |st.keys|, k);
      ParentMeans(st.request, cfg.blockTokens, k + 1);
    }
  }

  // ---------------------------------------------------------- cache operations

  /** The cache may change freely as long as its own accounts stay right. */
  lemma CacheInv(s: State, p: Prefix, cfg: Config)
    requires Inv(s, cfg) && Accounted(p, cfg.budget, Held(s.kv, Hot))
    ensures Inv(s.WithCache(p), cfg)
  {
    assert s.WithCache(p).Cache() == p;
  }

  lemma CellHeld(kv: map<nat, RequestKv>, id: nat, l: nat, o: nat)
    requires id in kv && l < |kv[id].table| && o < |kv[id].table[l]|
    ensures kv[id].table[l][o] in Held(kv, kv[id].tier)
  {
    HeldSplit(kv, id, kv[id].tier);
    CellIn(kv[id].table, l, o);
  }

  lemma CellsHeld(s: State, id: nat, complete: nat)
    requires id in s.kv && s.kv[id].tier.Hot?
    requires forall l :: 0 <= l < |s.kv[id].table| ==> complete <= |s.kv[id].table[l]|
    ensures forall l, o :: 0 <= l < |s.kv[id].table| && 0 <= o < complete ==> s.kv[id].table[l][o] in Held(s.kv, Hot)
  {
    hide Held;
    forall l, o | 0 <= l < |s.kv[id].table| && 0 <= o < complete ensures s.kv[id].table[l][o] in Held(s.kv, Hot) {
      CellHeld(s.kv, id, l, o);
    }
  }

  lemma FitsModel(s: State, id: nat, cfg: Config)
    requires Inv(s, cfg) && id in s.kv && s.kv[id].table != []
    ensures forall k :: 0 <= k < |s.kv[id].keys| ==> KeyModel(s.kv[id].keys[k]).layers == |s.kv[id].table|
  {
    KeyLayers(s.kv[id], cfg);
  }

  /** Publishing the complete blocks of a hot request's table keeps the cache's accounts, and
      only ever frees blocks of others. */
  lemma PublishTable(s: State, id: nat, complete: nat, now: nat, pending: bool, cfg: Config)
    requires Inv(s, cfg) && id in s.kv && s.kv[id].tier.Hot? && s.kv[id].table != []
    requires forall l :: 0 <= l < |s.kv[id].table| ==> complete <= |s.kv[id].table[l]|
    ensures var p := Publish(s.Cache(), s.kv[id].keys, s.kv[id].table, complete, now, pending, cfg.budget);
      Accounted(p, cfg.budget, Held(s.kv, Hot)) && Shrinks(s.hot, p.pool)
  {
    hide Accounted, ColdBalanced, Held, AllShaped, PublishFrom, ExpireFrom;
    var st := s.kv[id];
    InvParts(s, cfg);
    ExpireAccounted(s.Cache(), 0, now, cfg.budget, Held(s.kv, Hot));
    FitsModel(s, id, cfg);
    CellsHeld(s, id, complete);
    PublishAccounted(Expire(s.Cache(), now, cfg.budget), st.keys, st.table, 0, complete, now, pending, cfg.budget, Held(s.kv, Hot));
  }

  lemma PublishForInv(s: State, id: nat, end: nat, now: nat, pending: bool, cfg: Config)
    requires cfg.Valid() && Inv(s, cfg) && id in s.kv && s.kv[id].tier.Hot?
    requires PublishFor(s, id, end, now, pending, cfg).Some?
    requires s.kv[id].table != []
    ensures Inv(PublishFor(s, id, end, now, pending, cfg).value, cfg)
  {
    hide Accounted, ColdBalanced, Held, Publish, Inv;
    var st := s.kv[id];
    var complete := Min(end, st.request.promptTokens) / cfg.blockTokens;
    PublishTable(s, id, complete, now, pending, cfg);
    CacheInv(s, Publish(s.Cache(), st.keys, st.table, complete, now, pending, cfg.budget), cfg);
  }

  // ------------------------------------------------------------------ migration

  ghost function Target(s: State, toCold: bool): Pool
  {
    if toCold then s.cold else s.hot
  }

  ghost function Moved(s: State, id: nat, toCold: bool, rows: Rows): State
    requires id in s.kv && rows.Rows?
  {
    var st := s.kv[id];
    s.(hot := if toCold then s.hot.Release(Cells(st.table)) else rows.pool,
       cold := if toCold then rows.pool else s.cold.Release(Cells(st.table)),
       kv := s.kv[id := st.(table := rows.table, tier := if toCold then Cold else Hot)],
       migrations := s.migrations + [Migration(toCold, id, st.table, rows.table)])
  }

  /** A migration succeeds exactly when the whole request fits the other pool. */
  lemma MigrateExact(s: State, id: nat, toCold: bool, cfg: Config) returns (rows: Rows)
    requires Inv(s, cfg) && id in s.kv && s.kv[id].tier.Cold? != toCold
    ensures rows == AllocateRows(Target(s, toCold), |s.kv[id].table|, s.kv[id].Width())
    ensures Migrate(s, id, toCold).Some? <==> s.kv[id].Total() <= Target(s, toCold).Free()
    ensures Migrate(s, id, toCold).Some? ==> rows.Rows? && Migrate(s, id, toCold).value == Moved(s, id, toCold, rows)
  {
    hide Accounted, ColdBalanced, Inv, AllocateRows, Shaped;
    var st := s.kv[id];
    MigrationFacts(s, id, toCold, cfg);
    TotalMeans(st, cfg);
    AllocateRowsExact(Target(s, toCold), |st.table|, st.Width());
    rows := AllocateRows(Target(s, toCold), |st.table|, st.Width());
  }

  lemma MigrationFacts(s: State, id: nat, toCold: bool, cfg: Config)
    requires Inv(s, cfg) && id in s.kv && s.kv[id].tier.Cold? != toCold
    ensures Shaped(s.kv[id], cfg) && Target(s, toCold).Valid()
    ensures Cells(s.kv[id].table) <= (if toCold then s.hot else s.cold).refs
  {
    HeldSplit(s.kv, id, s.kv[id].tier);
  }

  /** Both pools stay balanced when a request moves between them. */
  lemma MigrateInv(s: State, id: nat, toCold: bool, cfg: Config)
    requires Inv(s, cfg) && id in s.kv && s.kv[id].tier.Cold? != toCold
    requires Migrate(s, id, toCold).Some?
    requires toCold ==> cfg.hasCold && s.kv[id].Width() > 0
    ensures Inv(Migrate(s, id, toCold).value, cfg)
  {
    hide Accounted, ColdBalanced, AllocateRows, Migrate, Sum;
    var rows := MigrateExact(s, id, toCold, cfg);
    var next := Moved(s, id, toCold, rows);
    MovedBalanced(s, id, toCold, rows, cfg);
    MovedShaped(s, id, toCold, rows, cfg);
  }

  lemma MovedShaped(s: State, id: nat, toCold: bool, rows: Rows, cfg: Config)
    requires AllShaped(s, cfg) && id in s.kv && rows.Rows?
    requires Rectangular(rows.table, |s.kv[id].table|, s.kv[id].Width())
    requires toCold ==> cfg.hasCold && s.kv[id].Width() > 0
    ensures AllShaped(Moved(s, id, toCold, rows), cfg)
  {
    var next := Moved(s, id, toCold, rows);
    assert next.kv[id].Width() == s.kv[id].Width();
  }

  lemma MovedBalanced(s: State, id: nat, toCold: bool, rows: Rows, cfg: Config)
    requires Inv(s, cfg) && id in s.kv && s.kv[id].tier.Cold? != toCold
    requires rows == AllocateRows(Target(s, toCold), |s.kv[id].table|, s.kv[id].Width()) && rows.Rows?
    ensures Rectangular(rows.table, |s.kv[id].table|, s.kv[id].Width())
    ensures var next := Moved(s, id, toCold, rows);
            ColdBalanced(next) && Accounted(next.Cache(), cfg.budget, Held(next.kv, Hot))
  {
    hide Inv, ColdBalanced, Accounted, AllocateRows, Held, Moved, PoolBalanced;
    var st := s.kv[id];
    InvParts(s, cfg);
    AllocateRowsExact(Target(s, toCold), |st.table|, st.Width());
    HeldMoved(s, id, toCold, rows);
    MovedParts(s, id, toCold, rows);
    var hotRest, coldRest := Held(s.kv - {id}, Hot), Held(s.kv - {id}, Cold);
    if toCold {
      Drops(s.Cache(), cfg.budget, Cells(st.table), hotRest);
      ColdTakes(s.cold, coldRest, rows);
    } else {
      Takes(s.Cache(), cfg.budget, hotRest, rows);
      ColdDrops(s.cold, Cells(st.table), coldRest);
    }
  }

  lemma HeldMoved(s: State, id: nat, toCold: bool, rows: Rows)
    requires id in s.kv && s.kv[id].tier.Cold? != toCold && rows.Rows?
    ensures var next := Moved(s, id, toCold, rows);
      var hotRest, coldRest := Held(s.kv - {id}, Hot), Held(s.kv - {id}, Cold);
      if toCold then
        && Held(s.kv, Hot) == Cells(s.kv[id].table) + hotRest && Held(s.kv, Cold) == coldRest
        && Held(next.kv, Hot) == hotRest && Held(next.kv, Cold) == Cells(rows.table) + coldRest
      else
        && Held(s.kv, Hot) == hotRest && Held(s.kv, Cold) == Cells(s.kv[id].table) + coldRest
        && Held(next.kv, Hot) == Cells(rows.table) + hotRest && Held(next.kv, Cold) == coldRest
  {
    hide Held;
    var moved := Moved(s, id, toCold, rows).kv[id];
    HeldSplit(s.kv, id, Hot);
    HeldSplit(s.kv, id, Cold);
    HeldUpdate(s.kv, id, moved, Hot);
    HeldUpdate(s.kv, id, moved, Cold);
  }

  lemma MovedParts(s: State, id: nat, toCold: bool, rows: Rows)
    requires id in s.kv && rows.Rows?
    ensures Moved(s, id, toCold, rows).Cache() ==
            s.Cache().(pool := if toCold then s.hot.Release(Cells(s.kv[id].table)) else rows.pool)
    ensures var next := Moved(s, id, toCold, rows);
            && (ColdBalanced(next) <==> PoolBalanced(next.cold, Held(next.kv, Cold)))
            && next.cold == (if toCold then rows.pool else s.cold.Release(Cells(s.kv[id].table)))
  {
  }

  lemma InvParts(s: State, cfg: Config)
    requires Inv(s, cfg)
    ensures Accounted(s.Cache(), cfg.budget, Held(s.kv, Hot)) && PoolBalanced(s.cold, Held(s.kv, Cold))
    ensures s.hot.Valid() && s.cold.Valid()
  {
  }

  /** A pool whose every reference is one holder's, with no sharing. */
  ghost predicate PoolBalanced(pool: Pool, held: multiset<nat>)
  {
    pool.Valid() && pool.refs == held && forall b :: pool.refs[b] <= 1
  }

  lemma Drops(p: Prefix, budget: Budget, part: multiset<nat>, rest: multiset<nat>)
    requires Accounted(p, budget, part + rest)
    ensures Accounted(p.(pool := p.pool.Release(part)), budget, rest)
  {
  }

  lemma Takes(p: Prefix, budget: Budget, rest: multiset<nat>, rows: Rows)
    requires Accounted(p, budget, rest) && rows.Rows? && rows.pool.Valid()
    requires rows.pool.refs == p.pool.refs + Cells(rows.table)
    ensures Accounted(p.(pool := rows.pool), budget, Cells(rows.table) + rest)
  {
  }

  lemma ColdDrops(pool: Pool, part: multiset<nat>, rest: multiset<nat>)
    requires PoolBalanced(pool, part + rest)
    ensures PoolBalanced(pool.Release(part), rest)
  {
  }

  lemma ColdTakes(pool: Pool, rest: multiset<nat>, rows: Rows)
    requires PoolBalanced(pool, rest) && rows.Rows? && rows.pool.Valid()
    requires rows.pool.refs == pool.refs + Cells(rows.table)
    requires forall b :: b in Cells(rows.table) ==> b !in pool.refs && rows.pool.refs[b] == 1
    ensures PoolBalanced(rows.pool, Cells(rows.table) + rest)
  {
  }

  // ------------------------------------------------------------------ growth

  lemma {:induction false} EmptyCells(layers: nat)
    ensures Cells(Empty(layers)) == multiset{}
  {
    if layers > 0 {
      assert Empty(layers)[1..] == Empty(layers - 1);
      EmptyCells(layers - 1);
    }
  }

  /** Growth succeeds exactly when all layers' new blocks fit, and adds only fresh blocks. */
  lemma GrowExact(s: State, id: nat, grow: nat, cfg: Config) returns (rows: Rows)
    requires Inv(s, cfg) && id in s.kv && grow > 0
    ensures rows == AllocateRows(s.hot, s.kv[id].request.model.layers, grow)
    ensures GrowTable(s, id, grow).Some? <==> Times(grow, s.kv[id].request.model.layers) <= s.hot.Free()
    ensures GrowTable(s, id, grow).Some? ==>
      && rows.Rows? && Rectangular(rows.table, s.kv[id].request.model.layers, grow)
      && GrowTable(s, id, grow).value == Grown(s, id, rows.table, rows.pool)
  {
    hide Accounted, ColdBalanced, AllocateRows;
    var st := s.kv[id];
    InvParts(s, cfg);
    rows := AllocateRows(s.hot, st.request.model.layers, grow);
    AllocateRowsExact(s.hot, st.request.model.layers, grow);
  }

  ghost function BaseTable(st: RequestKv): (table: Table)
  {
    if st.table == [] then Empty(st.request.model.layers) else st.table
  }

  ghost function Grown(s: State, id: nat, more: Table, pool: Pool): State
    requires id in s.kv && |more| == |BaseTable(s.kv[id])|
  {
    s.(hot := pool).With(id, s.kv[id].(table := Appended(BaseTable(s.kv[id]), more)))
  }

  lemma GrowInv(s: State, id: nat, grow: nat, cfg: Config)
    requires Inv(s, cfg) && id in s.kv && s.kv[id].tier.Hot?
    requires GrowTable(s, id, grow).Some?
    ensures Inv(GrowTable(s, id, grow).value, cfg)
    ensures GrowTable(s, id, grow).value.kv[id].Width() == s.kv[id].Width() + grow
  {
    hide Accounted, ColdBalanced, AllocateRows, GrowTable, Sum;
    if grow == 0 {
      NoGrowth(s, id);
    } else {
      var rows := GrowExact(s, id, grow, cfg);
      var next := Grown(s, id, rows.table, rows.pool);
      InvParts(s, cfg);
      GrownBalanced(s, id, rows, grow, cfg);
      GrownShaped(s, id, rows.table, rows.pool, grow, cfg);
    }
  }

  lemma NoGrowth(s: State, id: nat)
    requires id in s.kv
    ensures GrowTable(s, id, 0) == Some(s)
  {
  }

  lemma GrownShaped(s: State, id: nat, more: Table, pool: Pool, grow: nat, cfg: Config)
    requires AllShaped(s, cfg) && id in s.kv && grow > 0 && s.kv[id].tier.Hot?
    requires Rectangular(more, s.kv[id].request.model.layers, grow)
    ensures AllShaped(Grown(s, id, more, pool), cfg)
    ensures Grown(s, id, more, pool).kv[id].Width() == s.kv[id].Width() + grow
  {
    var st := s.kv[id];
    assert Shaped(st, cfg);
    var table := Appended(BaseTable(st), more);
    assert |table| > 0 && |table[0]| == st.Width() + grow;
    assert Rectangular(table, st.request.model.layers, st.Width() + grow);
  }

  lemma GrownBalanced(s: State, id: nat, rows: Rows, grow: nat, cfg: Config)
    requires Inv(s, cfg) && id in s.kv && s.kv[id].tier.Hot? && rows.Rows?
    requires rows == AllocateRows(s.hot, s.kv[id].request.model.layers, grow)
    requires Rectangular(rows.table, s.kv[id].request.model.layers, grow)
    ensures var next := Grown(s, id, rows.table, rows.pool);
            ColdBalanced(next) && Accounted(next.Cache(), cfg.budget, Held(next.kv, Hot))
  {
    hide ColdBalanced, Accounted, AllocateRows, Sum;
    var st := s.kv[id];
    var more := rows.table;
    var next := Grown(s, id, more, rows.pool);
    InvParts(s, cfg);
    AllocateRowsExact(s.hot, st.request.model.layers, grow);
    EmptyCells(st.request.model.layers);
    CellsZip(BaseTable(st), more, next.kv[id].table);
    HeldSplit(s.kv, id, Hot);
    HeldSplit(s.kv, id, Cold);
    HeldUpdate(s.kv, id, next.kv[id], Hot);
    HeldUpdate(s.kv, id, next.kv[id], Cold);
    Takes(s.Cache(), cfg.budget, Held(s.kv, Hot), rows);
    assert next.Cache() == s.Cache().(pool := rows.pool);
    assert Held(next.kv, Hot) == Cells(more) + Held(s.kv, Hot);
    SameCold(s, next);
  }

  lemma SameCold(s: State, next: State)
    requires PoolBalanced(s.cold, Held(s.kv, Cold))
    requires next.cold == s.cold && Held(next.kv, Cold) == Held(s.kv, Cold)
    ensures ColdBalanced(next)
  {
  }
}
