/** The plane without a cold tier and without a prefix cache: a preempted request holds no
    blocks at all, so a request that runs alone has the whole pool to itself.
 */
module LeanPlane {
  import opened Pools
  import opened Modular
  import opened PrefixKeys
  import opened PrefixSpec
  import opened Tables
  import opened PlacementSpec
  import opened PlacementInvariant
  import opened PlannerSoundness
  import opened PlacementRuns
  import opened WorldFacts

  ghost predicate Lean(cfg: Config)
  {
    cfg.Valid() && !cfg.hasCold && !cfg.Caching()
  }

  /** Only the busy requests hold blocks. */
  ghost predicate Tidy(s: State, busy: set<nat>)
  {
    s.entries == [] && forall id :: id in s.kv && id !in busy ==> s.kv[id].table == []
  }

  lemma AllHere(s: State, cfg: Config)
    requires Inv(s, cfg) && Lean(cfg)
    ensures forall id :: id in s.kv ==> s.kv[id].tier.Hot?
  {
    hide Accounted, ColdBalanced;
    forall id | id in s.kv ensures s.kv[id].tier.Hot? {
      assert Shaped(s.kv[id], cfg);
    }
  }

  lemma AdmitTidy(s: State, request: Request, keys: seq<Key>, now: nat, busy: set<nat>, cfg: Config)
    requires Lean(cfg) && request.Valid() && Tidy(s, busy) && Admit(s, request, keys, now, cfg).Some?
    ensures Tidy(Admit(s, request, keys, now, cfg).value, busy)
    ensures Admit(s, request, keys, now, cfg).value.hot == s.hot
  {
  }

  lemma ReleaseTidy(s: State, id: nat, busy: set<nat>)
    requires Tidy(s, busy) && Release(s, id).Some?
    ensures Tidy(Release(s, id).value, busy)
    ensures Release(s, id).value.hot.capacity == s.hot.capacity
  {
    if s.kv[id].tier.Hot? {
      var freed := s.(hot := s.hot.Release(Cells(s.kv[id].table)), kv := s.kv - {id});
      OrderNothing(freed.Cache(), s.kv[id].keys);
    }
  }

  lemma {:induction false} OrderNothing(p: Prefix, keys: seq<Key>)
    requires p.entries == []
    ensures ReleaseOrder(p, keys) == p
    decreases |keys|
  {
    if keys != [] {
      OrderNothing(p, keys[..|keys| - 1]);
    }
  }

  // -------------------------------------------------------------- reservation

  lemma {:induction false} AllocateCapacity(pool: Pool, layers: nat, width: nat)
    ensures AllocateRows(pool, layers, width).Rows? ==> AllocateRows(pool, layers, width).pool.capacity == pool.capacity
    decreases layers
  {
    if layers > 0 && width <= pool.Free() {
      AllocateCapacity(pool.Take(width), layers - 1, width);
    }
  }

  lemma GrowCapacity(s: State, batch: nat, slice: Slice, cfg: Config)
    requires Lean(cfg) && ReserveOne(s, batch, slice, cfg).Some?
    ensures ReserveOne(s, batch, slice, cfg).value.hot.capacity == s.hot.capacity
  {
    hide AllocateRows;
    var st := s.kv[slice.request];
    var table := if st.table == [] then Empty(st.request.model.layers) else st.table;
    AllocateCapacity(s.hot, |table|, Grow(st, slice.End(), cfg.blockTokens));
  }

  lemma {:induction false} ReserveCapacity(s: State, batch: nat, slices: seq<Slice>, cfg: Config)
    requires Lean(cfg) && ReserveAll(s, batch, slices, cfg).Some?
    ensures ReserveAll(s, batch, slices, cfg).value.hot.capacity == s.hot.capacity
    decreases |slices|
  {
    hide ReserveOne;
    if slices != [] {
      GrowCapacity(s, batch, slices[0], cfg);
      ReserveCapacity(ReserveOne(s, batch, slices[0], cfg).value, batch, slices[1..], cfg);
    }
  }

  lemma {:induction false} NoSwapIns(kv: map<nat, RequestKv>, slices: seq<Slice>)
    requires forall i :: 0 <= i < |slices| ==> slices[i].request in kv && kv[slices[i].request].tier.Hot?
    ensures SwapIns(kv, slices) == []
  {
    if slices != [] {
      NoSwapIns(kv, slices[1..]);
    }
  }

  /** Without tiers a plan evicts nothing and moves nothing. */
  lemma LeanPlan(s: State, slices: seq<Slice>, cfg: Config)
    requires Lean(cfg) && Inv(s, cfg) && s.entries == [] && MakePlan(s, slices, cfg).Feasible?
    ensures var plan := MakePlan(s, slices, cfg); plan.evictions == [] && plan.victims == [] && plan.swapIn == []
  {
    hide Inv, Needed;
    AllHere(s, cfg);
    NoSwapIns(s.kv, slices);
  }

  lemma ReserveTidy(s: State, batch: nat, slices: seq<Slice>, busy: set<nat>, cfg: Config)
    requires Lean(cfg) && Inv(s, cfg) && Tidy(s, busy) && Reserve(s, batch, slices, cfg).Some?
    ensures Tidy(Reserve(s, batch, slices, cfg).value, busy + InBatch(slices))
    ensures Reserve(s, batch, slices, cfg).value.hot.capacity == s.hot.capacity
  {
    hide Inv, MakePlan, ReserveAll;
    LeanPlan(s, slices, cfg);
    ReserveAllSame(s, batch, slices, cfg);
    ReserveCapacity(s, batch, slices, cfg);
  }

  // ------------------------------------------------------------------ fitting

  /** The growth of the slices fits the free blocks. */
  ghost predicate Fits(s: State, slices: seq<Slice>, cfg: Config)
  {
    cfg.Valid() && Known(s, slices) && Needed(s.kv, slices, cfg.blockTokens) <= s.hot.Free()
  }

  lemma FitsMeans(s: State, batch: nat, slices: seq<Slice>, cfg: Config)
    requires Lean(cfg) && Inv(s, cfg) && s.entries == []
    requires forall i :: 0 <= i < |slices| ==> slices[i].count > 0
    requires s.pendingBatch.None? || s.pendingBatch.value == batch
    ensures Reserve(s, batch, slices, cfg).Some? <==> Fits(s, slices, cfg)
  {
    hide Inv, Reserve, Needed;
    PlannerSound(s, batch, slices, cfg);
    if Known(s, slices) {
      PlanWithoutTiers(s, slices, cfg);
    }
  }

  /** Preempting drops every block of the request. */
  lemma PreemptTidy(s: State, id: nat, busy: set<nat>, cfg: Config)
    requires Lean(cfg) && Inv(s, cfg) && Tidy(s, busy) && Preempt(s, id, cfg).Preempted?
    ensures Preempt(s, id, cfg).mode.Recompute?
    ensures var next := Preempt(s, id, cfg).state;
      && Tidy(next, busy - {id}) && next.hot.capacity == s.hot.capacity && next.hot.Free() >= s.hot.Free()
      && next.kv.Keys == s.kv.Keys && (forall j :: j in s.kv && j != id ==> next.kv[j] == s.kv[j])
  {
    hide Accounted, ColdBalanced, AllShaped;
    var next := Preempt(s, id, cfg).state;
    InvParts(s, cfg);
    ShrinksFree(s.hot, next.hot);
  }

  /** A request whose lifetime fits the whole pool. */
  ghost predicate FitsAlone(request: Request, capacity: nat, blockTokens: nat)
  {
    blockTokens > 0 && request.Valid() && Times(BlocksFor(request.Lifetime(), blockTokens), request.model.layers) <= capacity
  }

  /** The only request with blocks can always grow to any end within its lifetime. */
  lemma SoloFits(s: State, slice: Slice, cfg: Config)
    requires Lean(cfg) && Inv(s, cfg) && Tidy(s, {slice.request}) && slice.request in s.kv
    requires s.kv[slice.request].request.Valid() && slice.End() <= s.kv[slice.request].request.Lifetime()
    requires FitsAlone(s.kv[slice.request].request, s.hot.capacity, cfg.blockTokens)
    ensures Fits(s, [slice], cfg)
  {
    hide Accounted, ColdBalanced, Inv;
    var id := slice.request;
    var st := s.kv[id];
    AllHere(s, cfg);
    SoloUses(s, id, cfg);
    var one := [slice];
    assert one[1..] == [];
    var grow := Grow(st, slice.End(), cfg.blockTokens);
    BlocksGrow(slice.End(), st.request.Lifetime(), cfg.blockTokens);
    TimesSum(st.Width(), grow, BlocksFor(st.request.Lifetime(), cfg.blockTokens), st.request.model.layers);
    assert Needed(s.kv, one[1..], cfg.blockTokens) == 0;
    assert Needed(s.kv, one, cfg.blockTokens) == Times(grow, st.request.model.layers);
  }

  lemma BlocksGrow(a: nat, b: nat, blockTokens: nat)
    requires blockTokens > 0 && a <= b
    ensures BlocksFor(a, blockTokens) <= BlocksFor(b, blockTokens)
  {
    DivisionGrows(a + blockTokens - 1, b + blockTokens - 1, blockTokens);
  }

  lemma TimesSum(width: nat, grow: nat, most: nat, layers: nat)
    ensures Times(width, layers) + Times(grow, layers) == Times(width + grow, layers)
    ensures width + grow <= most ==> Times(width + grow, layers) <= Times(most, layers)
    ensures Times(0, layers) == 0
  {
    MultiplesOrdered(width + grow, most, layers);
  }

  lemma SoloUses(s: State, id: nat, cfg: Config)
    requires Lean(cfg) && Inv(s, cfg) && Tidy(s, {id}) && id in s.kv
    ensures s.hot.Free() >= s.hot.capacity - s.kv[id].Total()
  {
    hide ColdBalanced;
    var st := s.kv[id];
    InvParts(s, cfg);
    AllHere(s, cfg);
    assert Shaped(st, cfg);
    TotalMeans(st, cfg);
    HeldSplit(s.kv, id, Hot);
    OthersEmpty(s.kv - {id});
    assert s.hot.refs == Cells(st.table);
    s.hot.Counts();
    DistinctFew(s.hot.refs);
  }

  lemma {:induction false} OthersEmpty(kv: map<nat, RequestKv>)
    requires forall j :: j in kv ==> kv[j].table == []
    ensures Held(kv, Hot) == multiset{}
    decreases |kv|
  {
    if kv == map[] {
      assert TablesOf(kv, Hot) == map[];
    } else {
      var j :| j in kv;
      HeldSplit(kv, j, Hot);
      OthersEmpty(kv - {j});
    }
  }

  lemma {:induction false} DistinctFew(refs: multiset<nat>)
    ensures |Distinct(refs)| <= |refs|
    decreases |refs|
  {
    if refs == multiset{} {
      assert Distinct(refs) == {};
    } else {
      var b :| b in refs;
      var rest := refs - multiset{b};
      DistinctFew(rest);
      assert Distinct(refs) == Distinct(rest) + {b};
    }
  }
}
