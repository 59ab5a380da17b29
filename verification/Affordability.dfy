/** What a batch could have if everybody else left the hot pool, and what becomes of that when
    somebody does leave.
 */
module Affordability {
  import opened Pools
  import opened PrefixSpec
  import opened Tables
  import opened PlacementSpec
  import opened PlacementInvariant
  import opened PlannerSoundness

  /** The references of all cache entries that nobody else holds on to. */
  ghost function Loose(entries: seq<Entry>, refs: multiset<nat>): multiset<nat>
  {
    if entries == [] then multiset{}
    else (if Pinned(entries[0], refs) then multiset{} else multiset(entries[0].blocks)) + Loose(entries[1..], refs)
  }

  ghost predicate Pinned(entry: Entry, refs: multiset<nat>)
  {
    exists b :: b in entry.blocks && refs[b] > 1
  }

  /** What the requests outside the batch hold of the hot pool. */
  ghost function Elsewhere(s: State, inBatch: set<nat>): multiset<nat>
  {
    Held(Restrict(s.kv, Candidates(s.kv, inBatch)), Hot)
  }

  /** The blocks that stay used when every loose entry and every request outside the batch goes. */
  ghost function Stuck(s: State, inBatch: set<nat>): (stuck: set<nat>)
    ensures forall b :: b in stuck <==> b in s.hot.refs && s.hot.refs[b] > Loose(s.entries, s.hot.refs)[b] + Elsewhere(s, inBatch)[b]
  {
    set b | b in s.hot.refs && s.hot.refs[b] > Loose(s.entries, s.hot.refs)[b] + Elsewhere(s, inBatch)[b]
  }

  /** The batch fits beside the blocks that are stuck. */
  ghost predicate Affordable(s: State, slices: seq<Slice>, cfg: Config)
  {
    cfg.Valid() && Known(s, slices) && Needed(s.kv, slices, cfg.blockTokens) + |Stuck(s, InBatch(slices))| <= s.hot.capacity
  }

  // ------------------------------------------------------------------ plans

  lemma {:induction false} ReclaimedReleases(blocks: seq<nat>, refs: multiset<nat>, releases: multiset<nat>)
    ensures Reclaimed(blocks, refs, releases).releases == releases + multiset(blocks)
    decreases |blocks|
  {
    if blocks != [] {
      ReclaimedReleases(blocks[1..], refs, releases + multiset{blocks[0]});
      assert blocks == [blocks[0]] + blocks[1..];
    }
  }

  /** The planned evictions are loose entries, and all of them when they do not suffice. */
  lemma {:induction false} EvictionsLoose(entries: seq<Entry>, refs: multiset<nat>, acc: Evictions)
    ensures var e := PlanEvictions(entries, refs, acc);
      && e.releases <= acc.releases + Loose(entries, refs)
      && (e.deficit > 0 ==> e.releases == acc.releases + Loose(entries, refs))
    decreases |entries|
  {
    if entries != [] && acc.deficit > 0 {
      var rest := entries[1..];
      if Pinned(entries[0], refs) {
        EvictionsLoose(rest, refs, acc);
      } else {
        var r := Reclaimed(entries[0].blocks, refs, acc.releases);
        ReclaimedReleases(entries[0].blocks, refs, acc.releases);
        var next := Evictions(acc.keys + [entries[0].key], r.releases, acc.deficit - r.count);
        assert PlanEvictions(entries, refs, acc) == PlanEvictions(rest, refs, next);
        hide Reclaimed, Pinned;
        EvictionsLoose(rest, refs, next);
        SumsAgree(acc.releases, multiset(entries[0].blocks), Loose(rest, refs));
      }
    }
  }

  lemma SumsAgree(a: multiset<nat>, b: multiset<nat>, c: multiset<nat>)
    ensures (a + b) + c == a + (b + c)
  {
  }

  lemma {:induction false} ChosenHeld(kv: map<nat, RequestKv>, ids: seq<nat>, among: set<nat>)
    requires Chosen(kv, ids, among) && forall id :: id in among && id in kv ==> kv[id].tier.Hot?
    ensures forall k :: 0 <= k < |ids| ==> ids[k] in kv
    ensures CellsOf(kv, ids) <= Held(Restrict(kv, among), Hot)
    decreases |ids|
  {
    if ids != [] {
      var id, rest := ids[0], ids[1..];
      assert forall k :: 0 <= k < |rest| ==> rest[k] == ids[k + 1] && rest[k] != id;
      RestrictStep(kv, among, id);
      ChosenHeld(kv, rest, among - {id});
    }
  }

  /** What the planned releases leave used includes everything that is stuck. */
  lemma StuckStays(s: State, inBatch: set<nat>, releases: multiset<nat>)
    requires s.hot.Valid() && releases <= s.hot.refs
    requires releases <= Loose(s.entries, s.hot.refs) + Elsewhere(s, inBatch)
    ensures |Stuck(s, inBatch)| + |Freed(s.hot.refs, releases)| <= s.hot.capacity - s.hot.Free()
  {
    hide Loose, Elsewhere;
    var stuck, freed := Stuck(s, inBatch), Freed(s.hot.refs, releases);
    s.hot.Counts();
    assert stuck !! freed;
    assert stuck + freed <= Distinct(s.hot.refs);
    SubsetSize(stuck + freed, Distinct(s.hot.refs));
  }

  /** A feasible plan does not need more than everybody else's leaving would give. */
  lemma FeasibleAffords(s: State, slices: seq<Slice>, cfg: Config)
    requires cfg.Valid() && Inv(s, cfg) && MakePlan(s, slices, cfg).Feasible?
    ensures Affordable(s, slices, cfg)
  {
    hide Inv, Accounted, Present, KeyCells, Held, PlanEvictions, PlanVictims, Freed, Picked, Chosen, Loose, Stuck, Needed;
    var needed, refs := Needed(s.kv, slices, cfg.blockTokens), s.hot.refs;
    var start := Evictions([], multiset{}, needed - s.hot.Free());
    var e := PlanEvictions(s.entries, refs, start);
    var candidates := Candidates(s.kv, InBatch(slices));
    EvictionsKept(s, start, cfg);
    EvictionsLoose(s.entries, refs, start);
    PoolValid(s, cfg);
    if e.deficit <= 0 {
      StuckStays(s, InBatch(slices), e.releases);
    } else {
      RestrictLess(s.kv, candidates);
      InvOrders(s, cfg);
      var start' := Picking([], e.releases, e.deficit, s.cold.Free());
      var more := PlanVictimsSound(s.kv, candidates, refs, start');
      var p := PlanVictims(s.kv, candidates, refs, start').value;
      PickedFacts(s.kv, candidates, refs, start', p, more);
      ChosenHeld(s.kv, more, candidates);
      StuckStays(s, InBatch(slices), p.releases);
    }
  }

  lemma PoolValid(s: State, cfg: Config)
    requires Inv(s, cfg)
    ensures s.hot.Valid() && s.cold.Free() >= 0
  {
    InvParts(s, cfg);
  }

  lemma EvictionsKept(s: State, start: Evictions, cfg: Config)
    requires Inv(s, cfg) && start.keys == [] && start.releases == multiset{}
    ensures var e := PlanEvictions(s.entries, s.hot.refs, start);
      && e.releases + Held(s.kv, Hot) <= s.hot.refs
      && e.deficit == start.deficit - |Freed(s.hot.refs, e.releases)|
  {
    hide Inv, Present, KeyCells, Held, PlanEvictions, Freed;
    StartPlanned(s, start, cfg);
    PlanEvictionsSound(s.entries, 0, s.hot.refs, start, Held(s.kv, Hot));
    assert s.entries[0..] == s.entries;
    NothingFreed(s.hot.refs);
  }

  /** With nobody else in the hot pool, an affordable batch has a feasible plan. */
  lemma AffordableFeasible(s: State, slices: seq<Slice>, cfg: Config)
    requires Inv(s, cfg) && Affordable(s, slices, cfg) && Candidates(s.kv, InBatch(slices)) == {}
    ensures MakePlan(s, slices, cfg).Feasible?
  {
    hide Inv, Present, KeyCells, PlanEvictions, Loose, Needed;
    var needed, refs := Needed(s.kv, slices, cfg.blockTokens), s.hot.refs;
    var start := Evictions([], multiset{}, needed - s.hot.Free());
    var e := PlanEvictions(s.entries, refs, start);
    EvictionsKept(s, start, cfg);
    EvictionsLoose(s.entries, refs, start);
    PoolValid(s, cfg);
    assert Restrict(s.kv, {}) == map[];
    assert Elsewhere(s, InBatch(slices)) == multiset{} by {
      assert TablesOf(map[], Hot) == map[];
    }
    if e.deficit > 0 {
      AllFreed(s, InBatch(slices), e.releases);
    }
  }

  lemma AllFreed(s: State, inBatch: set<nat>, releases: multiset<nat>)
    requires s.hot.Valid() && releases <= s.hot.refs && releases == Loose(s.entries, s.hot.refs) && Elsewhere(s, inBatch) == multiset{}
    ensures |Stuck(s, inBatch)| + |Freed(s.hot.refs, releases)| == s.hot.capacity - s.hot.Free()
  {
    hide Loose, Elsewhere;
    s.hot.Counts();
    var stuck, freed := Stuck(s, inBatch), Freed(s.hot.refs, releases);
    assert stuck !! freed && Distinct(s.hot.refs) == stuck + freed;
  }

  /** With nobody else in the hot pool, no plan has a victim. */
  lemma NoVictims(s: State, slices: seq<Slice>, cfg: Config)
    requires cfg.Valid() && Candidates(s.kv, InBatch(slices)) == {} && MakePlan(s, slices, cfg).Feasible?
    ensures MakePlan(s, slices, cfg).victims == []
  {
    hide Needed, PlanEvictions, SwapIns;
  }

  // -------------------------------------------------------------- preemption

  lemma {:induction false} LooseMore(entries: seq<Entry>, refs: multiset<nat>, fewer: multiset<nat>)
    requires fewer <= refs
    ensures Loose(entries, refs) <= Loose(entries, fewer)
  {
    if entries != [] {
      LooseMore(entries[1..], refs, fewer);
      assert Pinned(entries[0], fewer) ==> Pinned(entries[0], refs);
    }
  }

  /** When a request outside the batch leaves the hot pool, the batch loses nothing. */
  lemma PreemptAffords(s: State, id: nat, slices: seq<Slice>, cfg: Config)
    requires Inv(s, cfg) && Affordable(s, slices, cfg) && Preempt(s, id, cfg).Preempted? && id !in InBatch(slices)
    ensures Affordable(Preempt(s, id, cfg).state, slices, cfg)
  {
    hide Inv, Loose, Needed, Stuck, AllocateRows, Held, Accounted;
    var next, inBatch := Preempt(s, id, cfg).state, InBatch(slices);
    PreemptLeaves(s, id, cfg);
    NeededSame(s.kv, next.kv, slices, id, cfg.blockTokens);
    LooseMore(s.entries, s.hot.refs, next.hot.refs);
    hide Preempt;
    ElsewhereLess(s, next, id, inBatch);
    assert Stuck(next, inBatch) <= Stuck(s, inBatch) by {
      forall b | b in Stuck(next, inBatch) ensures b in Stuck(s, inBatch) {
        assert next.hot.refs[b] == s.hot.refs[b] - Cells(s.kv[id].table)[b];
      }
    }
    SubsetSize(Stuck(next, inBatch), Stuck(s, inBatch));
  }

  /** The request's blocks are given back, and it is in the hot pool no more. */
  lemma PreemptLeaves(s: State, id: nat, cfg: Config)
    requires Inv(s, cfg) && Preempt(s, id, cfg).Preempted?
    ensures id in s.kv && s.kv[id].tier.Hot? && s.kv[id].Width() > 0
    ensures Cells(s.kv[id].table) <= s.hot.refs
    ensures var next := Preempt(s, id, cfg).state;
      && next.hot == s.hot.Release(Cells(s.kv[id].table)) && next.entries == s.entries && next.kv.Keys == s.kv.Keys
      && (next.kv[id].tier.Cold? || next.kv[id].table == [])
      && forall j :: j in s.kv && j != id ==> next.kv[j] == s.kv[j]
  {
    hide AllocateRows, Accounted, ColdBalanced, AllShaped;
    TimesNothing(s.kv[id].request.model.layers);
  }

  lemma TimesNothing(layers: nat)
    ensures Times(0, layers) == 0
  {
  }

  lemma ElsewhereLess(s: State, next: State, id: nat, inBatch: set<nat>)
    requires id in s.kv && s.kv[id].tier.Hot? && s.kv[id].Width() > 0 && id !in inBatch && next.kv.Keys == s.kv.Keys
    requires next.kv[id].tier.Cold? || next.kv[id].table == []
    requires forall j :: j in s.kv && j != id ==> next.kv[j] == s.kv[j]
    ensures Elsewhere(s, inBatch) == Cells(s.kv[id].table) + Elsewhere(next, inBatch)
  {
    hide Held;
    var candidates := Candidates(s.kv, inBatch);
    RestrictStep(s.kv, candidates, id);
    assert Candidates(next.kv, inBatch) == candidates - {id};
    assert Restrict(next.kv, candidates - {id}) == Restrict(s.kv, candidates - {id});
  }

  lemma NeededSame(kv: map<nat, RequestKv>, kv': map<nat, RequestKv>, slices: seq<Slice>, id: nat, blockTokens: nat)
    requires blockTokens > 0 && id !in InBatch(slices) && kv'.Keys == kv.Keys
    requires forall i :: 0 <= i < |slices| ==> slices[i].request in kv
    requires forall j :: j in kv && j != id ==> kv'[j] == kv[j]
    ensures Needed(kv', slices, blockTokens) == Needed(kv, slices, blockTokens)
  {
    forall i | 0 <= i < |slices| ensures slices[i].request != id {
      assert slices[i].request in InBatch(slices);
    }
    NeededFrame(kv, kv', slices, blockTokens);
  }
}
