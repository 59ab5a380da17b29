/** The placement plane as it is kept: two pools, the prefix cache in the hot one, and a
    dictionary of per-request block tables, all changed in place.  This part plans.
 */
module KvPlanning {
  import opened BlockPools
  import opened PrefixKeys
  import opened PrefixSpec
  import opened PlacementSpec

  /** Counts the blocks that will have no holder left once all listed releases happened. */
  method Reclaim(pool: BlockPool, blocks: seq<nat>, releases: multiset<nat>) returns (count: nat, more: multiset<nat>)
    requires pool.Valid()
    ensures PlacementSpec.Reclaim(count, more) == Reclaimed(blocks, pool.Refs, releases)
  {
    hide BlockPool.Valid;
    count, more := 0, releases;
    var i := 0;
    assert blocks[0..] == blocks;
    while i < |blocks|
      invariant i <= |blocks|
      invariant Reclaimed(blocks, pool.Refs, releases).releases == Reclaimed(blocks[i..], pool.Refs, more).releases
      invariant Reclaimed(blocks, pool.Refs, releases).count == count + Reclaimed(blocks[i..], pool.Refs, more).count
    {
      ghost var tail := blocks[i..];
      assert tail[0] == blocks[i] && tail[1..] == blocks[i + 1..];
      more := more + multiset{blocks[i]};
      if more[blocks[i]] == pool.Count(blocks[i]) {
        count := count + 1;
      }
      i := i + 1;
    }
  }

  /** Live readers pin an entry. */
  predicate Pinned(pool: BlockPool, blocks: seq<nat>)
    requires pool.Valid()
    reads pool
    ensures Pinned(pool, blocks) <==> exists b :: b in blocks && pool.Refs[b] > 1
  {
    exists b :: b in blocks && pool.Count(b) > 1
  }

  method PlanEvictions(pool: BlockPool, entries: seq<Entry>, deficit: int) returns (e: Evictions)
    requires pool.Valid()
    ensures e == PlacementSpec.PlanEvictions(entries, pool.Refs, Evictions([], multiset{}, deficit))
  {
    hide BlockPool.Valid;
    e := Evictions([], multiset{}, deficit);
    var i := 0;
    assert entries[0..] == entries;
    while i < |entries| && e.deficit > 0
      invariant i <= |entries|
      invariant PlacementSpec.PlanEvictions(entries, pool.Refs, Evictions([], multiset{}, deficit))
             == PlacementSpec.PlanEvictions(entries[i..], pool.Refs, e)
    {
      ghost var tail := entries[i..];
      assert tail[0] == entries[i] && tail[1..] == entries[i + 1..];
      var entry := entries[i];
      if !Pinned(pool, entry.blocks) {
        var count, releases := Reclaim(pool, entry.blocks, e.releases);
        e := Evictions(e.keys + [entry.key], releases, e.deficit - count);
      }
      i := i + 1;
    }
  }

  /** Victims in the order of their last batch, then of their admission. */
  method PlanVictims(pool: BlockPool, kv: map<nat, RequestKv>, candidates: set<nat>, start: Picking)
    returns (p: Option<Picking>)
    requires pool.Valid() && candidates <= kv.Keys && DistinctOrders(kv)
    ensures p == PlacementSpec.PlanVictims(kv, candidates, pool.Refs, start)
  {
    hide BlockPool.Valid, Reclaimed, Flatten, Coldest, DistinctOrders, ColdestOf;
    var picked, left := start, candidates;
    while picked.deficit > 0 && left != {}
      invariant left <= candidates
      invariant PlacementSpec.PlanVictims(kv, candidates, pool.Refs, start)
             == PlacementSpec.PlanVictims(kv, left, pool.Refs, picked)
      decreases |left|
    {
      var id := FirstColdest(kv, left);
      if kv[id].Total() > picked.coldFree {
        return None;
      }
      var count, releases := Reclaim(pool, Flatten(kv[id].table), picked.releases);
      picked := Picking(picked.ids + [id], releases, picked.deficit - count, picked.coldFree - kv[id].Total());
      left := left - {id};
    }
    p := if picked.deficit > 0 then None else Some(picked);
  }

  method FirstColdest(kv: map<nat, RequestKv>, candidates: set<nat>) returns (id: nat)
    requires candidates <= kv.Keys && candidates != {} && DistinctOrders(kv)
    ensures id in candidates && Coldest(kv, candidates, id) && id == ColdestOf(kv, candidates)
  {
    ghost var some := ColdestExists(kv, candidates);
    id :| id in candidates && forall c :: c in candidates && c != id ==> Before(kv[id], kv[c]);
    ColdestUnique(kv, candidates, id, ColdestOf(kv, candidates));
  }

  /** The blocks a batch needs in the hot pool, and its requests that have to come back. */
  method Demand(kv: map<nat, RequestKv>, slices: seq<Slice>, blockTokens: nat) returns (needed: nat, swapIn: seq<nat>)
    requires blockTokens > 0 && forall i :: 0 <= i < |slices| ==> slices[i].request in kv
    ensures needed == Needed(kv, slices, blockTokens) && swapIn == SwapIns(kv, slices)
  {
    needed, swapIn := 0, [];
    var i := 0;
    assert slices[0..] == slices;
    while i < |slices|
      invariant i <= |slices|
      invariant Needed(kv, slices, blockTokens) == needed + Needed(kv, slices[i..], blockTokens)
      invariant SwapIns(kv, slices) == swapIn + SwapIns(kv, slices[i..])
    {
      ghost var tail := slices[i..];
      assert tail[0] == slices[i] && tail[1..] == slices[i + 1..];
      var st := kv[slices[i].request];
      needed := needed + Times(Grow(st, slices[i].End(), blockTokens), st.request.model.layers);
      if st.tier.Cold? {
        swapIn := swapIn + [slices[i].request];
        needed := needed + st.Total();
      }
      i := i + 1;
    }
  }
}
