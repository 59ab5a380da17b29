/** The planner agrees with the executor: a feasible plan never fails in either pool,
    although evictions, migrations, growth and publication interleave.
 */
module PlannerSoundness {
  import opened Pools
  import opened Modular
  import opened PrefixKeys
  import opened PrefixSpec
  import opened Tables
  import opened PlacementSpec
  import opened PlacementInvariant

  // -------------------------------------------------------- counting releases

  /** The blocks that a set of planned releases would set free. */
  ghost function Freed(refs: multiset<nat>, releases: multiset<nat>): (freed: set<nat>)
    ensures forall b :: b in freed <==> b in refs && releases[b] == refs[b]
  {
    set b | b in refs && releases[b] == refs[b]
  }

  /** The counter sees exactly the blocks whose count the listed releases exhaust,
      however often a block is shared or listed. */
  lemma {:induction false} ReclaimedMeans(blocks: seq<nat>, refs: multiset<nat>, releases: multiset<nat>)
    requires releases + multiset(blocks) <= refs
    ensures var r := Reclaimed(blocks, refs, releases);
      && r.releases == releases + multiset(blocks)
      && |Freed(refs, r.releases)| == |Freed(refs, releases)| + r.count
  {
    if blocks != [] {
      var b := blocks[0];
      var more := releases + multiset{b};
      assert blocks == [b] + blocks[1..];
      ReclaimedMeans(blocks[1..], refs, more);
      OneRelease(refs, releases, b);
    }
  }

  lemma OneRelease(refs: multiset<nat>, releases: multiset<nat>, b: nat)
    requires releases + multiset{b} <= refs
    ensures |Freed(refs, releases + multiset{b})| ==
            |Freed(refs, releases)| + (if releases[b] + 1 == refs[b] then 1 else 0)
  {
    assert (releases + multiset{b})[b] <= refs[b];
    if releases[b] + 1 == refs[b] {
      assert Freed(refs, releases + multiset{b}) == Freed(refs, releases) + {b};
    } else {
      assert Freed(refs, releases + multiset{b}) == Freed(refs, releases);
    }
  }

  /** Releasing gives back exactly the freed blocks. */
  lemma ReleaseFrees(pool: Pool, releases: multiset<nat>)
    requires pool.Valid() && releases <= pool.refs
    ensures pool.Release(releases).Valid()
    ensures pool.Release(releases).Free() == pool.Free() + |Freed(pool.refs, releases)|
  {
    var after := pool.Release(releases);
    pool.Counts();
    after.Counts();
    assert forall b :: b in pool.refs ==> releases[b] <= pool.refs[b];
    assert Distinct(after.refs) == Distinct(pool.refs) - Freed(pool.refs, releases);
    assert Freed(pool.refs, releases) <= Distinct(pool.refs);
  }

  lemma {:induction false} FlattenCells(table: Table)
    ensures multiset(Flatten(table)) == Cells(table)
  {
    if table != [] {
      FlattenCells(table[1..]);
    }
  }

  // -------------------------------------------------------------- evictions

  ghost function BlocksOf(entries: seq<Entry>, key: Key): seq<nat>
  {
    var i := Find(entries, key);
    if i < |entries| then entries[i].blocks else []
  }

  ghost function KeyCells(entries: seq<Entry>, keys: seq<Key>): multiset<nat>
  {
    if keys == [] then multiset{} else multiset(BlocksOf(entries, keys[0])) + KeyCells(entries, keys[1..])
  }

  ghost predicate Present(entries: seq<Entry>, keys: seq<Key>)
  {
    && (forall k :: 0 <= k < |keys| ==> Find(entries, keys[k]) < |entries|)
    && (forall j, k :: 0 <= j < k < |keys| ==> keys[j] != keys[k])
  }

  lemma FindUnique(entries: seq<Entry>, i: nat)
    requires i < |entries| && DistinctKeys(entries)
    ensures Find(entries, entries[i].key) == i
  {
  }

  lemma FindWithout(entries: seq<Entry>, i: nat, key: Key)
    requires i < |entries| && DistinctKeys(entries) && key != entries[i].key
    ensures Find(entries, key) < |entries| ==> Find(Without(entries, i), key) < |Without(entries, i)|
    ensures BlocksOf(Without(entries, i), key) == BlocksOf(entries, key)
  {
    var j := Find(entries, key);
    var rest := Without(entries, i);
    WithoutKeys(entries, i);
    if j < |entries| {
      var j' := if j < i then j else j - 1;
      assert rest[j'] == entries[j];
      FindUnique(rest, j');
    } else {
      forall k | 0 <= k < |rest| ensures rest[k].key != key {
        assert rest[k] == entries[if k < i then k else k + 1];
      }
    }
  }

  lemma {:induction false} KeyCellsWithout(entries: seq<Entry>, i: nat, keys: seq<Key>)
    requires i < |entries| && DistinctKeys(entries) && Present(entries, keys)
    requires forall k :: 0 <= k < |keys| ==> keys[k] != entries[i].key
    ensures Present(Without(entries, i), keys)
    ensures KeyCells(Without(entries, i), keys) == KeyCells(entries, keys)
  {
    if keys != [] {
      FindWithout(entries, i, keys[0]);
      KeyCellsWithout(entries, i, keys[1..]);
      assert keys == [keys[0]] + keys[1..];
    }
  }

  lemma {:induction false} EvictKeysExact(s: State, keys: seq<Key>, cfg: Config)
    requires Inv(s, cfg) && Present(s.entries, keys)
    ensures EvictKeys(s, keys, cfg).Some?
    ensures var next := EvictKeys(s, keys, cfg).value;
      && Inv(next, cfg) && next.kv == s.kv && next.cold == s.cold
      && next.migrations == s.migrations && next.pendingBatch == s.pendingBatch && next.nextOrder == s.nextOrder
      && next.hot == s.hot.Release(KeyCells(s.entries, keys))
    decreases |keys|
  {
    if keys != [] {
      var i := Find(s.entries, keys[0]);
      var p := Evict(s.Cache(), i, cfg.budget);
      EvictAccounted(s.Cache(), i, cfg.budget, Held(s.kv, Hot));
      CacheInv(s, p, cfg);
      KeyCellsWithout(s.entries, i, keys[1..]);
      EvictKeysExact(s.WithCache(p), keys[1..], cfg);
    }
  }

  /** What planning has promised after looking at the first i entries. */
  ghost predicate Planned(all: seq<Entry>, i: nat, refs: multiset<nat>, acc: Evictions, held: multiset<nat>)
  {
    && i <= |all| && DistinctKeys(all)
    && acc.releases == KeyCells(all, acc.keys)
    && acc.releases + EntryCells(all[i..]) + held <= refs
    && Present(all, acc.keys)
    && forall k :: 0 <= k < |acc.keys| ==> Find(all, acc.keys[k]) < i
  }

  lemma PlannedSkip(all: seq<Entry>, i: nat, refs: multiset<nat>, acc: Evictions, held: multiset<nat>)
    requires i < |all| && Planned(all, i, refs, acc, held)
    ensures Planned(all, i + 1, refs, acc, held)
  {
    assert all[i..][1..] == all[i + 1..];
  }

  ghost function PlanOne(all: seq<Entry>, i: nat, refs: multiset<nat>, acc: Evictions): Evictions
    requires i < |all|
  {
    var r := Reclaimed(all[i].blocks, refs, acc.releases);
    Evictions(acc.keys + [all[i].key], r.releases, acc.deficit - r.count)
  }

  lemma PlannedTake(all: seq<Entry>, i: nat, refs: multiset<nat>, acc: Evictions, held: multiset<nat>)
    requires i < |all| && Planned(all, i, refs, acc, held)
    ensures var next := PlanOne(all, i, refs, acc);
      && Planned(all, i + 1, refs, next, held)
      && next.deficit == acc.deficit - |Freed(refs, next.releases)| + |Freed(refs, acc.releases)|
  {
    hide Present, DistinctKeys, Find, Freed;
    var rest := all[i + 1..];
    assert all[i..][0] == all[i] && all[i..][1..] == rest;
    assert EntryCells(all[i..]) == multiset(all[i].blocks) + EntryCells(rest);
    ReclaimedMeans(all[i].blocks, refs, acc.releases);
    FindUnique(all, i);
    KeyCellsPush(all, acc.keys, all[i].key);
    PresentPush(all, i, acc.keys);
  }

  lemma PresentPush(all: seq<Entry>, i: nat, keys: seq<Key>)
    requires i < |all| && Find(all, all[i].key) == i && Present(all, keys)
    requires forall k :: 0 <= k < |keys| ==> Find(all, keys[k]) < i
    ensures Present(all, keys + [all[i].key])
    ensures forall k :: 0 <= k < |keys + [all[i].key]| ==> Find(all, (keys + [all[i].key])[k]) < i + 1
  {
  }

  /** The planned releases are exactly the blocks of the planned entries, and the
      deficit shrinks by what they free. */
  lemma {:induction false} PlanEvictionsSound(all: seq<Entry>, i: nat, refs: multiset<nat>, acc: Evictions, held: multiset<nat>)
    requires Planned(all, i, refs, acc, held)
    ensures var r := PlanEvictions(all[i..], refs, acc);
      && r.releases == KeyCells(all, r.keys) && Present(all, r.keys)
      && r.releases + held <= refs
      && r.deficit == acc.deficit - |Freed(refs, r.releases)| + |Freed(refs, acc.releases)|
    decreases |all| - i
  {
    hide Present, KeyCells, EntryCells, DistinctKeys;
    var entries := all[i..];
    if entries != [] && acc.deficit > 0 {
      assert entries[0] == all[i] && entries[1..] == all[i + 1..];
      if exists b :: b in all[i].blocks && refs[b] > 1 {
        PlannedSkip(all, i, refs, acc, held);
        PlanEvictionsSound(all, i + 1, refs, acc, held);
      } else {
        PlannedTake(all, i, refs, acc, held);
        PlanEvictionsSound(all, i + 1, refs, PlanOne(all, i, refs, acc), held);
      }
    }
  }

  lemma {:induction false} KeyCellsPush(entries: seq<Entry>, keys: seq<Key>, key: Key)
    ensures KeyCells(entries, keys + [key]) == KeyCells(entries, keys) + multiset(BlocksOf(entries, key))
  {
    if keys != [] {
      assert (keys + [key])[1..] == keys[1..] + [key];
      KeyCellsPush(entries, keys[1..], key);
    }
  }

  // ---------------------------------------------------------------- victims

  ghost function Restrict(kv: map<nat, RequestKv>, ids: set<nat>): map<nat, RequestKv>
  {
    map id | id in kv && id in ids :: kv[id]
  }

  ghost function CellsOf(kv: map<nat, RequestKv>, ids: seq<nat>): multiset<nat>
    requires forall k :: 0 <= k < |ids| ==> ids[k] in kv
  {
    if ids == [] then multiset{} else Cells(kv[ids[0]].table) + CellsOf(kv, ids[1..])
  }

  ghost function TotalOf(kv: map<nat, RequestKv>, ids: seq<nat>): nat
    requires forall k :: 0 <= k < |ids| ==> ids[k] in kv
  {
    if ids == [] then 0 else kv[ids[0]].Total() + TotalOf(kv, ids[1..])
  }

  ghost predicate Chosen(kv: map<nat, RequestKv>, ids: seq<nat>, among: set<nat>)
  {
    && (forall k :: 0 <= k < |ids| ==> ids[k] in kv && ids[k] in among)
    && (forall j, k :: 0 <= j < k < |ids| ==> ids[j] != ids[k])
  }

  lemma RestrictStep(kv: map<nat, RequestKv>, ids: set<nat>, id: nat)
    requires id in kv && id in ids && kv[id].tier.Hot?
    ensures Held(Restrict(kv, ids), Hot) == Cells(kv[id].table) + Held(Restrict(kv, ids - {id}), Hot)
  {
    HeldSplit(Restrict(kv, ids), id, Hot);
    assert Restrict(kv, ids) - {id} == Restrict(kv, ids - {id});
  }

  /** A restriction holds no more than the whole. */
  lemma {:induction false} RestrictLess(kv: map<nat, RequestKv>, ids: set<nat>)
    ensures Held(Restrict(kv, ids), Hot) <= Held(kv, Hot)
    decreases |kv|
  {
    if kv.Keys <= ids {
      assert Restrict(kv, ids) == kv;
    } else {
      var out :| out in kv && out !in ids;
      RestrictLess(kv - {out}, ids);
      assert Restrict(kv - {out}, ids) == Restrict(kv, ids);
      HeldSplit(kv, out, Hot);
    }
  }

  /** Picking has gone from p to q by choosing the requests of more. */
  ghost predicate Picked(kv: map<nat, RequestKv>, candidates: set<nat>, refs: multiset<nat>, p: Picking, q: Picking, more: seq<nat>)
  {
    && Chosen(kv, more, candidates)
    && q.ids == p.ids + more
    && q.releases == p.releases + CellsOf(kv, more) && q.releases <= refs
    && q.coldFree == p.coldFree - TotalOf(kv, more) && q.coldFree >= 0
    && q.deficit == p.deficit - |Freed(refs, q.releases)| + |Freed(refs, p.releases)|
  }

  lemma PickOne(kv: map<nat, RequestKv>, candidates: set<nat>, refs: multiset<nat>, id: nat, p: Picking)
    requires id in kv && id in candidates && p.releases + Cells(kv[id].table) <= refs
    requires kv[id].Total() <= p.coldFree
    ensures Picked(kv, candidates, refs, p, PickVictim(kv, refs, id, p), [id])
  {
    FlattenCells(kv[id].table);
    ReclaimedMeans(Flatten(kv[id].table), refs, p.releases);
    FirstOf(kv, id, []);
  }

  lemma PickMore(kv: map<nat, RequestKv>, candidates: set<nat>, refs: multiset<nat>, id: nat,
                 p: Picking, q: Picking, r: Picking, rest: seq<nat>)
    requires id in candidates && Picked(kv, candidates, refs, p, q, [id])
    requires Picked(kv, candidates - {id}, refs, q, r, rest)
    ensures Picked(kv, candidates, refs, p, r, [id] + rest)
  {
    hide Freed;
    FirstOf(kv, id, []);
    FirstOf(kv, id, rest);
    assert (p.ids + [id]) + rest == p.ids + ([id] + rest);
    ChosenFirst(kv, id, rest, candidates);
    assert CellsOf(kv, [id]) == Cells(kv[id].table);
  }

  lemma FirstOf(kv: map<nat, RequestKv>, id: nat, rest: seq<nat>)
    requires id in kv && forall k :: 0 <= k < |rest| ==> rest[k] in kv
    ensures forall k :: 0 <= k < |[id] + rest| ==> ([id] + rest)[k] in kv
    ensures CellsOf(kv, [id] + rest) == Cells(kv[id].table) + CellsOf(kv, rest)
    ensures TotalOf(kv, [id] + rest) == kv[id].Total() + TotalOf(kv, rest)
    ensures rest == [] ==> [id] + rest == [id]
  {
    assert ([id] + rest)[1..] == rest;
  }

  lemma ChosenFirst(kv: map<nat, RequestKv>, id: nat, rest: seq<nat>, among: set<nat>)
    requires id in kv && id in among && Chosen(kv, rest, among - {id})
    ensures Chosen(kv, [id] + rest, among)
  {
  }

  /** Victims are distinct candidates that fit the cold pool, and their blocks' exhausted
      counts are what the deficit was reduced by. */
  lemma {:induction false} PlanVictimsSound(kv: map<nat, RequestKv>, candidates: set<nat>, refs: multiset<nat>, p: Picking)
    returns (more: seq<nat>)
    requires candidates <= kv.Keys && DistinctOrders(kv)
    requires forall c :: c in candidates ==> kv[c].tier.Hot?
    requires p.releases + Held(Restrict(kv, candidates), Hot) <= refs && p.coldFree >= 0
    ensures PlanVictims(kv, candidates, refs, p).Some? ==>
      && PlanVictims(kv, candidates, refs, p).value.deficit <= 0
      && Picked(kv, candidates, refs, p, PlanVictims(kv, candidates, refs, p).value, more)
    decreases |candidates|
  {
    more := [];
    if p.deficit > 0 && candidates != {} {
      var c := ColdestExists(kv, candidates);
      var id := ColdestOf(kv, candidates);
      if kv[id].Total() <= p.coldFree {
        more := VictimFirst(kv, candidates, refs, p, id);
      }
    }
  }

  lemma {:induction false} VictimFirst(kv: map<nat, RequestKv>, candidates: set<nat>, refs: multiset<nat>, p: Picking, id: nat)
    returns (more: seq<nat>)
    requires candidates <= kv.Keys && DistinctOrders(kv) && id in candidates
    requires forall c :: c in candidates ==> kv[c].tier.Hot?
    requires p.releases + Held(Restrict(kv, candidates), Hot) <= refs
    requires kv[id].Total() <= p.coldFree
    ensures var q := PlanVictims(kv, candidates - {id}, refs, PickVictim(kv, refs, id, p));
      q.Some? ==> q.value.deficit <= 0 && Picked(kv, candidates, refs, p, q.value, more)
    decreases |candidates|, 0
  {
    hide PlanVictims, Picked, Held, DistinctOrders;
    var next := PickVictim(kv, refs, id, p);
    RestrictStep(kv, candidates, id);
    PickOne(kv, candidates, refs, id, p);
    PickedMeans(kv, candidates, refs, p, next, id);
    var rest := PlanVictimsSound(kv, candidates - {id}, refs, next);
    var q := PlanVictims(kv, candidates - {id}, refs, next);
    more := [id] + rest;
    if q.Some? {
      PickMore(kv, candidates, refs, id, p, next, q.value, rest);
    }
  }

  lemma PickedMeans(kv: map<nat, RequestKv>, candidates: set<nat>, refs: multiset<nat>, p: Picking, q: Picking, id: nat)
    requires id in kv && Picked(kv, candidates, refs, p, q, [id])
    ensures q.releases == p.releases + Cells(kv[id].table) && q.coldFree >= 0
  {
    FirstOf(kv, id, []);
  }

  // ------------------------------------------------------- executed migrations

  /** What a migration leaves of a request: everything but its blocks and its tier. */
  ghost predicate SameRequest(a: RequestKv, b: RequestKv)
  {
    && a.request == b.request && a.order == b.order && a.lastBatch == b.lastBatch
    && a.keys == b.keys && a.hitTokens == b.hitTokens && a.Width() == b.Width()
  }

  ghost predicate Relocated(before: State, after: State, ids: seq<nat>, toCold: bool)
  {
    && after.kv.Keys == before.kv.Keys
    && after.entries == before.entries && after.bytes == before.bytes
    && after.nextOrder == before.nextOrder && after.pendingBatch == before.pendingBatch
    && (forall id :: id in before.kv ==> SameRequest(before.kv[id], after.kv[id]))
    && (forall id :: id in before.kv && id in ids ==> after.kv[id].tier.Cold? == toCold)
    && (forall id :: id in before.kv && id !in ids ==> after.kv[id] == before.kv[id])
  }

  ghost predicate Movable(s: State, ids: seq<nat>, toCold: bool, cfg: Config)
  {
    && Chosen(s.kv, ids, s.kv.Keys)
    && (forall k :: 0 <= k < |ids| ==> s.kv[ids[k]].tier.Cold? != toCold)
    && (toCold && |ids| > 0 ==> cfg.hasCold)
    && (toCold ==> forall k :: 0 <= k < |ids| ==> s.kv[ids[k]].Width() > 0)
  }

  /** One migration: the source loses exactly the request's cells, the target its total. */
  lemma MigrateOne(s: State, id: nat, toCold: bool, cfg: Config)
    requires Inv(s, cfg) && id in s.kv && s.kv[id].tier.Cold? != toCold
    requires toCold ==> cfg.hasCold && s.kv[id].Width() > 0
    requires s.kv[id].Total() <= Target(s, toCold).Free()
    ensures Migrate(s, id, toCold).Some?
    ensures var next := Migrate(s, id, toCold).value;
      && Inv(next, cfg) && Relocated(s, next, [id], toCold)
      && Target(next, toCold).Free() == Target(s, toCold).Free() - s.kv[id].Total()
      && Target(next, !toCold) == Target(s, !toCold).Release(Cells(s.kv[id].table))
  {
    hide Inv, AllocateRows, Shaped;
    var rows := MigrateExact(s, id, toCold, cfg);
    MigrateInv(s, id, toCold, cfg);
    MigrationFacts(s, id, toCold, cfg);
    TotalMeans(s.kv[id], cfg);
    AllocateRowsExact(Target(s, toCold), |s.kv[id].table|, s.kv[id].Width());
    var next := Moved(s, id, toCold, rows);
    assert next.kv[id].Width() == s.kv[id].Width() by {
      MovedWidth(s.kv[id].table, rows.table, s.kv[id].Width());
    }
  }

  lemma MovedWidth(before: Table, after: Table, width: nat)
    requires Rectangular(after, |before|, width)
    requires before == [] ==> width == 0
    ensures (if after == [] then 0 else |after[0]|) == width
  {
  }

  lemma {:induction false} OfFrame(kv: map<nat, RequestKv>, kv': map<nat, RequestKv>, ids: seq<nat>)
    requires forall k :: 0 <= k < |ids| ==> ids[k] in kv && ids[k] in kv' && kv'[ids[k]] == kv[ids[k]]
    ensures CellsOf(kv', ids) == CellsOf(kv, ids) && TotalOf(kv', ids) == TotalOf(kv, ids)
  {
    if ids != [] {
      OfFrame(kv, kv', ids[1..]);
    }
  }

  ghost predicate MovedAll(s: State, next: State, ids: seq<nat>, toCold: bool, cfg: Config)
    requires forall k :: 0 <= k < |ids| ==> ids[k] in s.kv
  {
    && Inv(next, cfg) && Relocated(s, next, ids, toCold)
    && Target(next, toCold).Free() == Target(s, toCold).Free() - TotalOf(s.kv, ids)
    && Target(next, !toCold) == Target(s, !toCold).Release(CellsOf(s.kv, ids))
  }

  /** Requests that fit the target together migrate one after the other without failing. */
  lemma {:induction false} MigrateAllExact(s: State, ids: seq<nat>, toCold: bool, cfg: Config)
    requires Inv(s, cfg) && Movable(s, ids, toCold, cfg)
    requires TotalOf(s.kv, ids) <= Target(s, toCold).Free()
    ensures MigrateAll(s, ids, toCold).Some? && MovedAll(s, MigrateAll(s, ids, toCold).value, ids, toCold, cfg)
    decreases |ids|
  {
    hide Inv, Migrate, Relocated, Movable, MovedAll;
    if ids == [] {
      MovedNone(s, toCold, cfg);
    } else {
      var first, rest := ids[0], ids[1..];
      FirstMovable(s, ids, toCold, cfg);
      MigrateOne(s, first, toCold, cfg);
      var mid := Migrate(s, first, toCold).value;
      StillMovable(s, mid, ids, toCold, cfg);
      OfFrame(s.kv, mid.kv, rest);
      MigrateAllExact(mid, rest, toCold, cfg);
      var next := MigrateAll(mid, rest, toCold).value;
      MovedAllChain(s, mid, next, ids, toCold, cfg);
    }
  }

  lemma FirstMovable(s: State, ids: seq<nat>, toCold: bool, cfg: Config)
    requires ids != [] && Movable(s, ids, toCold, cfg)
    ensures ids[0] in s.kv && s.kv[ids[0]].tier.Cold? != toCold
    ensures toCold ==> cfg.hasCold && s.kv[ids[0]].Width() > 0
    ensures forall k :: 0 <= k < |ids| ==> ids[k] in s.kv
    ensures TotalOf(s.kv, ids) == s.kv[ids[0]].Total() + TotalOf(s.kv, ids[1..])
  {
  }

  lemma MovedNone(s: State, toCold: bool, cfg: Config)
    requires Inv(s, cfg)
    ensures MovedAll(s, s, [], toCold, cfg)
  {
    assert Target(s, !toCold).Release(multiset{}) == Target(s, !toCold);
  }

  lemma MovedAllChain(s: State, mid: State, next: State, ids: seq<nat>, toCold: bool, cfg: Config)
    requires ids != [] && forall k :: 0 <= k < |ids| ==> ids[k] in s.kv && ids[k] in mid.kv
    requires Relocated(s, mid, [ids[0]], toCold)
    requires Target(mid, toCold).Free() == Target(s, toCold).Free() - s.kv[ids[0]].Total()
    requires Target(mid, !toCold) == Target(s, !toCold).Release(Cells(s.kv[ids[0]].table))
    requires CellsOf(mid.kv, ids[1..]) == CellsOf(s.kv, ids[1..]) && TotalOf(mid.kv, ids[1..]) == TotalOf(s.kv, ids[1..])
    requires MovedAll(mid, next, ids[1..], toCold, cfg)
    ensures MovedAll(s, next, ids, toCold, cfg)
  {
    hide Inv, Relocated, Cells, RequestKv.Total, Pool.Release, Pool.Free;
    RelocatedChain(s, mid, next, ids[0], ids[1..], toCold);
    assert [ids[0]] + ids[1..] == ids;
    ReleaseTwice(Target(s, !toCold), Cells(s.kv[ids[0]].table), CellsOf(s.kv, ids[1..]));
  }

  lemma ReleaseTwice(pool: Pool, a: multiset<nat>, b: multiset<nat>)
    ensures pool.Release(a).Release(b) == pool.Release(a + b)
  {
  }

  lemma StillMovable(s: State, mid: State, ids: seq<nat>, toCold: bool, cfg: Config)
    requires ids != [] && Movable(s, ids, toCold, cfg) && Relocated(s, mid, [ids[0]], toCold)
    ensures Movable(mid, ids[1..], toCold, cfg) && mid.kv.Keys == s.kv.Keys
    ensures forall k :: 0 <= k < |ids[1..]| ==> ids[1..][k] in mid.kv && mid.kv[ids[1..][k]] == s.kv[ids[1..][k]]
  {
    var rest := ids[1..];
    forall k | 0 <= k < |rest| ensures rest[k] !in [ids[0]] {
      assert rest[k] == ids[k + 1];
    }
  }

  lemma RelocatedChain(s: State, mid: State, next: State, first: nat, rest: seq<nat>, toCold: bool)
    requires Relocated(s, mid, [first], toCold) && Relocated(mid, next, rest, toCold)
    ensures Relocated(s, next, [first] + rest, toCold)
  {
    forall id | id in s.kv && id in [first] + rest ensures next.kv[id].tier.Cold? == toCold {
      if id !in rest {
        assert id in [first];
      }
    }
  }

  // ------------------------------------------------------------------- growth

  /** Whole blocks cover the tokens: rounding up never loses one, rounding down never gains one. */
  lemma BlocksCover(tokens: nat, blockTokens: nat)
    requires blockTokens > 0
    ensures tokens / blockTokens <= BlocksFor(tokens, blockTokens)
    ensures BlocksFor(tokens, blockTokens) * blockTokens >= tokens
    ensures tokens > 0 ==> BlocksFor(tokens, blockTokens) > 0
  {
    var q := BlocksFor(tokens, blockTokens);
    var r := (tokens + blockTokens - 1) % blockTokens;
    assert tokens + blockTokens - 1 == q * blockTokens + r;
    var q', r' := tokens / blockTokens, tokens % blockTokens;
    assert tokens == q' * blockTokens + r';
    MultiplesOrdered(q, q', blockTokens);
  }

  lemma DivisionGrows(a: nat, b: nat, d: nat)
    requires d > 0 && a <= b
    ensures a / d <= b / d
  {
    var q, r, q', r' := a / d, a % d, b / d, b % d;
    assert a == q * d + r && b == q' * d + r';
    MultiplesOrdered(q', q, d);
  }

  /** Everything a reservation step may change: the one request, the hot pool and the cache. */
  ghost predicate GrewOnly(s: State, next: State, id: nat)
    requires id in s.kv
  {
    && next.kv.Keys == s.kv.Keys
    && (forall j :: j in s.kv && j != id ==> next.kv[j] == s.kv[j])
    && next.cold == s.cold && next.migrations == s.migrations && next.nextOrder == s.nextOrder
    && next.pendingBatch == s.pendingBatch
    && next.kv[id].tier == s.kv[id].tier && next.kv[id].request == s.kv[id].request
  }

  ghost function GrowthOf(st: RequestKv, slice: Slice, cfg: Config): nat
    requires cfg.Valid()
  {
    Times(Grow(st, slice.End(), cfg.blockTokens), st.request.model.layers)
  }

  ghost function Marked(s: State, id: nat, batch: nat): State
    requires id in s.kv
  {
    s.With(id, s.kv[id].(lastBatch := batch))
  }

  lemma MarkInv(s: State, id: nat, batch: nat, cfg: Config)
    requires Inv(s, cfg) && id in s.kv
    ensures Inv(Marked(s, id, batch), cfg)
  {
    hide Accounted, ColdBalanced, AllShaped, Held;
    var next := Marked(s, id, batch);
    assert Held(next.kv, Hot) == Held(s.kv, Hot) && Held(next.kv, Cold) == Held(s.kv, Cold) by {
      HeldSplit(s.kv, id, Hot);
      HeldSplit(s.kv, id, Cold);
      HeldUpdate(s.kv, id, next.kv[id], Hot);
      HeldUpdate(s.kv, id, next.kv[id], Cold);
    }
    assert next.Cache() == s.Cache();
    InvParts(s, cfg);
    SameCold(s, next);
    MarkShaped(s, id, batch, cfg);
  }

  lemma MarkShaped(s: State, id: nat, batch: nat, cfg: Config)
    requires AllShaped(s, cfg) && id in s.kv
    ensures AllShaped(Marked(s, id, batch), cfg)
  {
    assert Shaped(s.kv[id], cfg) && Marked(s, id, batch).kv[id].Width() == s.kv[id].Width();
  }

  lemma CompleteCovered(s: State, id: nat, end: nat, cfg: Config)
    requires cfg.Valid() && AllShaped(s, cfg) && id in s.kv && s.kv[id].table != []
    requires BlocksFor(end, cfg.blockTokens) <= s.kv[id].Width()
    ensures forall l :: 0 <= l < |s.kv[id].table| ==>
              Min(end, s.kv[id].request.promptTokens) / cfg.blockTokens <= |s.kv[id].table[l]|
  {
    BlocksCover(end, cfg.blockTokens);
    DivisionGrows(Min(end, s.kv[id].request.promptTokens), end, cfg.blockTokens);
    assert Shaped(s.kv[id], cfg);
  }

  lemma PublishForFree(s: State, id: nat, end: nat, now: nat, pending: bool, cfg: Config)
    requires cfg.Valid() && Inv(s, cfg) && id in s.kv && s.kv[id].tier.Hot? && s.kv[id].table != []
    requires BlocksFor(end, cfg.blockTokens) <= s.kv[id].Width()
    ensures PublishFor(s, id, end, now, pending, cfg).Some?
    ensures var next := PublishFor(s, id, end, now, pending, cfg).value;
      && Inv(next, cfg) && next.hot.Free() >= s.hot.Free() && GrewOnly(s, next, id) && next.kv == s.kv
  {
    hide Accounted, ColdBalanced, Held, AllShaped;
    var st := s.kv[id];
    var complete := Min(end, st.request.promptTokens) / cfg.blockTokens;
    CompleteCovered(s, id, end, cfg);
    PublishForInv(s, id, end, now, pending, cfg);
    PublishTable(s, id, complete, now, pending, cfg);
    InvParts(s, cfg);
    ShrinksFree(s.hot, PublishFor(s, id, end, now, pending, cfg).value.hot);
  }

  /** One slice: growth fits exactly when its new blocks do, and publishing never fails. */
  lemma ReserveOneExact(s: State, batch: nat, slice: Slice, cfg: Config)
    requires cfg.Valid() && Inv(s, cfg) && slice.request in s.kv && s.kv[slice.request].tier.Hot? && slice.count > 0
    ensures ReserveOne(s, batch, slice, cfg).Some? <==> GrowthOf(s.kv[slice.request], slice, cfg) <= s.hot.Free()
    ensures ReserveOne(s, batch, slice, cfg).Some? ==>
      var next := ReserveOne(s, batch, slice, cfg).value;
      && Inv(next, cfg) && GrewOnly(s, next, slice.request)
      && next.hot.Free() >= s.hot.Free() - GrowthOf(s.kv[slice.request], slice, cfg)
      && next.kv[slice.request].lastBatch == batch
      && BlocksFor(slice.End(), cfg.blockTokens) <= next.kv[slice.request].Width()
  {
    hide Inv, GrowTable, PublishFor, Held;
    var id := slice.request;
    var grow := Grow(s.kv[id], slice.End(), cfg.blockTokens);
    GrowFree(s, id, grow, cfg);
    if GrowTable(s, id, grow).Some? {
      var grown := GrowTable(s, id, grow).value;
      GrowInv(s, id, grow, cfg);
      MarkInv(grown, id, batch, cfg);
      BlocksCover(slice.End(), cfg.blockTokens);
      var marked := Marked(grown, id, batch);
      assert marked.kv[id].Width() == grown.kv[id].Width();
      if cfg.Caching() {
        PublishForFree(marked, id, slice.End(), s.kv[id].request.arrival, true, cfg);
      }
    }
  }

  lemma GrowFree(s: State, id: nat, grow: nat, cfg: Config)
    requires Inv(s, cfg) && id in s.kv
    ensures GrowTable(s, id, grow).Some? <==> Times(grow, s.kv[id].request.model.layers) <= s.hot.Free()
    ensures GrowTable(s, id, grow).Some? ==>
      var next := GrowTable(s, id, grow).value;
      && GrewOnly(s, next, id)
      && next.hot.Free() == s.hot.Free() - Times(grow, s.kv[id].request.model.layers)
  {
    hide Accounted, ColdBalanced, AllocateRows;
    InvParts(s, cfg);
    if grow > 0 {
      var rows := GrowExact(s, id, grow, cfg);
      AllocateRowsExact(s.hot, s.kv[id].request.model.layers, grow);
    }
  }

  // ------------------------------------------------------------- the theorem

  ghost predicate AllHot(s: State, slices: seq<Slice>)
  {
    && Known(s, slices)
    && (forall i :: 0 <= i < |slices| ==> s.kv[slices[i].request].tier.Hot? && slices[i].count > 0)
  }

  ghost function GrowthSum(kv: map<nat, RequestKv>, slices: seq<Slice>, cfg: Config): nat
    requires cfg.Valid()
    requires forall i :: 0 <= i < |slices| ==> slices[i].request in kv
  {
    if slices == [] then 0 else GrowthOf(kv[slices[0].request], slices[0], cfg) + GrowthSum(kv, slices[1..], cfg)
  }

  lemma {:induction false} GrowthFrame(kv: map<nat, RequestKv>, kv': map<nat, RequestKv>, slices: seq<Slice>, cfg: Config)
    requires cfg.Valid()
    requires forall i :: 0 <= i < |slices| ==> slices[i].request in kv && slices[i].request in kv'
    requires forall i :: 0 <= i < |slices| ==>
      && kv'[slices[i].request].Width() == kv[slices[i].request].Width()
      && kv'[slices[i].request].request == kv[slices[i].request].request
    ensures GrowthSum(kv', slices, cfg) == GrowthSum(kv, slices, cfg)
  {
    if slices != [] {
      GrowthFrame(kv, kv', slices[1..], cfg);
    }
  }

  /** The state after reserving: the requests of the batch are covered, the rest is as it was. */
  ghost predicate Reserved(s: State, next: State, slices: seq<Slice>, cfg: Config)
    requires cfg.Valid()
  {
    && Inv(next, cfg) && next.kv.Keys == s.kv.Keys
    && next.cold == s.cold && next.migrations == s.migrations && next.pendingBatch == s.pendingBatch
    && (forall id :: id in s.kv && id !in InBatch(slices) ==> next.kv[id] == s.kv[id])
    && (forall i :: 0 <= i < |slices| && slices[i].request in next.kv ==>
          && next.kv[slices[i].request].tier.Hot?
          && BlocksFor(slices[i].End(), cfg.blockTokens) <= next.kv[slices[i].request].Width())
  }

  /** Slices whose growth fits together are reserved one after the other without failing. */
  lemma {:induction false} ReserveAllExact(s: State, batch: nat, slices: seq<Slice>, cfg: Config)
    requires cfg.Valid() && Inv(s, cfg) && AllHot(s, slices)
    requires GrowthSum(s.kv, slices, cfg) <= s.hot.Free()
    ensures ReserveAll(s, batch, slices, cfg).Some?
    ensures Reserved(s, ReserveAll(s, batch, slices, cfg).value, slices, cfg)
    decreases |slices|
  {
    if slices != [] {
      hide Inv, ReserveOne, GrowthOf, Reserved, AllHot, GrewOnly;
      var first, rest := slices[0], slices[1..];
      AllHotFirst(s, slices);
      ReserveOneExact(s, batch, first, cfg);
      var mid := ReserveOne(s, batch, first, cfg).value;
      AllHotRest(s, mid, slices, cfg);
      GrowthFrame(s.kv, mid.kv, rest, cfg);
      ReserveAllExact(mid, batch, rest, cfg);
      ReservedChain(s, mid, ReserveAll(mid, batch, rest, cfg).value, slices, cfg);
    }
  }

  lemma AllHotFirst(s: State, slices: seq<Slice>)
    requires slices != [] && AllHot(s, slices)
    ensures slices[0].request in s.kv && s.kv[slices[0].request].tier.Hot? && slices[0].count > 0
  {
  }

  lemma AllHotRest(s: State, mid: State, slices: seq<Slice>, cfg: Config)
    requires slices != [] && AllHot(s, slices) && GrewOnly(s, mid, slices[0].request)
    ensures AllHot(mid, slices[1..])
    ensures forall i :: 0 <= i < |slices[1..]| ==>
      && slices[1..][i].request in s.kv && slices[1..][i].request in mid.kv
      && mid.kv[slices[1..][i].request] == s.kv[slices[1..][i].request]
  {
    var rest := slices[1..];
    forall i | 0 <= i < |rest| ensures rest[i].request != slices[0].request {
      assert rest[i] == slices[i + 1];
    }
  }

  lemma ReservedChain(s: State, mid: State, next: State, slices: seq<Slice>, cfg: Config)
    requires cfg.Valid() && slices != [] && AllHot(s, slices) && GrewOnly(s, mid, slices[0].request)
    requires BlocksFor(slices[0].End(), cfg.blockTokens) <= mid.kv[slices[0].request].Width()
    requires Reserved(mid, next, slices[1..], cfg)
    ensures Reserved(s, next, slices, cfg)
  {
    hide Inv;
    var rest := slices[1..];
    var first := slices[0].request;
    assert forall i :: 0 <= i < |rest| ==> rest[i] == slices[i + 1];
    InBatchFirst(slices);
    assert first !in InBatch(rest);
    assert next.kv[first] == mid.kv[first];
    forall i | 0 <= i < |slices|
      ensures next.kv[slices[i].request].tier.Hot?
      ensures BlocksFor(slices[i].End(), cfg.blockTokens) <= next.kv[slices[i].request].Width()
    {
      if i > 0 {
        assert rest[i - 1] == slices[i];
      }
    }
  }

  lemma InBatchFirst(slices: seq<Slice>)
    requires slices != []
    ensures InBatch(slices) == {slices[0].request} + InBatch(slices[1..])
  {
    var rest := slices[1..];
    assert forall i :: 0 <= i < |rest| ==> rest[i] == slices[i + 1];
    forall id ensures id in InBatch(slices) <==> id in {slices[0].request} + InBatch(rest) {
      if id in InBatch(slices) {
        var i :| 0 <= i < |slices| && slices[i].request == id;
        assert i > 0 ==> rest[i - 1].request == id;
      }
      if id in InBatch(rest) {
        var i :| 0 <= i < |rest| && rest[i].request == id;
        assert slices[i + 1].request == id;
      }
    }
  }

  /** The requests to bring back are the cold ones of the batch, each once. */
  lemma {:induction false} SwapInsChosen(kv: map<nat, RequestKv>, slices: seq<Slice>)
    requires forall i :: 0 <= i < |slices| ==> slices[i].request in kv
    requires forall i, j :: 0 <= i < j < |slices| ==> slices[i].request != slices[j].request
    ensures Chosen(kv, SwapIns(kv, slices), InBatch(slices))
    ensures forall k :: 0 <= k < |SwapIns(kv, slices)| ==> kv[SwapIns(kv, slices)[k]].tier.Cold?
    ensures forall i :: 0 <= i < |slices| && kv[slices[i].request].tier.Cold? ==> slices[i].request in SwapIns(kv, slices)
  {
    if slices != [] {
      var first, rest := slices[0].request, slices[1..];
      assert forall i :: 0 <= i < |rest| ==> rest[i] == slices[i + 1];
      SwapInsChosen(kv, rest);
      InBatchFirst(slices);
      assert first !in InBatch(rest);
      var more := SwapIns(kv, rest);
      if kv[first].tier.Cold? {
        ChosenFirst(kv, first, more, InBatch(slices));
        assert SwapIns(kv, slices) == [first] + more;
      }
    }
  }

  /** The need is the growth of all slices plus the blocks of the requests to bring back. */
  lemma {:induction false} NeededSplits(kv: map<nat, RequestKv>, slices: seq<Slice>, cfg: Config)
    requires cfg.Valid()
    requires forall i :: 0 <= i < |slices| ==> slices[i].request in kv
    ensures forall k :: 0 <= k < |SwapIns(kv, slices)| ==> SwapIns(kv, slices)[k] in kv
    ensures Needed(kv, slices, cfg.blockTokens) == GrowthSum(kv, slices, cfg) + TotalOf(kv, SwapIns(kv, slices))
  {
    if slices != [] {
      hide Grow, Times;
      var first, rest := slices[0].request, slices[1..];
      NeededSplits(kv, rest, cfg);
      var more := SwapIns(kv, rest);
      FirstOf(kv, first, more);
      assert [] + more == more;
    }
  }

  lemma {:induction false} EvictedKeeps(s: State, keys: seq<Key>, cfg: Config)
    requires EvictKeys(s, keys, cfg).Some?
    ensures EvictKeys(s, keys, cfg).value.kv == s.kv && EvictKeys(s, keys, cfg).value.migrations == s.migrations
    decreases |keys|
  {
    if keys != [] {
      EvictedKeeps(s.WithCache(Evict(s.Cache(), Find(s.entries, keys[0]), cfg.budget)), keys[1..], cfg);
    }
  }

  /** Evicting and swapping out as planned leaves at least the needed blocks free. */
  lemma VictimsMakeRoom(s: State, slices: seq<Slice>, cfg: Config) returns (s2: State)
    requires cfg.Valid() && Inv(s, cfg) && MakePlan(s, slices, cfg).Feasible?
    ensures var plan := MakePlan(s, slices, cfg);
      && EvictKeys(s, plan.evictions, cfg).Some?
      && MigrateAll(EvictKeys(s, plan.evictions, cfg).value, plan.victims, true) == Some(s2)
      && Inv(s2, cfg) && s2.hot.Free() >= plan.needed
      && Chosen(s.kv, plan.victims, Candidates(s.kv, InBatch(slices)))
      && s2.kv.Keys == s.kv.Keys && s2.pendingBatch == s.pendingBatch
      && (forall id :: id in s.kv && id !in plan.victims ==> s2.kv[id] == s.kv[id])
  {
    hide Inv, Accounted, Present, KeyCells, Held, EvictKeys, PlanEvictions, PlanVictims, Freed, Picked, Chosen;
    var plan := MakePlan(s, slices, cfg);
    var needed := Needed(s.kv, slices, cfg.blockTokens);
    var refs := s.hot.refs;
    var start := Evictions([], multiset{}, needed - s.hot.Free());
    StartPlanned(s, start, cfg);
    PlanEvictionsSound(s.entries, 0, refs, start, Held(s.kv, Hot));
    assert s.entries[0..] == s.entries;
    var e := PlanEvictions(s.entries, refs, start);
    EvictKeysExact(s, e.keys, cfg);
    var s1 := EvictKeys(s, e.keys, cfg).value;
    NothingFreed(refs);
    InvParts(s, cfg);
    if e.deficit <= 0 {
      s2 := s1;
      ReleaseFrees(s.hot, e.releases);
      NoneChosen(s.kv, Candidates(s.kv, InBatch(slices)));
    } else {
      var candidates := Candidates(s.kv, InBatch(slices));
      RestrictLess(s.kv, candidates);
      InvOrders(s, cfg);
      var start' := Picking([], e.releases, e.deficit, s.cold.Free());
      var more := PlanVictimsSound(s.kv, candidates, refs, start');
      var p := PlanVictims(s.kv, candidates, refs, start').value;
      PickedFacts(s.kv, candidates, refs, start', p, more);
      assert [] + more == more;
      VictimsMovable(s1, candidates, slices, more, cfg);
      MigrateAllExact(s1, more, true, cfg);
      s2 := MigrateAll(s1, more, true).value;
      ReleaseTwice(s.hot, e.releases, CellsOf(s.kv, more));
      ReleaseFrees(s.hot, p.releases);
    }
  }

  lemma StartPlanned(s: State, start: Evictions, cfg: Config)
    requires Inv(s, cfg) && start.keys == [] && start.releases == multiset{}
    ensures Planned(s.entries, 0, s.hot.refs, start, Held(s.kv, Hot))
  {
    assert s.entries[0..] == s.entries;
  }

  lemma NothingFreed(refs: multiset<nat>)
    ensures |Freed(refs, multiset{})| == 0
  {
    assert Freed(refs, multiset{}) == {};
  }

  lemma NoneChosen(kv: map<nat, RequestKv>, among: set<nat>)
    ensures Chosen(kv, [], among)
  {
  }

  lemma InvOrders(s: State, cfg: Config)
    requires Inv(s, cfg)
    ensures DistinctOrders(s.kv)
  {
  }

  lemma PickedFacts(kv: map<nat, RequestKv>, candidates: set<nat>, refs: multiset<nat>, p: Picking, q: Picking, more: seq<nat>)
    requires Picked(kv, candidates, refs, p, q, more)
    ensures Chosen(kv, more, candidates) && forall k :: 0 <= k < |more| ==> more[k] in kv
    ensures q.ids == p.ids + more
    ensures q.releases == p.releases + CellsOf(kv, more) && q.releases <= refs
    ensures TotalOf(kv, more) <= p.coldFree
    ensures q.deficit == p.deficit - |Freed(refs, q.releases)| + |Freed(refs, p.releases)|
  {
  }

  lemma VictimsMovable(s: State, candidates: set<nat>, slices: seq<Slice>, ids: seq<nat>, cfg: Config)
    requires candidates == Candidates(s.kv, InBatch(slices)) && Chosen(s.kv, ids, candidates) && cfg.hasCold
    ensures Movable(s, ids, true, cfg)
  {
  }

  /** Bringing the batch's cold requests back leaves room for the growth of every slice. */
  lemma SwapInsFit(s: State, s2: State, slices: seq<Slice>, victims: seq<nat>, cfg: Config) returns (s3: State)
    requires cfg.Valid() && Known(s, slices) && Inv(s2, cfg)
    requires forall i :: 0 <= i < |slices| ==> slices[i].count > 0
    requires s2.kv.Keys == s.kv.Keys && Chosen(s.kv, victims, Candidates(s.kv, InBatch(slices)))
    requires forall id :: id in s.kv && id !in victims ==> s2.kv[id] == s.kv[id]
    requires s2.hot.Free() >= Needed(s.kv, slices, cfg.blockTokens)
    ensures MigrateAll(s2, SwapIns(s.kv, slices), false) == Some(s3)
    ensures Inv(s3, cfg) && AllHot(s3, slices) && GrowthSum(s3.kv, slices, cfg) <= s3.hot.Free()
    ensures s3.kv.Keys == s.kv.Keys && s3.pendingBatch == s2.pendingBatch
  {
    hide Inv, Needed, GrowthOf, Movable, Relocated, Chosen, AllHot;
    var ids := SwapIns(s.kv, slices);
    NeededSplits(s.kv, slices, cfg);
    BatchUntouched(s, s2, slices, victims);
    SwapMovable(s, s2, slices, cfg);
    OfFrame(s.kv, s2.kv, ids);
    MigrateAllExact(s2, ids, false, cfg);
    s3 := MigrateAll(s2, ids, false).value;
    SwappedIn(s, s2, s3, slices);
    GrowthFrame(s.kv, s3.kv, slices, cfg);
  }

  lemma SwapMovable(s: State, s2: State, slices: seq<Slice>, cfg: Config)
    requires Known(s, slices) && s2.kv.Keys == s.kv.Keys
    requires forall id :: id in InBatch(slices) ==> id in s.kv && s2.kv[id] == s.kv[id]
    ensures Movable(s2, SwapIns(s.kv, slices), false, cfg)
    ensures forall k :: 0 <= k < |SwapIns(s.kv, slices)| ==>
      SwapIns(s.kv, slices)[k] in s.kv && s2.kv[SwapIns(s.kv, slices)[k]] == s.kv[SwapIns(s.kv, slices)[k]]
  {
    SwapInsChosen(s.kv, slices);
  }

  lemma SwappedIn(s: State, s2: State, s3: State, slices: seq<Slice>)
    requires Known(s, slices) && s2.kv.Keys == s.kv.Keys
    requires forall i :: 0 <= i < |slices| ==> slices[i].count > 0
    requires forall i :: 0 <= i < |slices| ==> s2.kv[slices[i].request] == s.kv[slices[i].request]
    requires Relocated(s2, s3, SwapIns(s.kv, slices), false)
    ensures AllHot(s3, slices) && s3.kv.Keys == s.kv.Keys && s3.pendingBatch == s2.pendingBatch
    ensures forall i :: 0 <= i < |slices| ==>
      && s3.kv[slices[i].request].Width() == s.kv[slices[i].request].Width()
      && s3.kv[slices[i].request].request == s.kv[slices[i].request].request
  {
    hide SwapIns, Relocated;
    SwapInsChosen(s.kv, slices);
    RelocatedKeys(s2, s3, SwapIns(s.kv, slices));
    forall i | 0 <= i < |slices|
      ensures SameRequest(s.kv[slices[i].request], s3.kv[slices[i].request]) && s3.kv[slices[i].request].tier.Hot?
    {
      BroughtBack(s2, s3, SwapIns(s.kv, slices), slices[i].request);
    }
  }

  lemma BroughtBack(s2: State, s3: State, ids: seq<nat>, id: nat)
    requires id in s2.kv && Relocated(s2, s3, ids, false) && (s2.kv[id].tier.Cold? ==> id in ids)
    ensures id in s3.kv && SameRequest(s2.kv[id], s3.kv[id]) && s3.kv[id].tier.Hot?
  {
  }

  lemma RelocatedKeys(s2: State, s3: State, ids: seq<nat>)
    requires Relocated(s2, s3, ids, false)
    ensures s3.kv.Keys == s2.kv.Keys && s3.pendingBatch == s2.pendingBatch
  {
  }

  lemma BatchUntouched(s: State, s2: State, slices: seq<Slice>, victims: seq<nat>)
    requires Known(s, slices) && s2.kv.Keys == s.kv.Keys
    requires Chosen(s.kv, victims, Candidates(s.kv, InBatch(slices)))
    requires forall id :: id in s.kv && id !in victims ==> s2.kv[id] == s.kv[id]
    ensures forall i :: 0 <= i < |slices| ==> s2.kv[slices[i].request] == s.kv[slices[i].request]
    ensures forall id :: id in InBatch(slices) ==> id in s.kv && s2.kv[id] == s.kv[id]
  {
    forall i | 0 <= i < |slices| ensures slices[i].request !in victims {
      assert slices[i].request in InBatch(slices);
    }
  }

  /** The need depends on the batch's own requests only. */
  lemma {:induction false} NeededFrame(kv: map<nat, RequestKv>, kv': map<nat, RequestKv>, slices: seq<Slice>, blockTokens: nat)
    requires blockTokens > 0
    requires forall i :: 0 <= i < |slices| ==> slices[i].request in kv && slices[i].request in kv'
    requires forall i :: 0 <= i < |slices| ==> kv'[slices[i].request] == kv[slices[i].request]
    ensures Needed(kv', slices, blockTokens) == Needed(kv, slices, blockTokens)
  {
    if slices != [] {
      NeededFrame(kv, kv', slices[1..], blockTokens);
    }
  }

  /** Planner soundness: with no other batch pending, a reservation succeeds exactly when the
      plan is feasible; it keeps all accounts and covers every slice with hot blocks. */
  lemma PlannerSound(s: State, batch: nat, slices: seq<Slice>, cfg: Config)
    requires cfg.Valid() && Inv(s, cfg)
    requires forall i :: 0 <= i < |slices| ==> slices[i].count > 0
    requires s.pendingBatch.None? || s.pendingBatch.value == batch
    ensures Reserve(s, batch, slices, cfg).Some? <==> MakePlan(s, slices, cfg).Feasible?
    ensures Reserve(s, batch, slices, cfg).Some? ==>
      var next := Reserve(s, batch, slices, cfg).value;
      && Inv(next, cfg) && next.kv.Keys == s.kv.Keys && next.pendingBatch == Some(batch)
      && (forall i :: 0 <= i < |slices| && slices[i].request in next.kv ==>
            && next.kv[slices[i].request].tier.Hot?
            && BlocksFor(slices[i].End(), cfg.blockTokens) <= next.kv[slices[i].request].Width())
  {
    hide Inv, EvictKeys, MigrateAll, ReserveAll, Reserved, Needed;
    var plan := MakePlan(s, slices, cfg);
    if plan.Feasible? {
      FeasibleMeans(s, slices, cfg);
      var s2 := VictimsMakeRoom(s, slices, cfg);
      var s3 := SwapInsFit(s, s2, slices, plan.victims, cfg);
      ReserveAllExact(s3, batch, slices, cfg);
      var s4 := ReserveAll(s3, batch, slices, cfg).value;
      ReservedMeans(s3, s4, slices, batch, cfg);
    }
  }

  lemma FeasibleMeans(s: State, slices: seq<Slice>, cfg: Config)
    requires cfg.Valid() && MakePlan(s, slices, cfg).Feasible?
    ensures Known(s, slices)
    ensures MakePlan(s, slices, cfg).needed == Needed(s.kv, slices, cfg.blockTokens)
    ensures MakePlan(s, slices, cfg).swapIn == SwapIns(s.kv, slices)
  {
  }

  lemma ReservedMeans(s: State, next: State, slices: seq<Slice>, batch: nat, cfg: Config)
    requires cfg.Valid() && Reserved(s, next, slices, cfg)
    ensures Inv(next.(pendingBatch := Some(batch)), cfg) && next.kv.Keys == s.kv.Keys
    ensures forall i :: 0 <= i < |slices| && slices[i].request in next.kv ==>
            && next.kv[slices[i].request].tier.Hot?
            && BlocksFor(slices[i].End(), cfg.blockTokens) <= next.kv[slices[i].request].Width()
  {
    assert next.(pendingBatch := Some(batch)).Cache() == next.Cache();
  }
}
