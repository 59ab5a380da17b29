/** What the planner of a reservation chooses, said without its loops: the fewest oldest idle entries,
    and then the fewest requests in the order of their last batch.
 */
module Plans {
  import opened Pools
  import opened PrefixKeys
  import opened PrefixSpec
  import opened Tables
  import opened PlacementSpec
  import opened PlacementInvariant
  import opened PlannerSoundness

  // -------------------------------------------------------------- evictions

  /** The keys of the entries whose blocks the cache alone holds, in their order. */
  ghost function Unpinned(entries: seq<Entry>, refs: multiset<nat>): seq<Key>
  {
    if entries == [] then []
    else
      var n := |entries| - 1;
      Unpinned(entries[..n], refs) + (if forall b :: b in entries[n].blocks ==> refs[b] <= 1 then [entries[n].key] else [])
  }

  /** What is still missing after the idle ones among the first n entries have gone. */
  ghost function Missing(entries: seq<Entry>, refs: multiset<nat>, deficit: int, n: nat): int
    requires n <= |entries|
  {
    deficit - |Freed(refs, KeyCells(entries, Unpinned(entries[..n], refs)))|
  }

  /** The idle ones among the fewest oldest entries that cover the deficit, or all if none do. */
  ghost predicate FewestEntries(entries: seq<Entry>, refs: multiset<nat>, deficit: int, n: nat)
  {
    && n <= |entries|
    && (forall m :: 0 <= m < n ==> Missing(entries, refs, deficit, m) > 0)
    && (n < |entries| ==> Missing(entries, refs, deficit, n) <= 0)
  }

  lemma EvictionsMean(entries: seq<Entry>, refs: multiset<nat>, deficit: int, held: multiset<nat>) returns (n: nat)
    requires DistinctKeys(entries) && EntryCells(entries) + held <= refs
    ensures var e := PlanEvictions(entries, refs, Evictions([], multiset{}, deficit));
      && FewestEntries(entries, refs, deficit, n) && e.keys == Unpinned(entries[..n], refs)
      && e.deficit == Missing(entries, refs, deficit, n) && e.releases == KeyCells(entries, e.keys) && e.releases + held <= refs
  {
    var start := Evictions([], multiset{}, deficit);
    assert entries[0..] == entries && entries[..0] == [];
    assert Freed(refs, multiset{}) == {};
    PlanEvictionsSound(entries, 0, refs, start, held);
    n := EvictionsFrom(entries, 0, refs, start, held, deficit);
  }

  lemma {:induction false} EvictionsFrom(all: seq<Entry>, i: nat, refs: multiset<nat>, acc: Evictions, held: multiset<nat>, deficit: int)
    returns (n: nat)
    requires Planned(all, i, refs, acc, held) && acc.keys == Unpinned(all[..i], refs)
    requires acc.deficit == Missing(all, refs, deficit, i)
    requires forall m :: 0 <= m < i ==> Missing(all, refs, deficit, m) > 0
    ensures var e := PlanEvictions(all[i..], refs, acc);
      && FewestEntries(all, refs, deficit, n) && e.keys == Unpinned(all[..n], refs)
      && e.deficit == Missing(all, refs, deficit, n) && e.releases == KeyCells(all, e.keys)
    decreases |all| - i
  {
    hide Planned, Freed, KeyCells, Missing;
    PlannedIs(all, i, refs, acc, held);
    var entries := all[i..];
    n := i;
    if entries != [] && acc.deficit > 0 {
      assert entries[0] == all[i] && entries[1..] == all[i + 1..] && all[..i + 1][..i] == all[..i];
      if exists b :: b in all[i].blocks && refs[b] > 1 {
        PlannedSkip(all, i, refs, acc, held);
        SameMissing(all, refs, deficit, i);
        n := EvictionsFrom(all, i + 1, refs, acc, held, deficit);
      } else {
        PlannedTake(all, i, refs, acc, held);
        var next := PlanOne(all, i, refs, acc);
        PlannedIs(all, i + 1, refs, next, held);
        MissingIs(all, refs, deficit, i, acc);
        MissingIs(all, refs, deficit, i + 1, next);
        n := EvictionsFrom(all, i + 1, refs, next, held, deficit);
      }
    }
  }

  lemma PlannedIs(all: seq<Entry>, i: nat, refs: multiset<nat>, acc: Evictions, held: multiset<nat>)
    requires Planned(all, i, refs, acc, held)
    ensures i <= |all| && acc.releases == KeyCells(all, acc.keys)
  {
  }

  lemma MissingIs(all: seq<Entry>, refs: multiset<nat>, deficit: int, i: nat, acc: Evictions)
    requires i <= |all| && acc.releases == KeyCells(all, acc.keys) && acc.keys == Unpinned(all[..i], refs)
    ensures Missing(all, refs, deficit, i) == deficit - |Freed(refs, acc.releases)|
  {
  }

  lemma SameMissing(all: seq<Entry>, refs: multiset<nat>, deficit: int, i: nat)
    requires i < |all| && exists b :: b in all[i].blocks && refs[b] > 1
    ensures Unpinned(all[..i + 1], refs) == Unpinned(all[..i], refs)
    ensures Missing(all, refs, deficit, i + 1) == Missing(all, refs, deficit, i)
  {
    assert all[..i + 1][..i] == all[..i];
  }

  // ---------------------------------------------------------------- victims

  /** The candidates by their last batch, and by their admission where that is the same. */
  ghost predicate ByAge(kv: map<nat, RequestKv>, candidates: set<nat>, order: seq<nat>)
    requires candidates <= kv.Keys
  {
    && (forall id :: id in order <==> id in candidates)
    && forall i, j :: 0 <= i < j < |order| ==>
         var a, b := kv[order[i]], kv[order[j]];
         a.lastBatch < b.lastBatch || (a.lastBatch == b.lastBatch && a.order < b.order)
  }

  lemma {:induction false} AgesOrdered(kv: map<nat, RequestKv>, candidates: set<nat>) returns (order: seq<nat>)
    requires candidates <= kv.Keys && DistinctOrders(kv)
    ensures ByAge(kv, candidates, order)
    decreases |candidates|
  {
    if candidates == {} {
      order := [];
    } else {
      var id := ColdestExists(kv, candidates);
      var rest := AgesOrdered(kv, candidates - {id});
      order := [id] + rest;
      forall j | 0 <= j < |rest| ensures rest[j] in candidates && rest[j] != id {
        assert rest[j] in rest;
      }
      hide DistinctOrders;
      assert forall c :: c in order <==> c == id || c in rest;
    }
  }

  lemma FirstIsColdest(kv: map<nat, RequestKv>, candidates: set<nat>, order: seq<nat>)
    requires candidates <= kv.Keys && ByAge(kv, candidates, order) && order != []
    ensures Coldest(kv, candidates, order[0]) && ByAge(kv, candidates - {order[0]}, order[1..])
  {
    forall c | c in candidates && c != order[0] ensures Before(kv[order[0]], kv[c]) {
      var j :| 0 <= j < |order| && order[j] == c;
    }
    assert forall c :: c in order <==> c == order[0] || c in order[1..];
    forall j | 0 <= j < |order[1..]| ensures order[1..][j] != order[0] {
      assert order[1..][j] == order[j + 1];
    }
  }

  /** What is still missing after these requests have gone as well. */
  ghost function Owed(kv: map<nat, RequestKv>, refs: multiset<nat>, p: Picking, ids: seq<nat>): int
    requires forall k :: 0 <= k < |ids| ==> ids[k] in kv
  {
    p.deficit + |Freed(refs, p.releases)| - |Freed(refs, p.releases + CellsOf(kv, ids))|
  }

  /** The first n requests in order, and no fewer, cover the deficit, and the cold pool holds them all. */
  ghost predicate Suffices(kv: map<nat, RequestKv>, refs: multiset<nat>, p: Picking, order: seq<nat>, n: nat)
    requires forall k :: 0 <= k < |order| ==> order[k] in kv
  {
    && n <= |order| && Owed(kv, refs, p, order[..n]) <= 0
    && forall m :: 0 <= m < n ==>
         Owed(kv, refs, p, order[..m]) > 0 && TotalOf(kv, order[..m]) + kv[order[m]].Total() <= p.coldFree
  }

  /** Victims are planned exactly when a first few of the candidates by age suffice, and then those. */
  lemma {:induction false} VictimsMean(kv: map<nat, RequestKv>, candidates: set<nat>, order: seq<nat>, refs: multiset<nat>, p: Picking)
    requires candidates <= kv.Keys && DistinctOrders(kv) && ByAge(kv, candidates, order)
    requires forall c :: c in candidates ==> kv[c].tier.Hot?
    requires p.releases + Held(Restrict(kv, candidates), Hot) <= refs && p.coldFree >= 0
    requires forall k :: 0 <= k < |order| ==> order[k] in kv
    ensures var r := PlanVictims(kv, candidates, refs, p);
      && (r.Some? <==> exists n: nat :: Suffices(kv, refs, p, order, n))
      && forall n: nat :: Suffices(kv, refs, p, order, n) ==> r.Some? && r.value.ids == p.ids + order[..n]
    decreases |candidates|
  {
    NothingOwed(kv, refs, p, order);
    if p.deficit > 0 {
      if order == [] {
        assert candidates == {};
        NoneSuffice(kv, refs, p, order);
      } else {
        var id := order[0];
        assert id in order;
        FirstIsColdest(kv, candidates, order);
        ColdestUnique(kv, candidates, id, ColdestOf(kv, candidates));
        if kv[id].Total() <= p.coldFree {
          VictimsRest(kv, candidates, order, refs, p);
        } else {
          NoneSuffice(kv, refs, p, order);
        }
      }
    }
  }

  lemma {:induction false} VictimsRest(kv: map<nat, RequestKv>, candidates: set<nat>, order: seq<nat>, refs: multiset<nat>, p: Picking)
    requires candidates <= kv.Keys && DistinctOrders(kv) && ByAge(kv, candidates, order) && order != []
    requires ByAge(kv, candidates - {order[0]}, order[1..]) && order[0] in candidates
    requires forall c :: c in candidates ==> kv[c].tier.Hot?
    requires p.releases + Held(Restrict(kv, candidates), Hot) <= refs && p.deficit > 0
    requires (forall k :: 0 <= k < |order| ==> order[k] in kv) && kv[order[0]].Total() <= p.coldFree
    ensures var r := PlanVictims(kv, candidates - {order[0]}, refs, PickVictim(kv, refs, order[0], p));
      && (r.Some? <==> exists n: nat :: Suffices(kv, refs, p, order, n))
      && forall n: nat :: Suffices(kv, refs, p, order, n) ==> r.Some? && r.value.ids == p.ids + order[..n]
    decreases |candidates|, 0
  {
    hide PlanVictims, PickVictim, Picked, Held, DistinctOrders, Suffices, ByAge;
    var id, rest := order[0], order[1..];
    var q := PickVictim(kv, refs, id, p);
    RestrictStep(kv, candidates, id);
    PickOne(kv, candidates, refs, id, p);
    PickedMeans(kv, candidates, refs, p, q, id);
    VictimsMean(kv, candidates - {id}, rest, refs, q);
    RestSuffices(kv, candidates, refs, p, q, order, PlanVictims(kv, candidates - {id}, refs, q));
  }

  lemma RestSuffices(kv: map<nat, RequestKv>, candidates: set<nat>, refs: multiset<nat>, p: Picking, q: Picking, order: seq<nat>,
                     r: Option<Picking>)
    requires (forall k :: 0 <= k < |order| ==> order[k] in kv) && order != [] && p.deficit > 0
    requires Picked(kv, candidates, refs, p, q, [order[0]]) && kv[order[0]].Total() <= p.coldFree
    requires r.Some? <==> exists n: nat :: Suffices(kv, refs, q, order[1..], n)
    requires forall n: nat :: Suffices(kv, refs, q, order[1..], n) ==> r.Some? && r.value.ids == q.ids + order[1..][..n]
    ensures r.Some? <==> exists n: nat :: Suffices(kv, refs, p, order, n)
    ensures forall n: nat :: Suffices(kv, refs, p, order, n) ==> r.Some? && r.value.ids == p.ids + order[..n]
  {
    hide *;
    if r.Some? {
      var n: nat :| Suffices(kv, refs, q, order[1..], n);
      OneMore(kv, candidates, refs, p, q, order, n + 1);
    }
    forall n: nat | Suffices(kv, refs, p, order, n) ensures n <= |order| && r.Some? && r.value.ids == p.ids + order[..n] {
      SomeTaken(kv, refs, p, order, n);
      OneMore(kv, candidates, refs, p, q, order, n);
      MoreIds(kv, candidates, refs, p, q, order, n);
    }
  }

  lemma MoreIds(kv: map<nat, RequestKv>, candidates: set<nat>, refs: multiset<nat>, p: Picking, q: Picking, order: seq<nat>, n: nat)
    requires 0 < n <= |order| && Picked(kv, candidates, refs, p, q, [order[0]])
    ensures q.ids + order[1..][..n - 1] == p.ids + order[..n]
  {
    assert order[..n] == [order[0]] + order[1..][..n - 1];
  }

  lemma NothingOwed(kv: map<nat, RequestKv>, refs: multiset<nat>, p: Picking, order: seq<nat>)
    requires forall k :: 0 <= k < |order| ==> order[k] in kv
    ensures order[..0] == [] && Owed(kv, refs, p, []) == p.deficit
    ensures Suffices(kv, refs, p, order, 0) <==> p.deficit <= 0
    ensures forall n: nat :: p.deficit <= 0 && Suffices(kv, refs, p, order, n) ==> n == 0
  {
    assert p.releases + multiset{} == p.releases;
    assert order[..0] == [] && Owed(kv, refs, p, []) == p.deficit;
    hide Owed;
  }

  lemma SomeTaken(kv: map<nat, RequestKv>, refs: multiset<nat>, p: Picking, order: seq<nat>, n: nat)
    requires (forall k :: 0 <= k < |order| ==> order[k] in kv) && p.deficit > 0 && Suffices(kv, refs, p, order, n)
    ensures 0 < n <= |order|
  {
    NothingOwed(kv, refs, p, order);
  }

  lemma NoneSuffice(kv: map<nat, RequestKv>, refs: multiset<nat>, p: Picking, order: seq<nat>)
    requires (forall k :: 0 <= k < |order| ==> order[k] in kv) && p.deficit > 0
    requires order == [] || kv[order[0]].Total() > p.coldFree
    ensures forall n: nat :: !Suffices(kv, refs, p, order, n)
  {
    NothingOwed(kv, refs, p, order);
    forall n: nat ensures !Suffices(kv, refs, p, order, n) {
      if n > 0 && n <= |order| {
        assert order[..0] == [] && TotalOf(kv, order[..0]) == 0;
      }
    }
  }

  /** With one request taken, the rest has to do one fewer. */
  lemma OneMore(kv: map<nat, RequestKv>, candidates: set<nat>, refs: multiset<nat>, p: Picking, q: Picking, order: seq<nat>, n: nat)
    requires (forall k :: 0 <= k < |order| ==> order[k] in kv) && order != [] && p.deficit > 0 && n > 0
    requires Picked(kv, candidates, refs, p, q, [order[0]]) && kv[order[0]].Total() <= p.coldFree
    ensures Suffices(kv, refs, p, order, n) <==> Suffices(kv, refs, q, order[1..], n - 1)
  {
    hide Picked, Suffices, Owed, TotalOf;
    var rest := order[1..];
    NothingOwed(kv, refs, p, order);
    if n <= |order| {
      TakenOwes(kv, candidates, refs, p, q, order, n - 1);
      forall m | 0 <= m < n ensures Enough(kv, refs, p, order, m) <==> m == 0 || Enough(kv, refs, q, rest, m - 1) {
        if m > 0 {
          TakenOwes(kv, candidates, refs, p, q, order, m - 1);
          assert rest[m - 1] == order[m];
        } else {
          NoTotal(kv, order);
        }
      }
      SufficesIs(kv, refs, p, order, n);
      SufficesIs(kv, refs, q, rest, n - 1);
      assert (forall m :: 0 <= m < n - 1 ==> Enough(kv, refs, q, rest, m)) <==> forall m :: 0 <= m < n ==> Enough(kv, refs, p, order, m) by {
        hide *;
        if forall m :: 0 <= m < n ==> Enough(kv, refs, p, order, m) {
          forall m | 0 <= m < n - 1 ensures Enough(kv, refs, q, rest, m) {
            assert Enough(kv, refs, p, order, m + 1);
          }
        }
      }
    } else {
      SufficesIs(kv, refs, p, order, n);
      SufficesIs(kv, refs, q, rest, n - 1);
    }
  }

  /** After m requests something is missing, and the cold pool holds one more. */
  ghost predicate Enough(kv: map<nat, RequestKv>, refs: multiset<nat>, p: Picking, order: seq<nat>, m: nat)
    requires (forall k :: 0 <= k < |order| ==> order[k] in kv) && m < |order|
  {
    Owed(kv, refs, p, order[..m]) > 0 && TotalOf(kv, order[..m]) + kv[order[m]].Total() <= p.coldFree
  }

  lemma SufficesIs(kv: map<nat, RequestKv>, refs: multiset<nat>, p: Picking, order: seq<nat>, n: nat)
    requires forall k :: 0 <= k < |order| ==> order[k] in kv
    ensures Suffices(kv, refs, p, order, n) <==>
      n <= |order| && Owed(kv, refs, p, order[..n]) <= 0 && forall m :: 0 <= m < n ==> Enough(kv, refs, p, order, m)
  {
    hide Owed, TotalOf;
    if n <= |order| && (forall m :: 0 <= m < n ==> Enough(kv, refs, p, order, m)) {
      forall m | 0 <= m < n ensures Owed(kv, refs, p, order[..m]) > 0 && TotalOf(kv, order[..m]) + kv[order[m]].Total() <= p.coldFree {
        assert Enough(kv, refs, p, order, m);
      }
    }
  }

  lemma NoTotal(kv: map<nat, RequestKv>, order: seq<nat>)
    requires forall k :: 0 <= k < |order| ==> order[k] in kv
    ensures TotalOf(kv, order[..0]) == 0
  {
    assert order[..0] == [] && TotalOf(kv, []) == 0;
  }

  lemma TakenOwes(kv: map<nat, RequestKv>, candidates: set<nat>, refs: multiset<nat>, p: Picking, q: Picking, order: seq<nat>, m: nat)
    requires (forall k :: 0 <= k < |order| ==> order[k] in kv) && order != [] && m < |order|
    requires Picked(kv, candidates, refs, p, q, [order[0]])
    ensures Owed(kv, refs, p, order[..m + 1]) == Owed(kv, refs, q, order[1..][..m])
    ensures TotalOf(kv, order[..m + 1]) - p.coldFree == TotalOf(kv, order[1..][..m]) - q.coldFree
  {
    var rest := order[1..][..m];
    assert order[..m + 1] == [order[0]] + rest;
    FirstOwes(kv, candidates, refs, p, q, order[0], rest);
  }

  lemma FirstOwes(kv: map<nat, RequestKv>, candidates: set<nat>, refs: multiset<nat>, p: Picking, q: Picking, id: nat, rest: seq<nat>)
    requires id in kv && (forall k :: 0 <= k < |rest| ==> rest[k] in kv) && Picked(kv, candidates, refs, p, q, [id])
    ensures (forall k :: 0 <= k < |[id] + rest| ==> ([id] + rest)[k] in kv) && Owed(kv, refs, p, [id] + rest) == Owed(kv, refs, q, rest)
    ensures TotalOf(kv, [id] + rest) - p.coldFree == TotalOf(kv, rest) - q.coldFree
  {
    FirstOf(kv, id, rest);
    FirstOf(kv, id, []);
    OneTotal(kv, id);
    hide Freed, CellsOf, TotalOf;
    assert [id] + [] == [id];
    assert p.releases + (Cells(kv[id].table) + CellsOf(kv, rest)) == (p.releases + Cells(kv[id].table)) + CellsOf(kv, rest);
  }

  lemma OneTotal(kv: map<nat, RequestKv>, id: nat)
    requires id in kv
    ensures TotalOf(kv, [id]) == kv[id].Total() && CellsOf(kv, [id]) == Cells(kv[id].table)
  {
    assert [id][1..] == [];
  }

  // --------------------------------------------------------------- the plan

  /** What planning has come to when the first n entries are dealt with. */
  ghost function AfterEntries(s: State, deficit: int, n: nat): Picking
    requires n <= |s.entries|
  {
    Picking([], KeyCells(s.entries, Unpinned(s.entries[..n], s.hot.refs)), Missing(s.entries, s.hot.refs, deficit, n), s.cold.Free())
  }

  ghost predicate InPlace(kv: map<nat, RequestKv>, order: seq<nat>)
  {
    forall k :: 0 <= k < |order| ==> order[k] in kv
  }

  ghost predicate SomeSuffice(s: State, p: Picking, order: seq<nat>)
    requires InPlace(s.kv, order)
  {
    exists v: nat :: Suffices(s.kv, s.hot.refs, p, order, v)
  }

  /** Exactly the fewest requests by age that suffice. */
  ghost predicate FewestRequests(s: State, p: Picking, order: seq<nat>, victims: seq<nat>)
    requires InPlace(s.kv, order)
  {
    exists v: nat :: Suffices(s.kv, s.hot.refs, p, order, v) && victims == order[..v]
  }

  /** When a plan exists, and which entries and requests go. */
  ghost predicate Chooses(s: State, plan: Plan, p: Picking, order: seq<nat>, hasCold: bool, keys: seq<Key>)
    requires InPlace(s.kv, order)
  {
    && (plan.Feasible? <==> p.deficit <= 0 || (hasCold && SomeSuffice(s, p, order)))
    && (plan.Feasible? ==>
          && plan.evictions == keys
          && if p.deficit <= 0 then plan.victims == [] else FewestRequests(s, p, order, plan.victims))
  }

  /** The plan of a batch: the fewest oldest idle entries go, and if these are not enough the fewest
      requests outside the batch, by age; there is none exactly when these do not suffice either. */
  lemma PlanMeans(s: State, slices: seq<Slice>, cfg: Config) returns (n: nat, order: seq<nat>)
    requires cfg.Valid() && Inv(s, cfg) && Known(s, slices)
    ensures var deficit := Needed(s.kv, slices, cfg.blockTokens) - s.hot.Free();
      && FewestEntries(s.entries, s.hot.refs, deficit, n)
      && ByAge(s.kv, Candidates(s.kv, InBatch(slices)), order) && InPlace(s.kv, order)
      && Chooses(s, MakePlan(s, slices, cfg), AfterEntries(s, deficit, n), order, cfg.hasCold, Unpinned(s.entries[..n], s.hot.refs))
  {
    hide Inv, Needed, PlanVictims, Suffices, FewestEntries, Missing, Unpinned, KeyCells, Held, Freed, ByAge, MakePlan, PlanEvictions,
      SomeSuffice, FewestRequests;
    var refs, candidates := s.hot.refs, Candidates(s.kv, InBatch(slices));
    var deficit := Needed(s.kv, slices, cfg.blockTokens) - s.hot.Free();
    CacheParts(s, cfg);
    n := EvictionsMean(s.entries, refs, deficit, Held(s.kv, Hot));
    order := AgesOrdered(s.kv, candidates);
    AgedIn(s.kv, candidates, order);
    var e := PlanEvictions(s.entries, refs, Evictions([], multiset{}, deficit));
    var p := Picking([], e.releases, e.deficit, s.cold.Free());
    PlanIs(s, slices, cfg, deficit);
    if e.deficit > 0 {
      RestrictLess(s.kv, candidates);
      VictimsMean(s.kv, candidates, order, refs, p);
      VictimsChosen(s, candidates, p, order);
    }
  }

  lemma PlanIs(s: State, slices: seq<Slice>, cfg: Config, deficit: int)
    requires cfg.Valid() && Known(s, slices) && deficit == Needed(s.kv, slices, cfg.blockTokens) - s.hot.Free()
    ensures
      var e := PlanEvictions(s.entries, s.hot.refs, Evictions([], multiset{}, deficit));
      var r := PlanVictims(s.kv, Candidates(s.kv, InBatch(slices)), s.hot.refs, Picking([], e.releases, e.deficit, s.cold.Free()));
      var plan := MakePlan(s, slices, cfg);
      && (plan.Feasible? <==> e.deficit <= 0 || (cfg.hasCold && r.Some?))
      && (plan.Feasible? ==> plan.evictions == e.keys && plan.victims == if e.deficit <= 0 then [] else r.value.ids)
  {
    hide PlanEvictions, PlanVictims, Needed, SwapIns;
  }

  lemma VictimsChosen(s: State, candidates: set<nat>, p: Picking, order: seq<nat>)
    requires candidates <= s.kv.Keys && InPlace(s.kv, order) && p.ids == []
    requires var r := PlanVictims(s.kv, candidates, s.hot.refs, p);
      && (r.Some? <==> exists n: nat :: Suffices(s.kv, s.hot.refs, p, order, n))
      && forall n: nat :: Suffices(s.kv, s.hot.refs, p, order, n) ==> r.Some? && r.value.ids == p.ids + order[..n]
    ensures var r := PlanVictims(s.kv, candidates, s.hot.refs, p);
      && (r.Some? <==> SomeSuffice(s, p, order)) && (r.Some? ==> FewestRequests(s, p, order, r.value.ids))
  {
    hide PlanVictims, Suffices;
    if SomeSuffice(s, p, order) {
      var v: nat :| Suffices(s.kv, s.hot.refs, p, order, v);
      SufficesBound(s, p, order, v);
      assert [] + order[..v] == order[..v];
    }
  }

  lemma SufficesBound(s: State, p: Picking, order: seq<nat>, v: nat)
    requires InPlace(s.kv, order) && Suffices(s.kv, s.hot.refs, p, order, v)
    ensures v <= |order|
  {
  }

  lemma AgedIn(kv: map<nat, RequestKv>, candidates: set<nat>, order: seq<nat>)
    requires candidates <= kv.Keys && ByAge(kv, candidates, order)
    ensures InPlace(kv, order)
  {
    forall k | 0 <= k < |order| ensures order[k] in kv {
      assert order[k] in order;
    }
  }

  lemma CacheParts(s: State, cfg: Config)
    requires Inv(s, cfg)
    ensures DistinctKeys(s.entries) && EntryCells(s.entries) + Held(s.kv, Hot) <= s.hot.refs && DistinctOrders(s.kv)
    ensures s.cold.Free() >= 0
  {
    hide Held;
  }
}
