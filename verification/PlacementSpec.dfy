/** KV placement as functions on its state: two block pools, the block table of every
    live request, and the prefix cache inside the hot pool.
 */
module PlacementSpec {
  import opened Pools
  import opened PrefixKeys
  import opened PrefixSpec
  import opened Tables

  datatype Config = Config(blockTokens: nat, budget: Budget, hasCold: bool)
  {
    ghost predicate Valid()
    {
      blockTokens > 0 && budget.blockBytes > 0
    }

    predicate Caching()
    {
      budget.capacityBytes > 0
    }
  }

  datatype Tier = Hot | Cold

  datatype RequestKv = RequestKv(
    request: Request, order: nat, tier: Tier, table: Table, lastBatch: int, keys: seq<Key>, hitTokens: nat)
  {
    function Width(): nat
    {
      if table == [] then 0 else |table[0]|
    }

    function Total(): nat
    {
      Times(Width(), request.model.layers)
    }
  }

  function Times(a: nat, b: nat): nat
  {
    a * b
  }

  datatype Migration = Migration(toCold: bool, request: nat, source: Table, destination: Table)

  datatype State = State(
    hot: Pool, cold: Pool, kv: map<nat, RequestKv>, entries: seq<Entry>, bytes: int,
    nextOrder: nat, migrations: seq<Migration>, pendingBatch: Option<nat>)
  {
    ghost function Cache(): Prefix
    {
      Prefix(hot, entries, bytes)
    }

    ghost function WithCache(p: Prefix): State
    {
      this.(hot := p.pool, entries := p.entries, bytes := p.bytes)
    }

    ghost function With(id: nat, st: RequestKv): State
    {
      this.(kv := kv[id := st])
    }
  }

  datatype Slice = Slice(request: nat, begin: nat, count: nat)
  {
    function End(): nat
    {
      begin + count
    }
  }

  function BlocksFor(tokens: nat, blockTokens: nat): nat
    requires blockTokens > 0
  {
    (tokens + blockTokens - 1) / blockTokens
  }

  function Grow(st: RequestKv, end: nat, blockTokens: nat): nat
    requires blockTokens > 0
  {
    var wanted := BlocksFor(end, blockTokens);
    if wanted > st.Width() then wanted - st.Width() else 0
  }

  // ------------------------------------------------------- allocation by rows

  datatype Rows = NoRows | Rows(pool: Pool, table: Table)

  /** One allocation per layer, each of the lowest free blocks, until one fails. */
  ghost function AllocateRows(pool: Pool, layers: nat, width: nat): Rows
    decreases layers
  {
    if layers == 0 then Rows(pool, [])
    else if width > pool.Free() then NoRows
    else
      match AllocateRows(pool.Take(width), layers - 1, width)
      case NoRows => NoRows
      case Rows(after, rest) => Rows(after, [pool.Lowest(width)] + rest)
  }

  /** Row-wise allocation succeeds exactly when all rows together fit, and takes fresh blocks. */
  lemma {:induction false} AllocateRowsExact(pool: Pool, layers: nat, width: nat)
    requires pool.Valid()
    ensures var rows := AllocateRows(pool, layers, width);
      && (rows.Rows? <==> Times(width, layers) <= pool.Free())
      && (rows.Rows? ==>
           && Rectangular(rows.table, layers, width)
           && rows.pool.Valid() && rows.pool.capacity == pool.capacity
           && rows.pool.refs == pool.refs + Cells(rows.table)
           && rows.pool.Free() == pool.Free() - Times(width, layers)
           && (forall b :: b in Cells(rows.table) ==> b !in pool.refs && rows.pool.refs[b] == 1))
    decreases layers
  {
    if layers > 0 {
      RowTimes(width, layers);
      if width <= pool.Free() {
        pool.TakeKeeps(width);
        var next := pool.Take(width);
        AllocateRowsExact(next, layers - 1, width);
        var row := pool.Lowest(width);
        var rest := AllocateRows(next, layers - 1, width);
        if rest.Rows? {
          var rows := AllocateRows(pool, layers, width);
          assert rows.table[0] == row && rows.table[1..] == rest.table;
          RowsFresh(pool, next, row, rest.table, rest.pool);
        }
      }
    }
  }

  lemma RowTimes(width: nat, layers: nat)
    requires layers > 0
    ensures Times(width, layers) == width + Times(width, layers - 1)
    ensures Times(width, 0) == 0
  {
    assert width * layers == width + width * (layers - 1);
  }

  lemma RowsFresh(pool: Pool, next: Pool, row: seq<nat>, rest: Table, after: Pool)
    requires next.refs == pool.refs + multiset(row)
    requires after.refs == next.refs + Cells(rest)
    requires forall b :: b in row ==> b !in pool.refs && next.refs[b] == 1
    requires forall b :: b in Cells(rest) ==> b !in next.refs && after.refs[b] == 1
    ensures after.refs == pool.refs + Cells([row] + rest)
    ensures forall b :: b in Cells([row] + rest) ==> b !in pool.refs && after.refs[b] == 1
  {
    assert ([row] + rest)[1..] == rest;
    forall b | b in row ensures b !in Cells(rest) {
      assert b in next.refs;
    }
  }

  // --------------------------------------------------------------- planning

  datatype Reclaim = Reclaim(count: nat, releases: multiset<nat>)

  /** Counts the blocks whose last reference goes when the listed ones are dropped. */
  ghost function Reclaimed(blocks: seq<nat>, refs: multiset<nat>, releases: multiset<nat>): Reclaim
  {
    if blocks == [] then Reclaim(0, releases)
    else
      var more := releases + multiset{blocks[0]};
      var rest := Reclaimed(blocks[1..], refs, more);
      Reclaim(rest.count + (if more[blocks[0]] == refs[blocks[0]] then 1 else 0), rest.releases)
  }

  function Flatten(table: Table): seq<nat>
  {
    if table == [] then [] else table[0] + Flatten(table[1..])
  }

  datatype Evictions = Evictions(keys: seq<Key>, releases: multiset<nat>, deficit: int)

  /** Unpinned entries, oldest first, until the deficit is covered. */
  ghost function PlanEvictions(entries: seq<Entry>, refs: multiset<nat>, acc: Evictions): Evictions
    decreases |entries|
  {
    if entries == [] || acc.deficit <= 0 then acc
    else
      var e := entries[0];
      if exists b :: b in e.blocks && refs[b] > 1 then PlanEvictions(entries[1..], refs, acc)
      else
        var r := Reclaimed(e.blocks, refs, acc.releases);
        PlanEvictions(entries[1..], refs, Evictions(acc.keys + [e.key], r.releases, acc.deficit - r.count))
  }

  predicate Before(a: RequestKv, b: RequestKv)
  {
    a.lastBatch < b.lastBatch || (a.lastBatch == b.lastBatch && a.order < b.order)
  }

  /** The coldest candidate: least recently batched, then first admitted. */
  ghost predicate Coldest(kv: map<nat, RequestKv>, candidates: set<nat>, id: nat)
    requires candidates <= kv.Keys
  {
    id in candidates && forall c :: c in candidates && c != id ==> Before(kv[id], kv[c])
  }

  ghost predicate DistinctOrders(kv: map<nat, RequestKv>)
  {
    forall a, b :: a in kv && b in kv && a != b ==> kv[a].order != kv[b].order
  }

  lemma {:induction false} ColdestExists(kv: map<nat, RequestKv>, candidates: set<nat>) returns (id: nat)
    requires candidates <= kv.Keys && candidates != {} && DistinctOrders(kv)
    ensures Coldest(kv, candidates, id)
    decreases |candidates|
  {
    id :| id in candidates;
    if candidates != {id} {
      var other := ColdestExists(kv, candidates - {id});
      if Before(kv[other], kv[id]) {
        id := other;
      }
    }
  }

  ghost function ColdestOf(kv: map<nat, RequestKv>, candidates: set<nat>): (id: nat)
    requires candidates <= kv.Keys && exists c :: Coldest(kv, candidates, c)
    ensures Coldest(kv, candidates, id)
  {
    var id :| Coldest(kv, candidates, id);
    id
  }

  /** At most one candidate is the coldest, so the choice is determined. */
  lemma ColdestUnique(kv: map<nat, RequestKv>, candidates: set<nat>, a: nat, b: nat)
    requires candidates <= kv.Keys && Coldest(kv, candidates, a) && Coldest(kv, candidates, b)
    ensures a == b
  {
  }

  /** Victims chosen so far, what their release frees, and the cold room left for more. */
  datatype Picking = Picking(ids: seq<nat>, releases: multiset<nat>, deficit: int, coldFree: int)

  ghost function PickVictim(kv: map<nat, RequestKv>, refs: multiset<nat>, id: nat, p: Picking): Picking
    requires id in kv
  {
    var r := Reclaimed(Flatten(kv[id].table), refs, p.releases);
    Picking(p.ids + [id], r.releases, p.deficit - r.count, p.coldFree - kv[id].Total())
  }

  /** The coldest candidates in turn until the deficit is covered; None when that fails. */
  ghost function PlanVictims(kv: map<nat, RequestKv>, candidates: set<nat>, refs: multiset<nat>, p: Picking): Option<Picking>
    requires candidates <= kv.Keys
    decreases |candidates|
  {
    if p.deficit <= 0 then Some(p)
    else if candidates == {} || !(exists id :: Coldest(kv, candidates, id)) then None
    else
      var id := ColdestOf(kv, candidates);
      if kv[id].Total() > p.coldFree then None
      else PlanVictims(kv, candidates - {id}, refs, PickVictim(kv, refs, id, p))
  }

  function InBatch(slices: seq<Slice>): set<nat>
  {
    set i | 0 <= i < |slices| :: slices[i].request
  }

  ghost predicate Known(s: State, slices: seq<Slice>)
  {
    && (forall i :: 0 <= i < |slices| ==> slices[i].request in s.kv)
    && (forall i, j :: 0 <= i < j < |slices| ==> slices[i].request != slices[j].request)
  }

  ghost function Needed(kv: map<nat, RequestKv>, slices: seq<Slice>, blockTokens: nat): nat
    requires blockTokens > 0
    requires forall i :: 0 <= i < |slices| ==> slices[i].request in kv
  {
    if slices == [] then 0
    else
      var st := kv[slices[0].request];
      Times(Grow(st, slices[0].End(), blockTokens), st.request.model.layers)
      + (if st.tier.Cold? then st.Total() else 0)
      + Needed(kv, slices[1..], blockTokens)
  }

  ghost function SwapIns(kv: map<nat, RequestKv>, slices: seq<Slice>): seq<nat>
    requires forall i :: 0 <= i < |slices| ==> slices[i].request in kv
  {
    if slices == [] then []
    else
      var first := slices[0].request;
      (if kv[first].tier.Cold? then [first] else []) + SwapIns(kv, slices[1..])
  }

  function Candidates(kv: map<nat, RequestKv>, inBatch: set<nat>): set<nat>
  {
    set id | id in kv && kv[id].tier.Hot? && kv[id].Width() > 0 && id !in inBatch
  }

  datatype Plan =
    | Invalid
    | Infeasible
    | Feasible(needed: nat, swapIn: seq<nat>, victims: seq<nat>, evictions: seq<Key>)

  ghost function MakePlan(s: State, slices: seq<Slice>, cfg: Config): Plan
    requires cfg.Valid()
  {
    if !Known(s, slices) then Invalid
    else
      var needed := Needed(s.kv, slices, cfg.blockTokens);
      var e := PlanEvictions(s.entries, s.hot.refs, Evictions([], multiset{}, needed - s.hot.Free()));
      if e.deficit <= 0 then Feasible(needed, SwapIns(s.kv, slices), [], e.keys)
      else if !cfg.hasCold then Infeasible
      else
        match PlanVictims(s.kv, Candidates(s.kv, InBatch(slices)), s.hot.refs,
                          Picking([], e.releases, e.deficit, s.cold.Free()))
        case None => Infeasible
        case Some(p) => Feasible(needed, SwapIns(s.kv, slices), p.ids, e.keys)
  }

  // -------------------------------------------------------------- execution

  ghost function Migrate(s: State, id: nat, toCold: bool): Option<State>
  {
    if id !in s.kv || s.kv[id].tier.Cold? == toCold then None
    else
      var st := s.kv[id];
      var source, target := if toCold then s.hot else s.cold, if toCold then s.cold else s.hot;
      match AllocateRows(target, |st.table|, st.Width())
      case NoRows => None
      case Rows(after, table) =>
        if !(Cells(st.table) <= source.refs) then None
        else
          var before := source.Release(Cells(st.table));
          Some(s.(hot := if toCold then before else after,
                  cold := if toCold then after else before,
                  kv := s.kv[id := st.(table := table, tier := if toCold then Cold else Hot)],
                  migrations := s.migrations + [Migration(toCold, id, st.table, table)]))
  }

  ghost function MigrateAll(s: State, ids: seq<nat>, toCold: bool): Option<State>
    decreases |ids|
  {
    if ids == [] then Some(s)
    else
      match Migrate(s, ids[0], toCold)
      case None => None
      case Some(next) => MigrateAll(next, ids[1..], toCold)
  }

  ghost function EvictKeys(s: State, keys: seq<Key>, cfg: Config): Option<State>
    decreases |keys|
  {
    if keys == [] then Some(s)
    else
      var i := Find(s.entries, keys[0]);
      if i == |s.entries| then None
      else EvictKeys(s.WithCache(Evict(s.Cache(), i, cfg.budget)), keys[1..], cfg)
  }

  function Appended(table: Table, more: Table): Table
    requires |table| == |more|
  {
    seq(|table|, l requires 0 <= l < |table| => table[l] + more[l])
  }

  function Empty(layers: nat): Table
  {
    seq(layers, _ => [])
  }

  function Min(a: nat, b: nat): nat
  {
    if a < b then a else b
  }

  /** Grows one block table, one allocation per layer. */
  ghost function GrowTable(s: State, id: nat, grow: nat): Option<State>
    requires id in s.kv
  {
    var st := s.kv[id];
    if grow == 0 then Some(s)
    else
      var table := if st.table == [] then Empty(st.request.model.layers) else st.table;
      match AllocateRows(s.hot, |table|, grow)
      case NoRows => None
      case Rows(pool, more) =>
        if |more| != |table| then None
        else Some(s.(hot := pool).With(id, st.(table := Appended(table, more))))
  }

  ghost function PublishFor(s: State, id: nat, end: nat, now: nat, pending: bool, cfg: Config): Option<State>
    requires id in s.kv && cfg.Valid()
  {
    var st := s.kv[id];
    var complete := Min(end, st.request.promptTokens) / cfg.blockTokens;
    if !(forall l :: 0 <= l < |st.table| ==> complete <= |st.table[l]|) then None
    else Some(s.WithCache(Publish(s.Cache(), st.keys, st.table, complete, now, pending, cfg.budget)))
  }

  ghost function ReserveOne(s: State, batch: nat, slice: Slice, cfg: Config): Option<State>
    requires cfg.Valid()
  {
    if slice.request !in s.kv then None
    else
      match GrowTable(s, slice.request, Grow(s.kv[slice.request], slice.End(), cfg.blockTokens))
      case None => None
      case Some(grown) =>
        if slice.request !in grown.kv then None
        else
          var st := grown.kv[slice.request].(lastBatch := batch);
          var marked := grown.With(slice.request, st);
          if cfg.Caching() && st.tier.Hot?
          then PublishFor(marked, slice.request, slice.End(), st.request.arrival, true, cfg)
          else Some(marked)
  }

  ghost function ReserveAll(s: State, batch: nat, slices: seq<Slice>, cfg: Config): Option<State>
    requires cfg.Valid()
    decreases |slices|
  {
    if slices == [] then Some(s)
    else
      match ReserveOne(s, batch, slices[0], cfg)
      case None => None
      case Some(next) => ReserveAll(next, batch, slices[1..], cfg)
  }

  /** None stands for every HBServeError the reservation can raise. */
  ghost function Reserve(s: State, batch: nat, slices: seq<Slice>, cfg: Config): Option<State>
    requires cfg.Valid()
  {
    if s.pendingBatch.Some? && s.pendingBatch.value != batch then None
    else
      match MakePlan(s, slices, cfg)
      case Invalid => None
      case Infeasible => None
      case Feasible(_, swapIn, victims, evictions) =>
        match EvictKeys(s, evictions, cfg)
        case None => None
        case Some(s1) =>
          match MigrateAll(s1, victims, true)
          case None => None
          case Some(s2) =>
            match MigrateAll(s2, swapIn, false)
            case None => None
            case Some(s3) =>
              match ReserveAll(s3, batch, slices, cfg)
              case None => None
              case Some(s4) => Some(s4.(pendingBatch := Some(batch)))
  }

  /** Column k of the hits becomes row k of the table. */
  ghost function HitTable(found: seq<seq<nat>>, layers: nat): Option<Table>
  {
    if found == [] then Some([])
    else if !(forall i :: 0 <= i < |found| ==> layers <= |found[i]|) then None
    else Some(seq(layers, l requires 0 <= l < layers => seq(|found|, i requires 0 <= i < |found| => found[i][l])))
  }

  ghost function Admit(s: State, request: Request, keys: seq<Key>, now: nat, cfg: Config): Option<State>
    requires cfg.Valid() && request.Valid()
  {
    if request.id in s.kv then Some(s)
    else if !cfg.Caching() || request.tokens.None? then
      Some(s.(kv := s.kv[request.id := RequestKv(request, s.nextOrder, Hot, [], -1, [], 0)],
              nextOrder := s.nextOrder + 1))
    else
      var hits := Lookup(s.Cache(), keys, (request.promptTokens - 1) / cfg.blockTokens, now, cfg.budget);
      match HitTable(hits.found, request.model.layers)
      case None => None
      case Some(table) =>
        var st := RequestKv(request, s.nextOrder, Hot, table, -1, keys, |hits.found| * cfg.blockTokens);
        Some(s.WithCache(hits.p).(kv := s.kv[request.id := st], nextOrder := s.nextOrder + 1))
  }

  ghost function CompleteFrom(s: State, slices: seq<Slice>, finish: nat, cfg: Config): Option<State>
    requires cfg.Valid()
    decreases |slices|
  {
    if slices == [] then Some(s)
    else if slices[0].request !in s.kv then None
    else
      match PublishFor(s, slices[0].request, slices[0].End(), finish, false, cfg)
      case None => None
      case Some(next) => CompleteFrom(next, slices[1..], finish, cfg)
  }

  ghost function Complete(s: State, slices: seq<Slice>, finish: nat, cfg: Config): Option<State>
    requires cfg.Valid()
  {
    if !cfg.Caching() then Some(s) else CompleteFrom(s, slices, finish, cfg)
  }

  datatype Preempted = SwapOut | Recompute

  datatype PreemptResult = Refused | Preempted(state: State, mode: Preempted)

  ghost function Preempt(s: State, id: nat, cfg: Config): PreemptResult
  {
    if id !in s.kv || s.kv[id].tier.Cold? || s.kv[id].Total() == 0 then Refused
    else
      var st := s.kv[id];
      if cfg.hasCold && s.cold.Free() >= st.Total() then
        match Migrate(s, id, true)
        case None => Refused
        case Some(next) => Preempted(next, SwapOut)
      else if !(Cells(st.table) <= s.hot.refs) then Refused
      else Preempted(s.(hot := s.hot.Release(Cells(st.table))).With(id, st.(table := [])), Recompute)
  }

  ghost function Release(s: State, id: nat): Option<State>
  {
    if id !in s.kv then None
    else
      var st := s.kv[id];
      var pool := if st.tier.Hot? then s.hot else s.cold;
      if !(Cells(st.table) <= pool.refs) then None
      else
        var after := pool.Release(Cells(st.table));
        if st.tier.Hot? then
          var freed := s.(hot := after, kv := s.kv - {id});
          Some(freed.WithCache(ReleaseOrder(freed.Cache(), st.keys)))
        else Some(s.(cold := after, kv := s.kv - {id}))
  }
}
