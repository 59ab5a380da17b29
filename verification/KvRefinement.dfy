/** Paged two-tier storage refines one flat array of KV values per request.

    The world holds the blocks' contents as the last executed batch left them, plus what
    is decided but not executed yet: pending migrations and the writes of the reserved
    slices.  Reading any token below a request's frontier through its block table yields
    the KV value of that token, and a published prefix block always holds the value its
    key stands for.
 */
module KvRefinement {
  import opened PrefixKeys
  import opened PrefixSpec
  import opened PrefixProvenance
  import opened Tables
  import opened PlacementSpec
  import opened PlacementInvariant
  import opened PlannerSoundness
  import opened KvMemory

  ghost function Future(s: State, mems: Mems, reserved: seq<Slice>, cfg: Config): Mems
  {
    var moved := ApplyAll(mems, s.migrations);
    Mems(WriteAll(moved.hot, s.kv, reserved, cfg.blockTokens), moved.cold)
  }

  /** Every block table covers the request's frontier, which stays within its lifetime. */
  ghost predicate Covering(s: State, frontier: map<nat, nat>, cfg: Config)
  {
    && frontier.Keys == s.kv.Keys
    && forall id :: id in s.kv ==>
         frontier[id] <= Span(s.kv[id].Width(), cfg.blockTokens) && frontier[id] <= s.kv[id].request.Lifetime()
  }

  /** The token of slot w of a layer's block o is in memory. */
  ghost predicate TokenAt(st: RequestKv, memory: Memory, blockTokens: nat, l: nat, o: nat, w: nat)
    requires l < |st.table| && o < |st.table[l]|
  {
    Stored(memory, st.table[l][o], w, st.request.model.TokenBytes(l), KvOf(st.request, l, Span(o, blockTokens) + w))
  }

  ghost predicate ReadsRight(st: RequestKv, frontier: nat, memory: Memory, blockTokens: nat)
  {
    forall l, o, w :: 0 <= l < |st.table| && 0 <= o < |st.table[l]| && 0 <= w < blockTokens
        && Span(o, blockTokens) + w < frontier
      ==> TokenAt(st, memory, blockTokens, l, o, w)
  }

  ghost predicate AllRead(s: State, frontier: map<nat, nat>, mems: Mems, cfg: Config)
    requires frontier.Keys == s.kv.Keys
  {
    forall id :: id in s.kv ==> ReadsRight(s.kv[id], frontier[id], mems.Of(s.kv[id].tier), cfg.blockTokens)
  }

  ghost predicate BlocksHold(key: Key, blocks: seq<nat>, memory: Memory, blockTokens: nat)
  {
    forall l, w :: 0 <= l < |blocks| && 0 <= w < blockTokens ==>
      Stored(memory, blocks[l], w, KeyModel(key).TokenBytes(l), KeyContent(key, l, blockTokens, w))
  }

  ghost predicate EntriesHold(entries: seq<Entry>, memory: Memory, cfg: Config)
  {
    forall i :: 0 <= i < |entries| ==> BlocksHold(entries[i].key, entries[i].blocks, memory, cfg.blockTokens)
  }

  /** Block o of a layer still awaits some of its tokens. */
  ghost predicate Unfinished(st: RequestKv, frontier: nat, blockTokens: nat, l: nat, o: nat)
  {
    l < |st.table| && o < |st.table[l]| && Span(o + 1, blockTokens) > frontier
  }

  /** A block that still awaits tokens has no other holder. */
  ghost predicate Exclusive(s: State, frontier: map<nat, nat>, cfg: Config)
    requires frontier.Keys == s.kv.Keys
  {
    forall id: nat, l: nat, o: nat :: id in s.kv && s.kv[id].tier.Hot? && Unfinished(s.kv[id], frontier[id], cfg.blockTokens, l, o)
      ==> s.hot.refs[s.kv[id].table[l][o]] == 1
  }

  /** Requests outside the batch hold none of the blocks it will write. */
  ghost predicate Clean(s: State, reserved: seq<Slice>, exempt: set<nat>, cfg: Config)
  {
    forall id, b :: id in s.kv && s.kv[id].tier.Hot? && id !in InBatch(reserved) && id !in exempt && b in Cells(s.kv[id].table)
      ==> b !in Dirty(s.kv, reserved, cfg.blockTokens)
  }

  ghost predicate BatchOk(s: State, frontier: map<nat, nat>, reserved: seq<Slice>)
    requires frontier.Keys == s.kv.Keys
  {
    forall i :: 0 <= i < |reserved| ==>
      reserved[i].request in s.kv && s.kv[reserved[i].request].tier.Hot? && reserved[i].End() <= frontier[reserved[i].request]
  }

  ghost predicate Good(s: State, mems: Mems, frontier: map<nat, nat>, reserved: seq<Slice>, exempt: set<nat>, cfg: Config)
  {
    && Inv(s, cfg) && Covering(s, frontier, cfg)
    && AllRead(s, frontier, Future(s, mems, reserved, cfg), cfg)
    && EntriesHold(s.entries, Future(s, mems, reserved, cfg).hot, cfg)
    && Exclusive(s, frontier, cfg)
    && Clean(s, reserved, exempt, cfg)
    && BatchOk(s, frontier, reserved)
  }

  // ------------------------------------------------------------ basic facts

  /** A block of count one that a table cell names is named by nothing else. */
  lemma UnsharedMeans(s: State, cfg: Config, id: nat, l: nat, o: nat)
    requires Inv(s, cfg) && id in s.kv && s.kv[id].tier.Hot?
    requires l < |s.kv[id].table| && o < |s.kv[id].table[l]| && s.hot.refs[s.kv[id].table[l][o]] == 1
    ensures var b := s.kv[id].table[l][o];
      && b !in EntryCells(s.entries) && Held(s.kv, Hot)[b] == 1
      && (forall id' :: id' in s.kv && s.kv[id'].tier.Hot? && b in Cells(s.kv[id'].table) ==> id' == id)
  {
    var b := s.kv[id].table[l][o];
    CellHeld(s.kv, id, l, o);
    HeldSplit(s.kv, id, Hot);
    CellIn(s.kv[id].table, l, o);
    forall id' | id' in s.kv && s.kv[id'].tier.Hot? && b in Cells(s.kv[id'].table) ensures id' == id {
      if id' != id {
        HeldSplit(s.kv - {id}, id', Hot);
      }
    }
  }

  /** Nor does any other cell of the same table name it. */
  lemma UnsharedCell(s: State, cfg: Config, id: nat, l: nat, o: nat, l': nat, o': nat)
    requires Inv(s, cfg) && id in s.kv && s.kv[id].tier.Hot?
    requires l < |s.kv[id].table| && o < |s.kv[id].table[l]| && s.hot.refs[s.kv[id].table[l][o]] == 1
    requires l' < |s.kv[id].table| && o' < |s.kv[id].table[l']| && s.kv[id].table[l'][o'] == s.kv[id].table[l][o]
    ensures l == l' && o == o'
  {
    UnsharedMeans(s, cfg, id, l, o);
    HeldSplit(s.kv, id, Hot);
    if l < l' || (l == l' && o < o') {
      CellTwice(s.kv[id].table, l, o, l', o');
    } else if l' < l || o' < o {
      CellTwice(s.kv[id].table, l', o', l, o);
    }
  }

  /** A held block's count is at least one. */
  lemma HeldCounts(s: State, cfg: Config, id: nat, l: nat, o: nat)
    requires Inv(s, cfg) && id in s.kv && s.kv[id].tier.Hot?
    requires l < |s.kv[id].table| && o < |s.kv[id].table[l]|
    ensures s.hot.refs[s.kv[id].table[l][o]] >= 1
  {
    CellHeld(s.kv, id, l, o);
  }

  lemma EntryCounts(s: State, cfg: Config, i: nat, l: nat)
    requires Inv(s, cfg) && i < |s.entries| && l < |s.entries[i].blocks|
    ensures s.entries[i].blocks[l] in s.hot.refs
  {
    EntryHeld(s.entries, i);
  }

  /** The blocks a batch writes are held by its own requests. */
  lemma {:induction false} DirtyHeld(s: State, frontier: map<nat, nat>, reserved: seq<Slice>, cfg: Config)
    requires Inv(s, cfg) && frontier.Keys == s.kv.Keys && BatchOk(s, frontier, reserved)
    ensures forall b :: b in Dirty(s.kv, reserved, cfg.blockTokens) ==> b in s.hot.refs
  {
    if reserved != [] {
      var last := reserved[|reserved| - 1];
      DirtyHeld(s, frontier, reserved[..|reserved| - 1], cfg);
      var st := s.kv[last.request];
      forall b, x | Written(st.request.model, st.table, last, cfg.blockTokens, b, x) ensures b in s.hot.refs {
        var cell :| Lands(st.request.model, st.table, last, cfg.blockTokens, b, x, cell);
        HeldCounts(s, cfg, last.request, cell.layer, cell.ordinal);
      }
    }
  }

  // ------------------------------------------------------------ cache changes

  ghost function Avoids(b: nat): (Key, seq<nat>) -> bool
  {
    (key: Key, blocks: seq<nat>) => b !in blocks
  }

  ghost function Holds(memory: Memory, cfg: Config): (Key, seq<nat>) -> bool
  {
    (key: Key, blocks: seq<nat>) => BlocksHold(key, blocks, memory, cfg.blockTokens)
  }

  /** The new cache names no block that still awaits tokens. */
  ghost predicate KeepsOff(s: State, frontier: map<nat, nat>, entries: seq<Entry>, cfg: Config)
    requires frontier.Keys == s.kv.Keys
  {
    forall id: nat, l: nat, o: nat :: id in s.kv && s.kv[id].tier.Hot? && Unfinished(s.kv[id], frontier[id], cfg.blockTokens, l, o)
      ==> AllGood(entries, Avoids(s.kv[id].table[l][o]))
  }

  lemma CacheGood(s: State, p: Prefix, mems: Mems, frontier: map<nat, nat>, reserved: seq<Slice>, exempt: set<nat>, cfg: Config)
    requires Good(s, mems, frontier, reserved, exempt, cfg)
    requires Accounted(p, cfg.budget, Held(s.kv, Hot))
    requires EntriesHold(p.entries, Future(s, mems, reserved, cfg).hot, cfg)
    requires KeepsOff(s, frontier, p.entries, cfg)
    ensures Good(s.WithCache(p), mems, frontier, reserved, exempt, cfg)
  {
    hide Inv, AllRead, EntriesHold, Clean, Held, EntryCells;
    var next := s.WithCache(p);
    CacheInv(s, p, cfg);
    assert Future(next, mems, reserved, cfg) == Future(s, mems, reserved, cfg);
    forall id: nat, l: nat, o: nat | id in s.kv && s.kv[id].tier.Hot? && Unfinished(s.kv[id], frontier[id], cfg.blockTokens, l, o)
      ensures p.pool.refs[s.kv[id].table[l][o]] == 1
    {
      UnsharedMeans(s, cfg, id, l, o);
      AvoidsCells(p.entries, s.kv[id].table[l][o]);
    }
    SameClean(s, next, reserved, exempt, cfg);
    SameReads(s, next, frontier, Future(s, mems, reserved, cfg), cfg);
  }

  lemma AvoidsCells(entries: seq<Entry>, b: nat)
    ensures AllGood(entries, Avoids(b)) <==> b !in EntryCells(entries)
  {
    AvoidedCells(entries, b);
  }

  lemma SameClean(s: State, next: State, reserved: seq<Slice>, exempt: set<nat>, cfg: Config)
    requires next.kv == s.kv && Clean(s, reserved, exempt, cfg)
    ensures Clean(next, reserved, exempt, cfg)
  {
  }

  lemma SameReads(s: State, next: State, frontier: map<nat, nat>, mems: Mems, cfg: Config)
    requires next.kv == s.kv && frontier.Keys == s.kv.Keys && AllRead(s, frontier, mems, cfg)
    ensures AllRead(next, frontier, mems, cfg)
  {
  }

  lemma EntriesHoldAll(entries: seq<Entry>, memory: Memory, cfg: Config)
    ensures EntriesHold(entries, memory, cfg) <==> AllGood(entries, Holds(memory, cfg))
  {
  }

  /** An unshared unfinished block is not named by the current cache either. */
  lemma KeepsOffNow(s: State, frontier: map<nat, nat>, cfg: Config)
    requires Inv(s, cfg) && frontier.Keys == s.kv.Keys && Exclusive(s, frontier, cfg)
    ensures KeepsOff(s, frontier, s.entries, cfg)
  {
    forall id: nat, l: nat, o: nat | id in s.kv && s.kv[id].tier.Hot? && Unfinished(s.kv[id], frontier[id], cfg.blockTokens, l, o)
      ensures AllGood(s.entries, Avoids(s.kv[id].table[l][o]))
    {
      UnsharedMeans(s, cfg, id, l, o);
      AvoidsCells(s.entries, s.kv[id].table[l][o]);
    }
  }

  // -------------------------------------------------------------- migrations

  /** What a migration does to the contents that are still to come. */
  lemma MigrateFuture(s: State, id: nat, toCold: bool, rows: Rows, mems: Mems, frontier: map<nat, nat>, reserved: seq<Slice>, cfg: Config)
    requires Inv(s, cfg) && id in s.kv && s.kv[id].tier.Cold? != toCold && rows.Rows?
    requires rows == AllocateRows(Target(s, toCold), |s.kv[id].table|, s.kv[id].Width())
    requires id !in InBatch(reserved) && frontier.Keys == s.kv.Keys && BatchOk(s, frontier, reserved)
    requires toCold ==> forall b :: b in Cells(s.kv[id].table) ==> b !in Dirty(s.kv, reserved, cfg.blockTokens)
    ensures SameShape(s.kv[id].table, rows.table)
    ensures var next := Moved(s, id, toCold, rows);
      var before, after := Future(s, mems, reserved, cfg), Future(next, mems, reserved, cfg);
      && Dirty(next.kv, reserved, cfg.blockTokens) == Dirty(s.kv, reserved, cfg.blockTokens)
      && (forall b, w :: b in s.hot.refs ==> after.hot(b, w) == before.hot(b, w))
      && (forall b, w :: b in s.cold.refs ==> after.cold(b, w) == before.cold(b, w))
      && (forall l: nat, o: nat, w :: l < |rows.table| && o < |rows.table[l]| ==>
            after.Of(if toCold then Cold else Hot)(rows.table[l][o], w) == before.Of(s.kv[id].tier)(s.kv[id].table[l][o], w))
      && (forall b :: b in Cells(rows.table) ==> toCold || b !in Dirty(next.kv, reserved, cfg.blockTokens))
  {
    hide Inv, AllocateRows, Dirty, WriteAll, BatchOk;
    var st := s.kv[id];
    var next := Moved(s, id, toCold, rows);
    MigrationFacts(s, id, toCold, cfg);
    RowsFacts(s, id, toCold, rows, cfg);
    DirtyHeld(s, frontier, reserved, cfg);
    var mid := ApplyAll(mems, s.migrations);
    var m := Migration(toCold, id, st.table, rows.table);
    assert next.migrations[..|next.migrations| - 1] == s.migrations;
    assert ApplyAll(mems, next.migrations) == Apply(mid, m);
    NotInBatch(s.kv, next.kv, id, reserved);
    WriteFrame(Apply(mid, m).hot, s.kv, next.kv, reserved, cfg.blockTokens);
    if toCold {
      MovedOutFuture(s.kv, mid, m, reserved, cfg.blockTokens);
    } else {
      MovedInFuture(s.kv, mid, m, reserved, cfg.blockTokens);
    }
  }

  lemma RowsFacts(s: State, id: nat, toCold: bool, rows: Rows, cfg: Config)
    requires Inv(s, cfg) && id in s.kv && rows.Rows? && Shaped(s.kv[id], cfg)
    requires rows == AllocateRows(Target(s, toCold), |s.kv[id].table|, s.kv[id].Width())
    ensures SameShape(s.kv[id].table, rows.table)
    ensures forall b :: b in Cells(rows.table) ==> b !in Target(s, toCold).refs && Cells(rows.table)[b] == 1
    ensures rows.pool.refs == Target(s, toCold).refs + Cells(rows.table)
    ensures forall b :: b in Cells(rows.table) ==> rows.pool.refs[b] == 1
  {
    InvParts(s, cfg);
    AllocateRowsExact(Target(s, toCold), |s.kv[id].table|, s.kv[id].Width());
  }

  lemma NotInBatch(kv: map<nat, RequestKv>, kv': map<nat, RequestKv>, id: nat, reserved: seq<Slice>)
    requires id !in InBatch(reserved) && kv'.Keys == kv.Keys
    requires forall j :: j in kv && j != id ==> kv'[j] == kv[j]
    ensures SameTables(kv, kv', reserved)
  {
    forall i | 0 <= i < |reserved| ensures reserved[i].request != id {
      assert reserved[i].request in InBatch(reserved);
    }
  }

  lemma MovedOutFuture(kv: map<nat, RequestKv>, mid: Mems, m: Migration, reserved: seq<Slice>, blockTokens: nat)
    requires m.toCold && SameShape(m.source, m.destination)
    requires forall b :: b in Cells(m.source) ==> b !in Dirty(kv, reserved, blockTokens)
    requires forall b :: b in Cells(m.destination) ==> Cells(m.destination)[b] == 1
    ensures Apply(mid, m).hot == mid.hot
    ensures forall b, w :: b !in Cells(m.destination) ==> Apply(mid, m).cold(b, w) == mid.cold(b, w)
    ensures forall l: nat, o: nat, w :: l < |m.destination| && o < |m.destination[l]| ==>
      Apply(mid, m).cold(m.destination[l][o], w) == WriteAll(mid.hot, kv, reserved, blockTokens)(m.source[l][o], w)
  {
    forall b: nat, w: nat | b !in Cells(m.destination) ensures Apply(mid, m).cold(b, w) == mid.cold(b, w) {
      CopyTableElsewhere(mid.cold, mid.hot, m.source, m.destination, b, w);
    }
    forall l: nat, o: nat, w: nat | l < |m.destination| && o < |m.destination[l]|
      ensures Apply(mid, m).cold(m.destination[l][o], w) == WriteAll(mid.hot, kv, reserved, blockTokens)(m.source[l][o], w)
    {
      CellIn(m.destination, l, o);
      CellIn(m.source, l, o);
      CopyTableAt(mid.cold, mid.hot, m.source, m.destination, l, o, w);
      WriteElsewhere(mid.hot, kv, reserved, blockTokens, m.source[l][o], w);
    }
  }

  lemma MovedInFuture(kv: map<nat, RequestKv>, mid: Mems, m: Migration, reserved: seq<Slice>, blockTokens: nat)
    requires !m.toCold && SameShape(m.source, m.destination)
    requires forall b :: b in Cells(m.destination) ==> b !in Dirty(kv, reserved, blockTokens)
    requires forall b :: b in Cells(m.destination) ==> Cells(m.destination)[b] == 1
    ensures Apply(mid, m).cold == mid.cold
    ensures forall b, w :: b !in Cells(m.destination) ==>
      WriteAll(Apply(mid, m).hot, kv, reserved, blockTokens)(b, w) == WriteAll(mid.hot, kv, reserved, blockTokens)(b, w)
    ensures forall l: nat, o: nat, w :: l < |m.destination| && o < |m.destination[l]| ==>
      WriteAll(Apply(mid, m).hot, kv, reserved, blockTokens)(m.destination[l][o], w) == mid.cold(m.source[l][o], w)
  {
    var hot := Apply(mid, m).hot;
    forall b: nat, w: nat | b !in Cells(m.destination)
      ensures WriteAll(hot, kv, reserved, blockTokens)(b, w) == WriteAll(mid.hot, kv, reserved, blockTokens)(b, w)
    {
      CopyTableElsewhere(mid.hot, mid.cold, m.source, m.destination, b, w);
      WriteLocal(hot, mid.hot, kv, reserved, blockTokens, b, w);
    }
    forall l: nat, o: nat, w: nat | l < |m.destination| && o < |m.destination[l]|
      ensures WriteAll(hot, kv, reserved, blockTokens)(m.destination[l][o], w) == mid.cold(m.source[l][o], w)
    {
      CellIn(m.destination, l, o);
      CopyTableAt(mid.hot, mid.cold, m.source, m.destination, l, o, w);
      WriteElsewhere(hot, kv, reserved, blockTokens, m.destination[l][o], w);
    }
  }

  /** Swapping a request out or in keeps every promise about the contents. */
  lemma MigrateGood(s: State, id: nat, toCold: bool, mems: Mems, frontier: map<nat, nat>, reserved: seq<Slice>,
                    exempt: set<nat>, cfg: Config)
    requires Good(s, mems, frontier, reserved, exempt, cfg) && id in s.kv && s.kv[id].tier.Cold? != toCold
    requires Migrate(s, id, toCold).Some? && id !in InBatch(reserved)
    requires toCold ==> cfg.hasCold && s.kv[id].Width() > 0 && id !in exempt
    ensures Good(Migrate(s, id, toCold).value, mems, frontier, reserved, exempt, cfg)
  {
    hide Inv, AllocateRows, Dirty, WriteAll, Future, AllRead, EntriesHold, Exclusive, Clean, BatchOk, Covering, Migrate;
    var rows := MigrateExact(s, id, toCold, cfg);
    MigrateInv(s, id, toCold, cfg);
    var next := Moved(s, id, toCold, rows);
    MigrationFacts(s, id, toCold, cfg);
    RowsFacts(s, id, toCold, rows, cfg);
    if toCold {
      CleanOne(s, id, reserved, exempt, cfg);
    }
    SameKeysFrontier(s, frontier, cfg);
    MigrateFuture(s, id, toCold, rows, mems, frontier, reserved, cfg);
    var before, after := Future(s, mems, reserved, cfg), Future(next, mems, reserved, cfg);
    MovedReads(s, next, id, rows.table, toCold, frontier, before, after, cfg);
    MovedEntries(s, next, before, after, cfg);
    MovedExclusive(s, next, id, toCold, rows, frontier, cfg);
    MovedCovering(s, next, id, frontier, cfg);
    MovedClean(s, next, id, toCold, reserved, exempt, cfg);
    MovedBatch(s, next, id, frontier, reserved);
  }

  lemma CleanOne(s: State, id: nat, reserved: seq<Slice>, exempt: set<nat>, cfg: Config)
    requires Clean(s, reserved, exempt, cfg) && id in s.kv && s.kv[id].tier.Hot?
    requires id !in InBatch(reserved) && id !in exempt
    ensures forall b :: b in Cells(s.kv[id].table) ==> b !in Dirty(s.kv, reserved, cfg.blockTokens)
  {
  }

  lemma SameKeysFrontier(s: State, frontier: map<nat, nat>, cfg: Config)
    requires Covering(s, frontier, cfg)
    ensures frontier.Keys == s.kv.Keys
  {
  }

  lemma MovedReads(s: State, next: State, id: nat, table: Table, toCold: bool, frontier: map<nat, nat>, before: Mems, after: Mems, cfg: Config)
    requires Inv(s, cfg) && id in s.kv && s.kv[id].tier.Cold? != toCold && frontier.Keys == s.kv.Keys
    requires SameShape(s.kv[id].table, table)
    requires next.kv == s.kv[id := s.kv[id].(table := table, tier := if toCold then Cold else Hot)]
    requires AllRead(s, frontier, before, cfg)
    requires forall b, w :: b in s.hot.refs ==> after.hot(b, w) == before.hot(b, w)
    requires forall b, w :: b in s.cold.refs ==> after.cold(b, w) == before.cold(b, w)
    requires forall l: nat, o: nat, w :: l < |table| && o < |table[l]| ==>
      after.Of(if toCold then Cold else Hot)(table[l][o], w) == before.Of(s.kv[id].tier)(s.kv[id].table[l][o], w)
    ensures AllRead(next, frontier, after, cfg)
  {
    forall j | j in next.kv ensures ReadsRight(next.kv[j], frontier[j], after.Of(next.kv[j].tier), cfg.blockTokens) {
      assert ReadsRight(s.kv[j], frontier[j], before.Of(s.kv[j].tier), cfg.blockTokens);
      if j != id {
        StayedRight(s, j, frontier[j], before, after, cfg);
      } else {
        MovedRight(s.kv[id], next.kv[id], frontier[id], before.Of(s.kv[id].tier), after.Of(next.kv[id].tier), cfg.blockTokens);
      }
    }
  }

  lemma StayedRight(s: State, j: nat, frontier: nat, before: Mems, after: Mems, cfg: Config)
    requires Inv(s, cfg) && j in s.kv
    requires ReadsRight(s.kv[j], frontier, before.Of(s.kv[j].tier), cfg.blockTokens)
    requires forall b, w :: b in s.hot.refs ==> after.hot(b, w) == before.hot(b, w)
    requires forall b, w :: b in s.cold.refs ==> after.cold(b, w) == before.cold(b, w)
    ensures ReadsRight(s.kv[j], frontier, after.Of(s.kv[j].tier), cfg.blockTokens)
  {
    var st := s.kv[j];
    forall l: nat, o: nat, w: nat | l < |st.table| && o < |st.table[l]| && w < cfg.blockTokens
        && Span(o, cfg.blockTokens) + w < frontier
      ensures TokenAt(st, after.Of(st.tier), cfg.blockTokens, l, o, w)
    {
      CellHeld(s.kv, j, l, o);
      InvParts(s, cfg);
      assert TokenAt(st, before.Of(st.tier), cfg.blockTokens, l, o, w);
    }
  }

  lemma MovedRight(st: RequestKv, st': RequestKv, frontier: nat, before: Memory, after: Memory, blockTokens: nat)
    requires st'.request == st.request && SameShape(st.table, st'.table)
    requires ReadsRight(st, frontier, before, blockTokens)
    requires forall l: nat, o: nat, w :: l < |st'.table| && o < |st'.table[l]| ==>
      after(st'.table[l][o], w) == before(st.table[l][o], w)
    ensures ReadsRight(st', frontier, after, blockTokens)
  {
    forall l: nat, o: nat, w: nat | l < |st'.table| && o < |st'.table[l]| && w < blockTokens && Span(o, blockTokens) + w < frontier
      ensures TokenAt(st', after, blockTokens, l, o, w)
    {
      assert |st.table[l]| == |st'.table[l]|;
      assert TokenAt(st, before, blockTokens, l, o, w);
    }
  }

  lemma MovedEntries(s: State, next: State, before: Mems, after: Mems, cfg: Config)
    requires Inv(s, cfg) && next.entries == s.entries && EntriesHold(s.entries, before.hot, cfg)
    requires forall b, w :: b in s.hot.refs ==> after.hot(b, w) == before.hot(b, w)
    ensures EntriesHold(next.entries, after.hot, cfg)
  {
    forall i | 0 <= i < |s.entries| ensures BlocksHold(s.entries[i].key, s.entries[i].blocks, after.hot, cfg.blockTokens) {
      assert BlocksHold(s.entries[i].key, s.entries[i].blocks, before.hot, cfg.blockTokens);
      var key, blocks := s.entries[i].key, s.entries[i].blocks;
      forall l: nat, w: nat | l < |blocks| && w < cfg.blockTokens
        ensures Stored(after.hot, blocks[l], w, KeyModel(key).TokenBytes(l), KeyContent(key, l, cfg.blockTokens, w))
      {
        EntryCounts(s, cfg, i, l);
        StoredSame(before.hot, after.hot, blocks[l], blocks[l], w, KeyModel(key).TokenBytes(l), KeyContent(key, l, cfg.blockTokens, w));
      }
    }
  }

  lemma MovedExclusive(s: State, next: State, id: nat, toCold: bool, rows: Rows, frontier: map<nat, nat>, cfg: Config)
    requires Inv(s, cfg) && id in s.kv && s.kv[id].tier.Cold? != toCold && rows.Rows?
    requires next == Moved(s, id, toCold, rows) && Inv(next, cfg)
    requires rows.pool.refs == Target(s, toCold).refs + Cells(rows.table)
    requires forall b :: b in Cells(rows.table) ==> b !in Target(s, toCold).refs && rows.pool.refs[b] == 1
    requires frontier.Keys == s.kv.Keys && Exclusive(s, frontier, cfg)
    ensures Exclusive(next, frontier, cfg)
  {
    forall j: nat, l: nat, o: nat | j in next.kv && next.kv[j].tier.Hot? && Unfinished(next.kv[j], frontier[j], cfg.blockTokens, l, o)
      ensures next.hot.refs[next.kv[j].table[l][o]] == 1
    {
      if j == id {
        CellIn(rows.table, l, o);
      } else {
        assert Unfinished(s.kv[j], frontier[j], cfg.blockTokens, l, o);
        HeldCounts(next, cfg, j, l, o);
        HeldCounts(s, cfg, j, l, o);
      }
    }
  }

  lemma MovedCovering(s: State, next: State, id: nat, frontier: map<nat, nat>, cfg: Config)
    requires Covering(s, frontier, cfg) && id in s.kv && next.kv.Keys == s.kv.Keys
    requires forall j :: j in s.kv && j != id ==> next.kv[j] == s.kv[j]
    requires next.kv[id].request == s.kv[id].request && SameShape(s.kv[id].table, next.kv[id].table)
    ensures Covering(next, frontier, cfg)
  {
    assert next.kv[id].Width() == s.kv[id].Width();
  }

  lemma MovedClean(s: State, next: State, id: nat, toCold: bool, reserved: seq<Slice>, exempt: set<nat>, cfg: Config)
    requires Clean(s, reserved, exempt, cfg) && id in s.kv && next.kv.Keys == s.kv.Keys
    requires forall j :: j in s.kv && j != id ==> next.kv[j] == s.kv[j]
    requires next.kv[id].tier.Cold? == toCold
    requires Dirty(next.kv, reserved, cfg.blockTokens) == Dirty(s.kv, reserved, cfg.blockTokens)
    requires forall b :: b in Cells(next.kv[id].table) ==> toCold || b !in Dirty(next.kv, reserved, cfg.blockTokens)
    ensures Clean(next, reserved, exempt, cfg)
  {
  }

  lemma MovedBatch(s: State, next: State, id: nat, frontier: map<nat, nat>, reserved: seq<Slice>)
    requires frontier.Keys == s.kv.Keys && BatchOk(s, frontier, reserved) && id !in InBatch(reserved)
    requires next.kv.Keys == s.kv.Keys && forall j :: j in s.kv && j != id ==> next.kv[j] == s.kv[j]
    ensures BatchOk(next, frontier, reserved)
  {
    forall i | 0 <= i < |reserved| ensures reserved[i].request != id {
      assert reserved[i].request in InBatch(reserved);
    }
  }

  /** The same live requests, whatever happened to their blocks. */
  ghost predicate SameRequests(s: State, next: State)
  {
    next.kv.Keys == s.kv.Keys && forall id :: id in s.kv ==> next.kv[id].request == s.kv[id].request
  }

  lemma {:induction false} MigrateAllGood(s: State, ids: seq<nat>, toCold: bool, mems: Mems, frontier: map<nat, nat>,
                                          reserved: seq<Slice>, exempt: set<nat>, cfg: Config)
    requires Good(s, mems, frontier, reserved, exempt, cfg) && Movable(s, ids, toCold, cfg)
    requires MigrateAll(s, ids, toCold).Some?
    requires forall k :: 0 <= k < |ids| ==> ids[k] !in InBatch(reserved) && (toCold ==> ids[k] !in exempt)
    ensures Good(MigrateAll(s, ids, toCold).value, mems, frontier, reserved, exempt, cfg)
    ensures SameRequests(s, MigrateAll(s, ids, toCold).value)
    decreases |ids|
  {
    hide Good, Migrate, Movable;
    if ids != [] {
      var mid := MigrateFirst(s, ids, toCold, mems, frontier, reserved, exempt, cfg);
      MigrateAllGood(mid, ids[1..], toCold, mems, frontier, reserved, exempt, cfg);
    }
  }

  lemma MigrateFirst(s: State, ids: seq<nat>, toCold: bool, mems: Mems, frontier: map<nat, nat>,
                     reserved: seq<Slice>, exempt: set<nat>, cfg: Config) returns (mid: State)
    requires ids != [] && Good(s, mems, frontier, reserved, exempt, cfg) && Movable(s, ids, toCold, cfg)
    requires MigrateAll(s, ids, toCold).Some?
    requires forall k :: 0 <= k < |ids| ==> ids[k] !in InBatch(reserved) && (toCold ==> ids[k] !in exempt)
    ensures Migrate(s, ids[0], toCold) == Some(mid) && MigrateAll(s, ids, toCold) == MigrateAll(mid, ids[1..], toCold)
    ensures Good(mid, mems, frontier, reserved, exempt, cfg) && Movable(mid, ids[1..], toCold, cfg)
    ensures SameRequests(s, mid)
    ensures forall k :: 0 <= k < |ids[1..]| ==> ids[1..][k] !in InBatch(reserved) && (toCold ==> ids[1..][k] !in exempt)
  {
    hide Good, Migrate, Movable;
    GoodInv(s, mems, frontier, reserved, exempt, cfg);
    FirstMovable(s, ids, toCold, cfg);
    var rows := MigrateExact(s, ids[0], toCold, cfg);
    MigrateOne(s, ids[0], toCold, cfg);
    MigrateGood(s, ids[0], toCold, mems, frontier, reserved, exempt, cfg);
    mid := Migrate(s, ids[0], toCold).value;
    StillMovable(s, mid, ids, toCold, cfg);
  }

  lemma GoodInv(s: State, mems: Mems, frontier: map<nat, nat>, reserved: seq<Slice>, exempt: set<nat>, cfg: Config)
    requires Good(s, mems, frontier, reserved, exempt, cfg)
    ensures Inv(s, cfg) && frontier.Keys == s.kv.Keys
  {
  }

  // ------------------------------------------------------------------ growth

  lemma {:induction false} SpanOrdered(a: nat, b: nat, blockTokens: nat)
    requires a <= b
    ensures Span(a, blockTokens) <= Span(b, blockTokens)
  {
    if a < b {
      SpanOrdered(a, b - 1, blockTokens);
    }
  }

  /** Growing a table outside the batch disturbs no content and shares no block. */
  lemma GrowGood(s: State, id: nat, grow: nat, mems: Mems, frontier: map<nat, nat>, reserved: seq<Slice>,
                 exempt: set<nat>, cfg: Config)
    requires Good(s, mems, frontier, reserved, exempt, cfg) && id in s.kv && s.kv[id].tier.Hot?
    requires grow > 0 && id !in InBatch(reserved) && GrowTable(s, id, grow).Some?
    ensures Good(GrowTable(s, id, grow).value, mems, frontier, reserved, exempt, cfg)
  {
    hide Inv, AllocateRows, Dirty, WriteAll, AllRead, EntriesHold, Exclusive, Clean, BatchOk, Covering, GrowTable, Extends;
    var rows := GrowExact(s, id, grow, cfg);
    GrowInv(s, id, grow, cfg);
    GrownFacts(s, id, rows.table, grow, cfg);
    var next := Grown(s, id, rows.table, rows.pool);
    InvParts(s, cfg);
    SameKeysFrontier(s, frontier, cfg);
    AllocateRowsExact(s.hot, s.kv[id].request.model.layers, grow);
    NotInBatch(s.kv, next.kv, id, reserved);
    WriteFrame(ApplyAll(mems, s.migrations).hot, s.kv, next.kv, reserved, cfg.blockTokens);
    assert Future(next, mems, reserved, cfg) == Future(s, mems, reserved, cfg);
    DirtyHeld(s, frontier, reserved, cfg);
    GrownReads(s, next, id, rows.table, frontier, Future(s, mems, reserved, cfg), cfg);
    GrownExclusive(s, next, id, rows, frontier, cfg);
    GrownClean(s, next, id, rows.table, reserved, exempt, cfg);
    GrownCovering(s, next, id, frontier, cfg);
    MovedBatch(s, next, id, frontier, reserved);
  }

  /** A grown table repeats the old one and adds cells of more behind every row. */
  ghost predicate Extends(st: RequestKv, table: Table, more: Table)
  {
    && Cells(table) == Cells(st.table) + Cells(more)
    && (forall l: nat, o: nat :: l < |table| && o < |table[l]| ==> Extended(st, table, more, l, o))
  }

  ghost predicate Extended(st: RequestKv, table: Table, more: Table, l: nat, o: nat)
    requires l < |table| && o < |table[l]|
  {
    if o < st.Width() then l < |st.table| && o < |st.table[l]| && table[l][o] == st.table[l][o]
    else table[l][o] in Cells(more)
  }

  lemma GrownFacts(s: State, id: nat, more: Table, grow: nat, cfg: Config)
    requires Inv(s, cfg) && id in s.kv && Rectangular(more, s.kv[id].request.model.layers, grow)
    ensures |more| == |BaseTable(s.kv[id])|
    ensures Extends(s.kv[id], Appended(BaseTable(s.kv[id]), more), more)
  {
    var st := s.kv[id];
    assert Shaped(st, cfg);
    var base := BaseTable(st);
    var table := Appended(base, more);
    EmptyCells(st.request.model.layers);
    CellsZip(base, more, table);
    forall l: nat, o: nat | l < |table| && o < |table[l]| ensures Extended(st, table, more, l, o) {
      assert |base[l]| == st.Width();
      if o >= st.Width() {
        CellIn(more, l, o - st.Width());
      }
    }
  }

  lemma GrownReads(s: State, next: State, id: nat, more: Table, frontier: map<nat, nat>, mems: Mems, cfg: Config)
    requires id in s.kv && |more| == |BaseTable(s.kv[id])| && frontier.Keys == s.kv.Keys
    requires next.kv == s.kv[id := s.kv[id].(table := Appended(BaseTable(s.kv[id]), more))]
    requires Extends(s.kv[id], next.kv[id].table, more)
    requires AllRead(s, frontier, mems, cfg) && Covering(s, frontier, cfg)
    ensures AllRead(next, frontier, mems, cfg)
  {
    forall j | j in next.kv ensures ReadsRight(next.kv[j], frontier[j], mems.Of(next.kv[j].tier), cfg.blockTokens) {
      assert ReadsRight(s.kv[j], frontier[j], mems.Of(s.kv[j].tier), cfg.blockTokens);
      if j == id {
        GrownRight(s.kv[id], next.kv[id], more, frontier[id], mems.Of(s.kv[id].tier), cfg.blockTokens);
      }
    }
  }

  lemma GrownRight(st: RequestKv, st': RequestKv, more: Table, frontier: nat, memory: Memory, blockTokens: nat)
    requires st'.request == st.request && ReadsRight(st, frontier, memory, blockTokens)
    requires frontier <= Span(st.Width(), blockTokens)
    requires Extends(st, st'.table, more)
    ensures ReadsRight(st', frontier, memory, blockTokens)
  {
    forall l: nat, o: nat, w: nat | l < |st'.table| && o < |st'.table[l]| && w < blockTokens && Span(o, blockTokens) + w < frontier
      ensures TokenAt(st', memory, blockTokens, l, o, w)
    {
      if o >= st.Width() {
        SpanOrdered(st.Width(), o, blockTokens);
      }
      assert Extended(st, st'.table, more, l, o);
      assert TokenAt(st, memory, blockTokens, l, o, w);
    }
  }

  lemma GrownExclusive(s: State, next: State, id: nat, rows: Rows, frontier: map<nat, nat>, cfg: Config)
    requires Inv(s, cfg) && id in s.kv && rows.Rows? && frontier.Keys == s.kv.Keys && Exclusive(s, frontier, cfg)
    requires |rows.table| == |BaseTable(s.kv[id])| && next == Grown(s, id, rows.table, rows.pool)
    requires rows.pool.refs == s.hot.refs + Cells(rows.table)
    requires forall b :: b in Cells(rows.table) ==> b !in s.hot.refs && rows.pool.refs[b] == 1
    requires Extends(s.kv[id], next.kv[id].table, rows.table)
    ensures Exclusive(next, frontier, cfg)
  {
    forall j: nat, l: nat, o: nat | j in next.kv && next.kv[j].tier.Hot? && Unfinished(next.kv[j], frontier[j], cfg.blockTokens, l, o)
      ensures next.hot.refs[next.kv[j].table[l][o]] == 1
    {
      if j == id {
        assert Extended(s.kv[id], next.kv[id].table, rows.table, l, o);
      }
      if j != id || o < s.kv[id].Width() {
        assert Unfinished(s.kv[j], frontier[j], cfg.blockTokens, l, o);
        HeldCounts(s, cfg, j, l, o);
      }
    }
  }

  lemma GrownClean(s: State, next: State, id: nat, more: Table, reserved: seq<Slice>, exempt: set<nat>, cfg: Config)
    requires Clean(s, reserved, exempt, cfg) && id in s.kv && next.kv.Keys == s.kv.Keys && s.kv[id].tier.Hot?
    requires forall j :: j in s.kv && j != id ==> next.kv[j] == s.kv[j]
    requires Dirty(next.kv, reserved, cfg.blockTokens) == Dirty(s.kv, reserved, cfg.blockTokens)
    requires Extends(s.kv[id], next.kv[id].table, more)
    requires forall b :: b in Cells(more) ==> b !in s.hot.refs
    requires forall b :: b in Dirty(s.kv, reserved, cfg.blockTokens) ==> b in s.hot.refs
    ensures Clean(next, reserved, exempt, cfg)
  {
  }

  lemma GrownCovering(s: State, next: State, id: nat, frontier: map<nat, nat>, cfg: Config)
    requires Covering(s, frontier, cfg) && id in s.kv && next.kv.Keys == s.kv.Keys
    requires forall j :: j in s.kv && j != id ==> next.kv[j] == s.kv[j]
    requires next.kv[id].request == s.kv[id].request && next.kv[id].Width() >= s.kv[id].Width()
    ensures Covering(next, frontier, cfg)
  {
    SpanOrdered(s.kv[id].Width(), next.kv[id].Width(), cfg.blockTokens);
  }

  lemma MarkGood(s: State, id: nat, batch: nat, mems: Mems, frontier: map<nat, nat>, reserved: seq<Slice>,
                 exempt: set<nat>, cfg: Config)
    requires Good(s, mems, frontier, reserved, exempt, cfg) && id in s.kv
    ensures Good(Marked(s, id, batch), mems, frontier, reserved, exempt, cfg)
  {
    hide Inv, Dirty, WriteAll, AllRead, Exclusive, Clean, Covering, BatchOk, EntriesHold;
    var next := Marked(s, id, batch);
    MarkInv(s, id, batch, cfg);
    SameKeysFrontier(s, frontier, cfg);
    assert SameTables(s.kv, next.kv, reserved);
    WriteFrame(ApplyAll(mems, s.migrations).hot, s.kv, next.kv, reserved, cfg.blockTokens);
    MarkedRest(s, id, batch, Future(s, mems, reserved, cfg), frontier, reserved, exempt, cfg);
  }

  lemma MarkedRest(s: State, id: nat, batch: nat, mems: Mems, frontier: map<nat, nat>, reserved: seq<Slice>,
                   exempt: set<nat>, cfg: Config)
    requires id in s.kv && frontier.Keys == s.kv.Keys && Covering(s, frontier, cfg) && AllRead(s, frontier, mems, cfg)
    requires Exclusive(s, frontier, cfg) && Clean(s, reserved, exempt, cfg) && BatchOk(s, frontier, reserved)
    requires Dirty(Marked(s, id, batch).kv, reserved, cfg.blockTokens) == Dirty(s.kv, reserved, cfg.blockTokens)
    ensures var next := Marked(s, id, batch);
      && Covering(next, frontier, cfg) && AllRead(next, frontier, mems, cfg)
      && Exclusive(next, frontier, cfg) && Clean(next, reserved, exempt, cfg) && BatchOk(next, frontier, reserved)
  {
    hide Dirty;
    var next := Marked(s, id, batch);
    assert next.kv[id].Width() == s.kv[id].Width();
    MarkedReads(s, id, batch, mems, frontier, cfg);
    forall l: nat, o: nat | s.kv[id].tier.Hot? && Unfinished(next.kv[id], frontier[id], cfg.blockTokens, l, o)
      ensures next.hot.refs[next.kv[id].table[l][o]] == 1
    {
      assert Unfinished(s.kv[id], frontier[id], cfg.blockTokens, l, o);
    }
  }

  lemma MarkedReads(s: State, id: nat, batch: nat, mems: Mems, frontier: map<nat, nat>, cfg: Config)
    requires id in s.kv && frontier.Keys == s.kv.Keys && AllRead(s, frontier, mems, cfg)
    ensures AllRead(Marked(s, id, batch), frontier, mems, cfg)
  {
    hide Stored;
    var next := Marked(s, id, batch);
    forall j | j in next.kv ensures ReadsRight(next.kv[j], frontier[j], mems.Of(next.kv[j].tier), cfg.blockTokens) {
      assert ReadsRight(s.kv[j], frontier[j], mems.Of(s.kv[j].tier), cfg.blockTokens);
      SameTokens(s.kv[j], next.kv[j], frontier[j], mems.Of(s.kv[j].tier), cfg.blockTokens);
    }
  }

  lemma SameTokens(st: RequestKv, st': RequestKv, frontier: nat, memory: Memory, blockTokens: nat)
    requires ReadsRight(st, frontier, memory, blockTokens) && st'.table == st.table && st'.request == st.request
    ensures ReadsRight(st', frontier, memory, blockTokens)
  {
    hide Stored;
    forall l: nat, o: nat, w: nat | l < |st'.table| && o < |st'.table[l]| && w < blockTokens && Span(o, blockTokens) + w < frontier
      ensures TokenAt(st', memory, blockTokens, l, o, w)
    {
      assert TokenAt(st, memory, blockTokens, l, o, w);
    }
  }
}
