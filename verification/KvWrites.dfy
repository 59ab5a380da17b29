/** The writes of a batch: they land only in blocks nobody else holds, so no published
    prefix block and no other request's token is ever overwritten.
 */
module KvWrites {
  import opened PrefixKeys
  import opened PrefixSpec
  import opened PrefixProvenance
  import opened Tables
  import opened PlacementSpec
  import opened PlacementInvariant
  import opened KvMemory
  import opened KvRefinement

  /** A slice that continues its request's frontier inside its blocks and its lifetime. */
  ghost predicate Continues(s: State, frontier: map<nat, nat>, reserved: seq<Slice>, slice: Slice, cfg: Config)
  {
    && slice.request in s.kv && slice.request in frontier && s.kv[slice.request].tier.Hot?
    && slice.request !in InBatch(reserved) && slice.count > 0
    && slice.begin == frontier[slice.request]
    && slice.End() <= Span(s.kv[slice.request].Width(), cfg.blockTokens)
    && slice.End() <= s.kv[slice.request].request.Lifetime()
  }

  /** Immutability: every block the slice writes has one holder, the writer's own cell, so no
      prefix entry and no other request names it, and no second cell of the writer does. */
  lemma WritesAreExclusive(s: State, frontier: map<nat, nat>, reserved: seq<Slice>, slice: Slice, cfg: Config,
                           b: nat, x: nat, cell: Cell)
    requires Inv(s, cfg) && frontier.Keys == s.kv.Keys && Exclusive(s, frontier, cfg) && Continues(s, frontier, reserved, slice, cfg)
    requires Lands(s.kv[slice.request].request.model, s.kv[slice.request].table, slice, cfg.blockTokens, b, x, cell)
    ensures s.hot.refs[b] == 1 && b !in EntryCells(s.entries)
    ensures AllGood(s.entries, Avoids(b))
    ensures forall id :: id in s.kv && s.kv[id].tier.Hot? && b in Cells(s.kv[id].table) ==> id == slice.request
    ensures forall l': nat, o': nat :: (l' < |s.kv[slice.request].table| && o' < |s.kv[slice.request].table[l']|
      && s.kv[slice.request].table[l'][o'] == b) ==> (l' == cell.layer && o' == cell.ordinal)
  {
    var id, l, o := slice.request, cell.layer, cell.ordinal;
    assert Unfinished(s.kv[id], frontier[id], cfg.blockTokens, l, o);
    UnsharedMeans(s, cfg, id, l, o);
    AvoidsCells(s.entries, b);
    forall l': nat, o': nat | l' < |s.kv[id].table| && o' < |s.kv[id].table[l']| && s.kv[id].table[l'][o'] == b
      ensures l' == l && o' == o
    {
      UnsharedCell(s, cfg, id, l, o, l', o');
    }
  }

  /** Below the frontier nothing is overwritten; from the frontier on the slice's own values appear. */
  lemma SliceReads(s: State, frontier: map<nat, nat>, reserved: seq<Slice>, slice: Slice, memory: Memory, cfg: Config)
    requires Inv(s, cfg) && frontier.Keys == s.kv.Keys && Exclusive(s, frontier, cfg) && Continues(s, frontier, reserved, slice, cfg)
    requires ReadsRight(s.kv[slice.request], frontier[slice.request], memory, cfg.blockTokens)
    ensures var st := s.kv[slice.request];
      ReadsRight(st, slice.End(), WriteSlice(memory, st.request, st.table, slice, cfg.blockTokens), cfg.blockTokens)
  {
    var st := s.kv[slice.request];
    var bt := cfg.blockTokens;
    var after := WriteSlice(memory, st.request, st.table, slice, bt);
    forall l: nat, o: nat, w: nat | l < |st.table| && o < |st.table[l]| && w < bt && Span(o, bt) + w < slice.End()
      ensures TokenAt(st, after, bt, l, o, w)
    {
      SliceCell(s, frontier, reserved, slice, memory, cfg, l, o, w);
    }
  }

  lemma SliceCell(s: State, frontier: map<nat, nat>, reserved: seq<Slice>, slice: Slice, memory: Memory, cfg: Config,
                  l: nat, o: nat, w: nat)
    requires slice.request in s.kv && Inv(s, cfg) && frontier.Keys == s.kv.Keys
    requires Exclusive(s, frontier, cfg) && Continues(s, frontier, reserved, slice, cfg)
    requires ReadsRight(s.kv[slice.request], frontier[slice.request], memory, cfg.blockTokens)
    requires l < |s.kv[slice.request].table| && o < |s.kv[slice.request].table[l]| && w < cfg.blockTokens
    requires Span(o, cfg.blockTokens) + w < slice.End()
    ensures var st := s.kv[slice.request];
      TokenAt(st, WriteSlice(memory, st.request, st.table, slice, cfg.blockTokens), cfg.blockTokens, l, o, w)
  {
    hide Inv, Exclusive, Continues, KvOf;
    var st := s.kv[slice.request];
    forall j: nat | j < st.request.model.TokenBytes(l)
      ensures WriteSlice(memory, st.request, st.table, slice, cfg.blockTokens)(st.table[l][o], At(w, st.request.model.TokenBytes(l), j))
           == Part(KvOf(st.request, l, Span(o, cfg.blockTokens) + w), j)
    {
      SliceByte(s, frontier, reserved, slice, memory, cfg, Cell(l, o, w, j));
    }
  }

  /** A byte of the table is the slice's, or one that was there. */
  lemma SliceByte(s: State, frontier: map<nat, nat>, reserved: seq<Slice>, slice: Slice, memory: Memory, cfg: Config, cell: Cell)
    requires slice.request in s.kv && Inv(s, cfg) && frontier.Keys == s.kv.Keys
    requires Exclusive(s, frontier, cfg) && Continues(s, frontier, reserved, slice, cfg)
    requires ReadsRight(s.kv[slice.request], frontier[slice.request], memory, cfg.blockTokens)
    requires var st := s.kv[slice.request];
      && cell.layer < |st.table| && cell.ordinal < |st.table[cell.layer]| && cell.slot < cfg.blockTokens
      && cell.index < st.request.model.TokenBytes(cell.layer) && Span(cell.ordinal, cfg.blockTokens) + cell.slot < slice.End()
    ensures var st := s.kv[slice.request];
      WriteSlice(memory, st.request, st.table, slice, cfg.blockTokens)
        (st.table[cell.layer][cell.ordinal], At(cell.slot, st.request.model.TokenBytes(cell.layer), cell.index))
      == Part(KvOf(st.request, cell.layer, Span(cell.ordinal, cfg.blockTokens) + cell.slot), cell.index)
  {
    hide Inv, Exclusive, Continues, KvOf, At;
    var st, bt := s.kv[slice.request], cfg.blockTokens;
    var width := st.request.model.TokenBytes(cell.layer);
    var b, x := st.table[cell.layer][cell.ordinal], At(cell.slot, width, cell.index);
    if Written(st.request.model, st.table, slice, bt, b, x) {
      var other := Winner(st.request.model, st.table, slice, bt, b, x);
      WritesAreExclusive(s, frontier, reserved, slice, cfg, b, x, other);
      assert cell.layer == other.layer && cell.ordinal == other.ordinal;
      AtOnce(cell.slot, other.slot, width, cell.index, other.index);
    } else {
      ContinuesBegin(s, frontier, reserved, slice, cfg);
      assert !Lands(st.request.model, st.table, slice, bt, b, x, cell);
      assert TokenAt(st, memory, bt, cell.layer, cell.ordinal, cell.slot);
    }
  }

  lemma ContinuesBegin(s: State, frontier: map<nat, nat>, reserved: seq<Slice>, slice: Slice, cfg: Config)
    requires Continues(s, frontier, reserved, slice, cfg)
    ensures slice.begin == frontier[slice.request] && slice.End() > slice.begin
  {
  }

  ghost function Advanced(frontier: map<nat, nat>, slice: Slice): map<nat, nat>
  {
    frontier[slice.request := slice.End()]
  }

  /** Committing to one more slice keeps every promise, with its request's frontier moved. */
  lemma SliceGood(s: State, slice: Slice, mems: Mems, frontier: map<nat, nat>, reserved: seq<Slice>, exempt: set<nat>, cfg: Config)
    requires Good(s, mems, frontier, reserved, exempt, cfg) && Continues(s, frontier, reserved, slice, cfg)
    ensures Good(s, mems, Advanced(frontier, slice), reserved + [slice], exempt, cfg)
  {
    hide Inv, AllRead, EntriesHold, Exclusive, Clean, BatchOk, Covering, Dirty, WriteAll;
    SameKeysFrontier(s, frontier, cfg);
    var longer := reserved + [slice];
    assert longer[..|longer| - 1] == reserved;
    var st := s.kv[slice.request];
    var before, after := Future(s, mems, reserved, cfg), Future(s, mems, longer, cfg);
    WriteAllPush(ApplyAll(mems, s.migrations).hot, s.kv, reserved, slice, cfg.blockTokens);
    assert after.hot == WriteSlice(before.hot, st.request, st.table, slice, cfg.blockTokens) && after.cold == before.cold;
    SliceOthers(s, slice, frontier, reserved, before, after, cfg);
    SliceEntries(s, slice, frontier, reserved, before, after, cfg);
    SliceShape(s, slice, frontier, reserved, exempt, cfg);
  }

  lemma WriteAllPush(memory: Memory, kv: map<nat, RequestKv>, reserved: seq<Slice>, slice: Slice, blockTokens: nat)
    requires slice.request in kv
    ensures WriteAll(memory, kv, reserved + [slice], blockTokens)
      == WriteSlice(WriteAll(memory, kv, reserved, blockTokens), kv[slice.request].request, kv[slice.request].table, slice, blockTokens)
    ensures Dirty(kv, reserved + [slice], blockTokens)
      == Dirty(kv, reserved, blockTokens) + Touched(kv[slice.request].request.model, kv[slice.request].table, slice, blockTokens)
  {
    var longer := reserved + [slice];
    assert longer[..|longer| - 1] == reserved && longer[|longer| - 1] == slice;
  }

  lemma SliceOthers(s: State, slice: Slice, frontier: map<nat, nat>, reserved: seq<Slice>, before: Mems, after: Mems, cfg: Config)
    requires Inv(s, cfg) && frontier.Keys == s.kv.Keys && Exclusive(s, frontier, cfg) && Continues(s, frontier, reserved, slice, cfg)
    requires AllRead(s, frontier, before, cfg) && after.cold == before.cold
    requires after.hot == WriteSlice(before.hot, s.kv[slice.request].request, s.kv[slice.request].table, slice, cfg.blockTokens)
    ensures AllRead(s, Advanced(frontier, slice), after, cfg)
  {
    forall j | j in s.kv ensures ReadsRight(s.kv[j], Advanced(frontier, slice)[j], after.Of(s.kv[j].tier), cfg.blockTokens) {
      assert ReadsRight(s.kv[j], frontier[j], before.Of(s.kv[j].tier), cfg.blockTokens);
      if j == slice.request {
        SliceReads(s, frontier, reserved, slice, before.hot, cfg);
      } else if s.kv[j].tier.Hot? {
        OtherRight(s, slice, frontier, reserved, before.hot, after.hot, cfg, j);
      }
    }
  }

  lemma OtherRight(s: State, slice: Slice, frontier: map<nat, nat>, reserved: seq<Slice>, before: Memory, after: Memory, cfg: Config, j: nat)
    requires Inv(s, cfg) && frontier.Keys == s.kv.Keys && Exclusive(s, frontier, cfg) && Continues(s, frontier, reserved, slice, cfg)
    requires j in s.kv && j != slice.request && s.kv[j].tier.Hot?
    requires after == WriteSlice(before, s.kv[slice.request].request, s.kv[slice.request].table, slice, cfg.blockTokens)
    requires ReadsRight(s.kv[j], frontier[j], before, cfg.blockTokens)
    ensures ReadsRight(s.kv[j], frontier[j], after, cfg.blockTokens)
  {
    hide Inv, Exclusive, Continues;
    var st := s.kv[j];
    forall l: nat, o: nat, w: nat | l < |st.table| && o < |st.table[l]| && w < cfg.blockTokens && Span(o, cfg.blockTokens) + w < frontier[j]
      ensures TokenAt(st, after, cfg.blockTokens, l, o, w)
    {
      CellIn(st.table, l, o);
      ContinuesHot(s, frontier, reserved, slice, cfg);
      Untouched(s, slice, frontier, reserved, before, cfg, st.table[l][o]);
      assert TokenAt(st, before, cfg.blockTokens, l, o, w);
    }
  }

  /** A block that someone else names is not written. */
  lemma Untouched(s: State, slice: Slice, frontier: map<nat, nat>, reserved: seq<Slice>, before: Memory, cfg: Config, b: nat)
    requires slice.request in s.kv && Inv(s, cfg) && frontier.Keys == s.kv.Keys
    requires Exclusive(s, frontier, cfg) && Continues(s, frontier, reserved, slice, cfg)
    requires (exists j :: j in s.kv && j != slice.request && s.kv[j].tier.Hot? && b in Cells(s.kv[j].table))
             || b in EntryCells(s.entries)
    ensures var st := s.kv[slice.request];
      forall x: nat :: WriteSlice(before, st.request, st.table, slice, cfg.blockTokens)(b, x) == before(b, x)
  {
    hide Inv, Exclusive, Continues, EntryCells;
    var st := s.kv[slice.request];
    forall x: nat ensures !Written(st.request.model, st.table, slice, cfg.blockTokens, b, x) {
      if Written(st.request.model, st.table, slice, cfg.blockTokens, b, x) {
        var cell := Winner(st.request.model, st.table, slice, cfg.blockTokens, b, x);
        WritesAreExclusive(s, frontier, reserved, slice, cfg, b, x, cell);
        assert false;
      }
    }
  }

  lemma SliceEntries(s: State, slice: Slice, frontier: map<nat, nat>, reserved: seq<Slice>, before: Mems, after: Mems, cfg: Config)
    requires Inv(s, cfg) && frontier.Keys == s.kv.Keys && Exclusive(s, frontier, cfg) && Continues(s, frontier, reserved, slice, cfg)
    requires EntriesHold(s.entries, before.hot, cfg)
    requires after.hot == WriteSlice(before.hot, s.kv[slice.request].request, s.kv[slice.request].table, slice, cfg.blockTokens)
    ensures EntriesHold(s.entries, after.hot, cfg)
  {
    forall i | 0 <= i < |s.entries| ensures BlocksHold(s.entries[i].key, s.entries[i].blocks, after.hot, cfg.blockTokens) {
      assert BlocksHold(s.entries[i].key, s.entries[i].blocks, before.hot, cfg.blockTokens);
      EntryHeld(s.entries, i);
      var blocks := s.entries[i].blocks;
      forall l: nat, w: nat | l < |blocks| && w < cfg.blockTokens
        ensures Stored(after.hot, blocks[l], w, KeyModel(s.entries[i].key).TokenBytes(l), KeyContent(s.entries[i].key, l, cfg.blockTokens, w))
      {
        assert blocks[l] in blocks;
        Untouched(s, slice, frontier, reserved, before.hot, cfg, blocks[l]);
        StoredSame(before.hot, after.hot, blocks[l], blocks[l], w, KeyModel(s.entries[i].key).TokenBytes(l),
                   KeyContent(s.entries[i].key, l, cfg.blockTokens, w));
      }
    }
  }

  lemma SliceShape(s: State, slice: Slice, frontier: map<nat, nat>, reserved: seq<Slice>, exempt: set<nat>, cfg: Config)
    requires Inv(s, cfg) && Covering(s, frontier, cfg) && Exclusive(s, frontier, cfg) && Continues(s, frontier, reserved, slice, cfg)
    requires Clean(s, reserved, exempt, cfg) && BatchOk(s, frontier, reserved)
    ensures var longer := reserved + [slice];
      && Covering(s, Advanced(frontier, slice), cfg) && Exclusive(s, Advanced(frontier, slice), cfg)
      && Clean(s, longer, exempt, cfg) && BatchOk(s, Advanced(frontier, slice), longer)
  {
    hide Inv;
    var longer := reserved + [slice];
    var next := Advanced(frontier, slice);
    forall id: nat, l: nat, o: nat | id in s.kv && s.kv[id].tier.Hot? && Unfinished(s.kv[id], next[id], cfg.blockTokens, l, o)
      ensures s.hot.refs[s.kv[id].table[l][o]] == 1
    {
      assert Unfinished(s.kv[id], frontier[id], cfg.blockTokens, l, o);
    }
    forall i | 0 <= i < |reserved| ensures reserved[i].request != slice.request {
      assert reserved[i].request in InBatch(reserved);
    }
    SliceClean(s, slice, frontier, reserved, exempt, cfg);
  }

  lemma SliceClean(s: State, slice: Slice, frontier: map<nat, nat>, reserved: seq<Slice>, exempt: set<nat>, cfg: Config)
    requires Inv(s, cfg) && frontier.Keys == s.kv.Keys && Exclusive(s, frontier, cfg) && Continues(s, frontier, reserved, slice, cfg)
    requires Clean(s, reserved, exempt, cfg)
    ensures Clean(s, reserved + [slice], exempt, cfg)
  {
    hide Inv, Exclusive, Continues, Dirty;
    var longer := reserved + [slice];
    ContinuesHot(s, frontier, reserved, slice, cfg);
    WriteAllPush((b: nat, x: nat) => Part(Private(0, 0, 0), 0), s.kv, reserved, slice, cfg.blockTokens);
    InBatchPush(reserved, slice);
    forall id: nat, b: nat | id in s.kv && s.kv[id].tier.Hot? && id !in InBatch(longer) && id !in exempt && b in Cells(s.kv[id].table)
      ensures b !in Dirty(s.kv, longer, cfg.blockTokens)
    {
      assert b !in Dirty(s.kv, reserved, cfg.blockTokens);
      var st := s.kv[slice.request];
      if b in Touched(st.request.model, st.table, slice, cfg.blockTokens) {
        var x :| Written(st.request.model, st.table, slice, cfg.blockTokens, b, x);
        var cell := Winner(st.request.model, st.table, slice, cfg.blockTokens, b, x);
        WritesAreExclusive(s, frontier, reserved, slice, cfg, b, x, cell);
      }
    }
  }

  lemma ContinuesHot(s: State, frontier: map<nat, nat>, reserved: seq<Slice>, slice: Slice, cfg: Config)
    requires Continues(s, frontier, reserved, slice, cfg)
    ensures slice.request in s.kv && s.kv[slice.request].tier.Hot?
  {
  }

  lemma InBatchPush(reserved: seq<Slice>, slice: Slice)
    ensures InBatch(reserved + [slice]) == InBatch(reserved) + {slice.request}
  {
    var longer := reserved + [slice];
    forall id ensures id in InBatch(longer) <==> id in InBatch(reserved) + {slice.request} {
      if id in InBatch(longer) {
        var i :| 0 <= i < |longer| && longer[i].request == id;
        assert i < |reserved| ==> reserved[i].request == id;
      }
      if id in InBatch(reserved) {
        var i :| 0 <= i < |reserved| && reserved[i].request == id;
        assert longer[i].request == id;
      }
      if id == slice.request {
        assert longer[|reserved|].request == id;
      }
    }
  }
}
