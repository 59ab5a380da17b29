/** What the appends of a whole batch leave in one byte. */
module KvStores {
  import opened PrefixKeys
  import opened PlacementSpec
  import opened KvMemory
  import opened KvApart

  lemma SoleFront(s: State, slices: seq<Slice>, cfg: Config)
    requires Sole(s, slices, cfg) && slices != []
    ensures Sole(s, slices[..|slices| - 1], cfg)
  {
    hide OneWriter;
  }

  /** The byte that two cells of a block share is one cell. */
  lemma SameCell(s: State, slice: Slice, slice': Slice, blockTokens: nat, b: nat, x: nat, cell: Cell, cell': Cell)
    requires Puts(s, slice, blockTokens, b, x, cell) && Puts(s, slice', blockTokens, b, x, cell')
    requires OneWriter(s, slice, slice', blockTokens)
    ensures slice == slice' && cell == cell'
  {
    hide At;
    AtOnce(cell.slot, cell'.slot, s.kv[slice.request].request.model.TokenBytes(cell.layer), cell.index, cell'.index);
  }

  /** A byte that a slice appends to has the slice's token in the end. */
  lemma {:induction false} WriteAllPut(s: State, slices: seq<Slice>, memory: Memory, i: nat, b: nat, x: nat, cell: Cell, cfg: Config)
    requires Sole(s, slices, cfg) && i < |slices| && Puts(s, slices[i], cfg.blockTokens, b, x, cell)
    ensures WriteAll(memory, s.kv, slices, cfg.blockTokens)(b, x)
         == Part(KvOf(s.kv[slices[i].request].request, cell.layer, Span(cell.ordinal, cfg.blockTokens) + cell.slot), cell.index)
    decreases |slices|
  {
    hide Lands, OneWriter, KvOf;
    var n := |slices| - 1;
    var last := slices[n];
    SoleFront(s, slices, cfg);
    assert OneWriter(s, slices[i], last, cfg.blockTokens);
    if last.request in s.kv && Written(s.kv[last.request].request.model, s.kv[last.request].table, last, cfg.blockTokens, b, x) {
      var won := Winner(s.kv[last.request].request.model, s.kv[last.request].table, last, cfg.blockTokens, b, x);
      SameCell(s, slices[i], last, cfg.blockTokens, b, x, cell, won);
    } else {
      assert i < n;
      WriteAllPut(s, slices[..n], memory, i, b, x, cell, cfg);
    }
  }

  /** Other bytes are left alone. */
  lemma {:induction false} WriteAllElse(s: State, slices: seq<Slice>, memory: Memory, b: nat, x: nat, cfg: Config)
    requires forall i, cell :: 0 <= i < |slices| ==> !Puts(s, slices[i], cfg.blockTokens, b, x, cell)
    ensures WriteAll(memory, s.kv, slices, cfg.blockTokens)(b, x) == memory(b, x)
    decreases |slices|
  {
    hide Lands;
    if slices != [] {
      var n := |slices| - 1;
      var last := slices[n];
      WriteAllElse(s, slices[..n], memory, b, x, cfg);
      if last.request in s.kv && Written(s.kv[last.request].request.model, s.kv[last.request].table, last, cfg.blockTokens, b, x) {
        SomeCell(s, last, cfg.blockTokens, b, x);
      }
    }
  }

  lemma SomeCell(s: State, slice: Slice, blockTokens: nat, b: nat, x: nat)
    requires slice.request in s.kv && Written(s.kv[slice.request].request.model, s.kv[slice.request].table, slice, blockTokens, b, x)
    ensures exists cell :: Puts(s, slice, blockTokens, b, x, cell)
  {
    var won := Winner(s.kv[slice.request].request.model, s.kv[slice.request].table, slice, blockTokens, b, x);
    assert Puts(s, slice, blockTokens, b, x, won);
  }
}
