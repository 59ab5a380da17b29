/** What the blocks contain: block copies between the tiers and the KV writes of a batch. */
module KvMemory {
  import opened Modular
  import opened PrefixKeys
  import opened Tables
  import opened PlacementSpec

  /** One byte of a token's KV at one layer. */
  datatype Byte = Part(content: Content, index: nat)

  /** The content of byte x of block b. */
  type Memory = (nat, nat) -> Byte

  datatype Mems = Mems(hot: Memory, cold: Memory)
  {
    ghost function Of(tier: Tier): Memory
    {
      if tier.Hot? then hot else cold
    }
  }

  // ------------------------------------------------------------------- tokens

  /** Byte j of slot w: a layer packs its tokens from the first byte of a block on. */
  function At(w: nat, tokenBytes: nat, j: nat): nat
  {
    w * tokenBytes + j
  }

  lemma AtOnce(w: nat, w': nat, tokenBytes: nat, j: nat, j': nat)
    requires j < tokenBytes && j' < tokenBytes && At(w, tokenBytes, j) == At(w', tokenBytes, j')
    ensures w == w' && j == j'
  {
    DivModUnique(At(w, tokenBytes, j), tokenBytes, w, j);
    DivModUnique(At(w', tokenBytes, j'), tokenBytes, w', j');
  }

  /** Slot w of block b holds a whole token. */
  ghost predicate Stored(memory: Memory, b: nat, w: nat, tokenBytes: nat, content: Content)
  {
    forall j: nat :: j < tokenBytes ==> memory(b, At(w, tokenBytes, j)) == Part(content, j)
  }

  lemma StoredSame(memory: Memory, after: Memory, b: nat, c: nat, w: nat, tokenBytes: nat, content: Content)
    requires Stored(memory, b, w, tokenBytes, content) && forall x: nat :: after(c, x) == memory(b, x)
    ensures Stored(after, c, w, tokenBytes, content)
  {
  }

  // ------------------------------------------------------------------- copies

  ghost function Overwrite(memory: Memory, from: Memory, source: nat, destination: nat): Memory
  {
    (b: nat, w: nat) => if b == destination then from(source, w) else memory(b, w)
  }

  ghost function CopyRow(target: Memory, from: Memory, source: seq<nat>, destination: seq<nat>): Memory
    requires |source| == |destination|
  {
    if source == [] then target
    else CopyRow(Overwrite(target, from, source[0], destination[0]), from, source[1..], destination[1..])
  }

  ghost predicate SameShape(a: Table, b: Table)
  {
    |a| == |b| && forall l :: 0 <= l < |a| ==> |a[l]| == |b[l]|
  }

  ghost function CopyTable(target: Memory, from: Memory, source: Table, destination: Table): Memory
    requires SameShape(source, destination)
  {
    if source == [] then target
    else
      assert |source[0]| == |destination[0]|;
      CopyTable(CopyRow(target, from, source[0], destination[0]), from, source[1..], destination[1..])
  }

  lemma {:induction false} CopyRowElsewhere(target: Memory, from: Memory, source: seq<nat>, destination: seq<nat>, b: nat, w: nat)
    requires |source| == |destination| && b !in destination
    ensures CopyRow(target, from, source, destination)(b, w) == target(b, w)
  {
    if source != [] {
      CopyRowElsewhere(Overwrite(target, from, source[0], destination[0]), from, source[1..], destination[1..], b, w);
    }
  }

  /** Distinct destinations receive their own sources. */
  lemma {:induction false} CopyRowAt(target: Memory, from: Memory, source: seq<nat>, destination: seq<nat>, o: nat, w: nat)
    requires |source| == |destination| && o < |source| && multiset(destination)[destination[o]] == 1
    ensures CopyRow(target, from, source, destination)(destination[o], w) == from(source[o], w)
  {
    assert destination == [destination[0]] + destination[1..];
    var next := Overwrite(target, from, source[0], destination[0]);
    if o == 0 {
      assert destination[0] !in multiset(destination[1..]);
      CopyRowElsewhere(next, from, source[1..], destination[1..], destination[0], w);
    } else {
      assert destination[o] in multiset(destination[1..]);
      CopyRowAt(next, from, source[1..], destination[1..], o - 1, w);
    }
  }

  lemma {:induction false} CopyTableElsewhere(target: Memory, from: Memory, source: Table, destination: Table, b: nat, w: nat)
    requires SameShape(source, destination) && b !in Cells(destination)
    ensures CopyTable(target, from, source, destination)(b, w) == target(b, w)
  {
    if source != [] {
      assert |source[0]| == |destination[0]|;
      assert b !in multiset(destination[0]);
      CopyTableElsewhere(CopyRow(target, from, source[0], destination[0]), from, source[1..], destination[1..], b, w);
      CopyRowElsewhere(target, from, source[0], destination[0], b, w);
    }
  }

  /** A copied table reads as its source did, cell by cell. */
  lemma {:induction false} CopyTableAt(target: Memory, from: Memory, source: Table, destination: Table, l: nat, o: nat, w: nat)
    requires SameShape(source, destination) && l < |source| && o < |source[l]|
    requires Cells(destination)[destination[l][o]] == 1
    ensures CopyTable(target, from, source, destination)(destination[l][o], w) == from(source[l][o], w)
  {
    assert |source[0]| == |destination[0]|;
    var next := CopyRow(target, from, source[0], destination[0]);
    var b := destination[l][o];
    if l == 0 {
      assert b in multiset(destination[0]);
      CopyRowAt(target, from, source[0], destination[0], o, w);
      CopyTableElsewhere(next, from, source[1..], destination[1..], b, w);
    } else {
      CellIn(destination[1..], l - 1, o);
      CopyTableAt(next, from, source[1..], destination[1..], l - 1, o, w);
    }
  }

  ghost predicate MigrationShaped(m: Migration)
  {
    SameShape(m.source, m.destination)
  }

  ghost function Apply(mems: Mems, m: Migration): Mems
  {
    if !MigrationShaped(m) then mems
    else if m.toCold then Mems(mems.hot, CopyTable(mems.cold, mems.hot, m.source, m.destination))
    else Mems(CopyTable(mems.hot, mems.cold, m.source, m.destination), mems.cold)
  }

  /** The pending migrations, executed in the order in which they were decided. */
  ghost function ApplyAll(mems: Mems, migrations: seq<Migration>): Mems
  {
    if migrations == [] then mems
    else Apply(ApplyAll(mems, migrations[..|migrations| - 1]), migrations[|migrations| - 1])
  }

  // ------------------------------------------------------------------- writes

  /** A byte of a request's table: byte `index` of slot `slot` of block `ordinal` of a layer. */
  datatype Cell = Cell(layer: nat, ordinal: nat, slot: nat, index: nat)

  /** Byte x of block b is where the slice puts this byte of one of its tokens. */
  ghost predicate Lands(model: Model, table: Table, slice: Slice, blockTokens: nat, b: nat, x: nat, cell: Cell)
  {
    && cell.layer < |table| && cell.ordinal < |table[cell.layer]| && table[cell.layer][cell.ordinal] == b
    && cell.slot < blockTokens && slice.begin <= Span(cell.ordinal, blockTokens) + cell.slot < slice.End()
    && cell.index < model.TokenBytes(cell.layer) && x == At(cell.slot, model.TokenBytes(cell.layer), cell.index)
  }

  ghost predicate Written(model: Model, table: Table, slice: Slice, blockTokens: nat, b: nat, x: nat)
  {
    exists cell :: Lands(model, table, slice, blockTokens, b, x, cell)
  }

  ghost function Winner(model: Model, table: Table, slice: Slice, blockTokens: nat, b: nat, x: nat): (cell: Cell)
    requires Written(model, table, slice, blockTokens, b, x)
    ensures Lands(model, table, slice, blockTokens, b, x, cell)
  {
    var cell :| Lands(model, table, slice, blockTokens, b, x, cell);
    cell
  }

  /** The KV writes of one slice, in no particular order among themselves. */
  ghost function WriteSlice(memory: Memory, request: Request, table: Table, slice: Slice, blockTokens: nat): Memory
  {
    (b: nat, x: nat) =>
      if Written(request.model, table, slice, blockTokens, b, x) then
        var cell := Winner(request.model, table, slice, blockTokens, b, x);
        Part(KvOf(request, cell.layer, Span(cell.ordinal, blockTokens) + cell.slot), cell.index)
      else memory(b, x)
  }

  ghost function WriteAll(memory: Memory, kv: map<nat, RequestKv>, slices: seq<Slice>, blockTokens: nat): Memory
  {
    if slices == [] then memory
    else
      var last := slices[|slices| - 1];
      var before := WriteAll(memory, kv, slices[..|slices| - 1], blockTokens);
      if last.request in kv
      then WriteSlice(before, kv[last.request].request, kv[last.request].table, last, blockTokens)
      else before
  }

  /** The blocks a slice writes to. */
  ghost function Touched(model: Model, table: Table, slice: Slice, blockTokens: nat): (blocks: set<nat>)
    ensures forall b, x :: Written(model, table, slice, blockTokens, b, x) ==> b in blocks
    ensures forall b :: b in blocks ==> exists x :: Written(model, table, slice, blockTokens, b, x)
  {
    assert forall b, x :: Written(model, table, slice, blockTokens, b, x) ==> b in Cells(table) by {
      forall b, x, cell | Lands(model, table, slice, blockTokens, b, x, cell) ensures b in Cells(table) {
        CellIn(table, cell.layer, cell.ordinal);
      }
    }
    set b | b in Cells(table) && exists x :: Written(model, table, slice, blockTokens, b, x)
  }

  ghost function Dirty(kv: map<nat, RequestKv>, slices: seq<Slice>, blockTokens: nat): (blocks: set<nat>)
  {
    if slices == [] then {}
    else
      var last := slices[|slices| - 1];
      Dirty(kv, slices[..|slices| - 1], blockTokens)
      + (if last.request in kv then Touched(kv[last.request].request.model, kv[last.request].table, last, blockTokens) else {})
  }

  /** Blocks that no slice writes to keep their content. */
  lemma {:induction false} WriteElsewhere(memory: Memory, kv: map<nat, RequestKv>, slices: seq<Slice>, blockTokens: nat, b: nat, w: nat)
    requires b !in Dirty(kv, slices, blockTokens)
    ensures WriteAll(memory, kv, slices, blockTokens)(b, w) == memory(b, w)
  {
    if slices != [] {
      WriteElsewhere(memory, kv, slices[..|slices| - 1], blockTokens, b, w);
    }
  }

  /** What the writes leave in a block depends on what was in that block only. */
  lemma {:induction false} WriteLocal(a: Memory, a': Memory, kv: map<nat, RequestKv>, slices: seq<Slice>, blockTokens: nat, b: nat, w: nat)
    requires a(b, w) == a'(b, w)
    ensures WriteAll(a, kv, slices, blockTokens)(b, w) == WriteAll(a', kv, slices, blockTokens)(b, w)
  {
    if slices != [] {
      WriteLocal(a, a', kv, slices[..|slices| - 1], blockTokens, b, w);
    }
  }

  ghost predicate SameTables(kv: map<nat, RequestKv>, kv': map<nat, RequestKv>, slices: seq<Slice>)
  {
    forall i :: 0 <= i < |slices| ==>
      && (slices[i].request in kv <==> slices[i].request in kv')
      && (slices[i].request in kv ==>
            && kv'[slices[i].request].table == kv[slices[i].request].table
            && kv'[slices[i].request].request == kv[slices[i].request].request)
  }

  /** Requests outside the batch do not matter to its writes. */
  lemma {:induction false} WriteFrame(memory: Memory, kv: map<nat, RequestKv>, kv': map<nat, RequestKv>, slices: seq<Slice>,
                                      blockTokens: nat)
    requires SameTables(kv, kv', slices)
    ensures WriteAll(memory, kv, slices, blockTokens) == WriteAll(memory, kv', slices, blockTokens)
    ensures Dirty(kv, slices, blockTokens) == Dirty(kv', slices, blockTokens)
  {
    if slices != [] {
      WriteFrame(memory, kv, kv', slices[..|slices| - 1], blockTokens);
    }
  }
}
