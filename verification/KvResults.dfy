/** One batch, executed in the order of emission: memory ends up as the plane had decided, and context
    reads find the KV that was computed.
 */
module KvResults {
  import opened PrefixKeys
  import opened PlacementSpec
  import opened KvMemory
  import opened KvRefinement
  import opened Transactions
  import opened TaskMaps
  import opened Mappings
  import opened Machines
  import opened Settlements
  import opened Emissions
  import opened KvTraffic
  import opened KvApart
  import opened KvStores
  import opened KvBatches
  import Graphs
  import KvPieces

  /** What the batch's transactions stand for. */
  ghost predicate Emitting(g: Setting, log: Log, start: nat, tasks: seq<Task>, images: seq<Image>, activation: Activation, cfg: Config)
  {
    && Matching(g.s.migrations) && Sole(g.s, g.slices, cfg) && cfg.blockTokens == g.blockTokens
    && Serving(g, tasks)
    && Batched(log, start, tasks, images, ActivationEffects(activation) + MoveEffects(MovesOf(g.s.migrations)))
    && (forall i, layer :: 0 <= i < |g.slices| && g.slices[i].request in g.s.kv && 0 <= layer < |g.s.kv[g.slices[i].request].table| ==>
          g.Holds(i, layer))
  }

  // --------------------------------------------------------------- two phases

  lemma {:induction false} PhaseEnd(log: Log, start: nat, end: nat) returns (mid: nat)
    requires start <= end <= |log| && Phased(log, start)
    ensures start <= mid <= end
    ensures forall m: nat :: start <= m < mid ==> !log[m].work.Compiled()
    ensures forall m: nat :: mid <= m < end ==> log[m].work.Compiled()
    decreases end
  {
    if end == start || !log[end - 1].work.Compiled() {
      mid := end;
    } else {
      mid := PhaseEnd(log, start, end - 1);
    }
  }

  /** Compiled operations move no block. */
  lemma {:induction false} NothingMore(log: Log, start: nat, mid: nat, end: nat)
    requires start <= mid <= end <= |log| && forall m: nat :: mid <= m < end ==> log[m].work.Compiled()
    ensures Between(log, start, end) == Between(log, start, mid)
    decreases end
  {
    if mid < end {
      NothingMore(log, start, mid, end - 1);
      assert EffectsOf(log[end - 1].work) == [];
    }
  }

  lemma Begins(log: Log, start: nat)
    requires Completes(log, start)
    ensures start < |log|
  {
  }

  /** When the compiled operations begin, the migrations have been carried out. */
  lemma MovesDone(g: Setting, log: Log, start: nat, tasks: seq<Task>, images: seq<Image>, activation: Activation, cfg: Config,
                  initial: Place -> Byte, mems: Mems) returns (mid: nat)
    requires Emitting(g, log, start, tasks, images, activation, cfg) && Shows(log, g.arena, initial, start, mems)
    ensures start <= mid <= |log| && (forall m: nat :: mid <= m < |log| ==> log[m].work.Compiled())
    ensures forall m: nat :: start <= m < mid ==> !log[m].work.Compiled()
    ensures Shows(log, g.arena, initial, mid, ApplyAll(mems, g.s.migrations))
  {
    hide Serving, Sole, Completes, Ordered, Serial, Handed, Did, Phased, PreparesFirst, KeepsOrder, Owned, Ending, MappedAll, Shows,
      MoveEffects, ActivationEffects, Matching;
    Begins(log, start);
    mid := PhaseEnd(log, start, |log|);
    MoveSteps(log, g.arena, initial, start, mid, mems);
    NothingMore(log, start, mid, |log|);
    AllBetween(log, start, ActivationEffects(activation) + MoveEffects(MovesOf(g.s.migrations)));
    SettleBatch(mems, activation, g.s.migrations);
  }

  // ------------------------------------------------------------------ appends

  /** The access that appends a byte of a slice. */
  lemma AppendAccess(g: Setting, log: Log, start: nat, tasks: seq<Task>, images: seq<Image>, activation: Activation, cfg: Config,
                     i: nat, b: nat, x: nat, cell: Cell) returns (q: nat, n: nat)
    requires Emitting(g, log, start, tasks, images, activation, cfg)
    requires i < |g.slices| && Puts(g.s, g.slices[i], g.blockTokens, b, x, cell)
    ensures start <= q < |log| && log[q].work.Access? && log[q].work.target.Kv? && log[q].work.target.write
    ensures n < log[q].work.piece.bytes
    ensures log[q].work.piece.address + n == Address(g.arena.hotBegin, b, g.arena.blockBytes, x) && x < g.arena.blockBytes
    ensures KvByte(log[q].work.target.request, log[q].work.target.layer, log[q].work.target.first + n)
         == Part(KvOf(g.St(i).request, cell.layer, Span(cell.ordinal, g.blockTokens) + cell.slot), cell.index)
  {
    hide Batched, Serving, Sole, Puts, Operand.WellFormed, KvPieces.Expanded, KvPieces.Ordinal, KvPieces.Within, Address, CellOf, KvOf, KvByte,
      KvPieces.Table.Location, Matching, Setting.Append, Total;
    PutsHolds(g, i, b, x, cell);
    PutAppends(g, i, b, x, cell);
    var width := g.St(i).request.model.TokenBytes(cell.layer);
    var at := At(Span(cell.ordinal, g.blockTokens) + cell.slot, width, cell.index);
    var j := AppendTask(g, tasks, i, cell.layer);
    var pieces := TaskPieces(log, start, tasks, images, ActivationEffects(activation) + MoveEffects(MovesOf(g.s.migrations)), j);
    var operand := tasks[j].operand;
    AppendIs(g, i, cell.layer);
    var k: nat;
    k, n := BytePiece(operand, pieces, at);
    PieceByte(operand, pieces, k, n);
    q := images[j].ids[k];
    TableByte(g, i, cell.layer, at);
    CellValue(g, i, cell.layer, at);
    PutsAt(g, i, b, x, cell);
  }

  lemma AppendIs(g: Setting, i: nat, layer: nat)
    requires g.Holds(i, layer)
    ensures g.Append(i, layer).KvRange? && g.Append(i, layer).write && g.Append(i, layer).layer == layer
    ensures g.Append(i, layer).request == g.St(i).request
    ensures g.Append(i, layer).table == TableOf(g.St(i), layer, g.blockTokens, g.arena) && g.Append(i, layer).table.used > 0
  {
    ByteCell(0, g.St(i).request.model.TokenBytes(layer), g.blockTokens);
  }

  lemma PutsHolds(g: Setting, i: nat, b: nat, x: nat, cell: Cell)
    requires i < |g.slices| && Puts(g.s, g.slices[i], g.blockTokens, b, x, cell)
    requires forall i, layer :: 0 <= i < |g.slices| && g.slices[i].request in g.s.kv && 0 <= layer < |g.s.kv[g.slices[i].request].table| ==>
      g.Holds(i, layer)
    ensures g.Holds(i, cell.layer)
  {
  }

  lemma PutsAt(g: Setting, i: nat, b: nat, x: nat, cell: Cell)
    requires i < |g.slices| && Puts(g.s, g.slices[i], g.blockTokens, b, x, cell)
    ensures var st := g.St(i);
      && cell.layer < |st.table| && cell.ordinal < |st.table[cell.layer]| && b == st.table[cell.layer][cell.ordinal]
      && x == At(cell.slot, st.request.model.TokenBytes(cell.layer), cell.index)
  {
  }

  lemma AppendTask(g: Setting, tasks: seq<Task>, i: nat, layer: nat) returns (j: nat)
    requires Serving(g, tasks) && g.Holds(i, layer)
    ensures j < |tasks| && tasks[j].Memory? && Appending(g, tasks[j].operand, i, layer)
  {
    hide Appending;
    assert HasAppend(g, tasks, i, layer);
    j :| 0 <= j < |tasks| && tasks[j].Memory? && Appending(g, tasks[j].operand, i, layer);
  }

  /** How an operation is carried out. */
  lemma TaskPieces(log: Log, start: nat, tasks: seq<Task>, images: seq<Image>, effects: seq<Effect>, j: nat)
    returns (pieces: seq<KvPieces.Piece>)
    requires Batched(log, start, tasks, images, effects) && j < |tasks| && tasks[j].Memory?
    ensures |images| == |tasks| && tasks[j].operand.WellFormed() && KvPieces.Expanded(pieces) == tasks[j].operand.Addresses()
    ensures |images[j].ids| == |pieces|
    ensures forall k: nat :: k < |pieces| ==>
      start <= images[j].ids[k] < |log| && log[images[j].ids[k]].work == PartOf(j, k, tasks[j].operand, pieces)
  {
    hide Completes, Ordered, Serial, Handed, Did, Phased, PreparesFirst, KeepsOrder, Operand.WellFormed, KvPieces.Expanded, Owned;
    var roots :| MappedAll(log, tasks, roots, images);
    assert Mapped(log, j, tasks[j], roots, images);
    pieces :| CarriedAs(log, j, images[j].ids, tasks[j].operand, pieces);
    assert Own(images[j].ids, start, |log|);
    forall k: nat | k < |pieces|
      ensures start <= images[j].ids[k] < |log| && log[images[j].ids[k]].work == PartOf(j, k, tasks[j].operand, pieces)
    {
      assert images[j].ids[k] in images[j].ids;
    }
  }

  /** A transaction of the compiled part that writes a byte of HBM is an append that puts it. */
  lemma Putter(g: Setting, log: Log, start: nat, tasks: seq<Task>, images: seq<Image>, activation: Activation, cfg: Config,
               m: nat, b: nat, x: nat)
    requires Emitting(g, log, start, tasks, images, activation, cfg) && start <= m < |log| && log[m].work.Compiled()
    requires InHbm(Address(g.arena.hotBegin, b, g.arena.blockBytes, x)) in Writes(log[m].work, m, g.arena) && x < g.arena.blockBytes
    ensures log[m].work.Access? && log[m].work.target.Kv? && log[m].work.target.write
    ensures exists i, cell :: 0 <= i < |g.slices| && Puts(g.s, g.slices[i], g.blockTokens, b, x, cell)
  {
    hide Batched, Serving, Sole, Puts, Address, CellOf, KvOf, KvByte, Matching, Setting.Append, Setting.Holds;
    var n := Address(g.arena.hotBegin, b, g.arena.blockBytes, x) - log[m].work.piece.address;
    var i, b', x', cell := WriteByte(g, log, start, tasks, images,
                                     ActivationEffects(activation) + MoveEffects(MovesOf(g.s.migrations)), m, n);
    AddressOnce(g.arena.hotBegin, b, b', g.arena.blockBytes, x, x');
  }

  /** A byte that a slice appends to: nobody writes it behind the one access that does. */
  lemma AppendedByte(g: Setting, log: Log, start: nat, tasks: seq<Task>, images: seq<Image>, activation: Activation, cfg: Config,
                     initial: Place -> Byte, mid: nat, memory: Memory, i: nat, b: nat, x: nat, cell: Cell)
    requires Emitting(g, log, start, tasks, images, activation, cfg) && start <= mid <= |log|
    requires forall m: nat :: mid <= m < |log| ==> log[m].work.Compiled()
    requires forall m: nat :: start <= m < mid ==> !log[m].work.Compiled()
    requires i < |g.slices| && Puts(g.s, g.slices[i], g.blockTokens, b, x, cell)
    ensures After(log, g.arena, initial, |log|, InHbm(Address(g.arena.hotBegin, b, g.arena.blockBytes, x)))
         == WriteAll(memory, g.s.kv, g.slices, g.blockTokens)(b, x)
  {
    hide Batched, Serving, Sole, Puts, Address, KvOf, KvByte, Matching, Setting.Holds, After, Writes, WriteAll;
    var place := InHbm(Address(g.arena.hotBegin, b, g.arena.blockBytes, x));
    var q, n := AppendAccess(g, log, start, tasks, images, activation, cfg, i, b, x, cell);
    Step(log, g.arena, initial, q, place);
    AccessWrites(log[q].work, q, n, g.arena);
    forall m: nat | q < m < |log| ensures place !in Writes(log[m].work, m, g.arena) {
      OnlyWriter(g, log, start, tasks, images, activation, cfg, q, n, m);
    }
    Unchanged(log, g.arena, initial, q + 1, |log|, place);
    WriteAllPut(g.s, g.slices, memory, i, b, x, cell, cfg);
  }

  lemma AccessWrites(work: Work, q: nat, n: nat, arena: Arena)
    requires work.Access? && work.target.Kv? && n < work.piece.bytes
    ensures var place := InHbm(work.piece.address + n);
      && (if work.target.write then place in Writes(work, q, arena) else place in Reads(work, q, arena))
      && forall view :: Result(work, place, view, arena) == KvByte(work.target.request, work.target.layer, work.target.first + n)
  {
  }

  /** No other transaction of the compiled part writes the byte that q appends. */
  lemma OnlyWriter(g: Setting, log: Log, start: nat, tasks: seq<Task>, images: seq<Image>, activation: Activation, cfg: Config,
                   q: nat, n: nat, m: nat)
    requires Emitting(g, log, start, tasks, images, activation, cfg)
    requires start <= q < |log| && log[q].work.Access? && log[q].work.target.Kv? && log[q].work.target.write && n < log[q].work.piece.bytes
    requires start <= m < |log| && log[m].work.Compiled() && m != q
    ensures InHbm(log[q].work.piece.address + n) !in Writes(log[m].work, m, g.arena)
  {
    hide Batched, Serving, Sole, Matching, Setting.Holds;
    if InHbm(log[q].work.piece.address + n) in Writes(log[m].work, m, g.arena) {
      var n' := log[q].work.piece.address + n - log[m].work.piece.address;
      OneAccess(g, log, start, tasks, images, ActivationEffects(activation) + MoveEffects(MovesOf(g.s.migrations)), q, n, m, n', cfg);
    }
  }

  /** Any other byte stays as the migrations left it. */
  lemma OtherByte(g: Setting, log: Log, start: nat, tasks: seq<Task>, images: seq<Image>, activation: Activation, cfg: Config,
                  initial: Place -> Byte, mid: nat, memory: Memory, b: nat, x: nat)
    requires Emitting(g, log, start, tasks, images, activation, cfg) && start <= mid <= |log| && x < g.arena.blockBytes
    requires forall m: nat :: mid <= m < |log| ==> log[m].work.Compiled()
    requires forall i, cell :: 0 <= i < |g.slices| ==> !Puts(g.s, g.slices[i], g.blockTokens, b, x, cell)
    ensures var place := InHbm(Address(g.arena.hotBegin, b, g.arena.blockBytes, x));
      After(log, g.arena, initial, |log|, place) == After(log, g.arena, initial, mid, place)
    ensures WriteAll(memory, g.s.kv, g.slices, g.blockTokens)(b, x) == memory(b, x)
  {
    hide Batched, Serving, Sole, Puts, Address, Matching, Setting.Holds, After, Writes, WriteAll;
    var place := InHbm(Address(g.arena.hotBegin, b, g.arena.blockBytes, x));
    forall m: nat | mid <= m < |log| ensures place !in Writes(log[m].work, m, g.arena) {
      if place in Writes(log[m].work, m, g.arena) {
        Putter(g, log, start, tasks, images, activation, cfg, m, b, x);
      }
    }
    Unchanged(log, g.arena, initial, mid, |log|, place);
    WriteAllElse(g.s, g.slices, memory, b, x, cfg);
  }

  /** The compiled part touches no cold block. */
  lemma ColdByte(log: Log, arena: Arena, initial: Place -> Byte, mid: nat, address: nat)
    requires mid <= |log| && forall m: nat :: mid <= m < |log| ==> log[m].work.Compiled()
    ensures After(log, arena, initial, |log|, InCold(address)) == After(log, arena, initial, mid, InCold(address))
  {
    hide After;
    Unchanged(log, arena, initial, mid, |log|, InCold(address));
  }

  /** After the batch's transactions, one after the other, both pools are as the plane had decided. */
  lemma BatchShows(g: Setting, log: Log, start: nat, tasks: seq<Task>, images: seq<Image>, activation: Activation, cfg: Config,
                   initial: Place -> Byte, mems: Mems)
    requires Emitting(g, log, start, tasks, images, activation, cfg) && Shows(log, g.arena, initial, start, mems)
    ensures Shows(log, g.arena, initial, |log|, Future(g.s, mems, g.slices, cfg))
  {
    hide Emitting, Puts, Address, After, WriteAll, ApplyAll;
    var mid := MovesDone(g, log, start, tasks, images, activation, cfg, initial, mems);
    var moved, end := ApplyAll(mems, g.s.migrations), |log|;
    EmittingUnits(g, log, start, tasks, images, activation, cfg);
    var future := Future(g.s, mems, g.slices, cfg);
    forall b: nat, x: nat | x < g.arena.blockBytes ensures ShowsAt(log, g.arena, initial, end, future, b, x) {
      assert ShowsAt(log, g.arena, initial, mid, moved, b, x);
      ColdByte(log, g.arena, initial, mid, Address(g.arena.coldBegin, b, g.arena.blockBytes, x));
      if i, cell :| 0 <= i < |g.slices| && Puts(g.s, g.slices[i], g.blockTokens, b, x, cell) {
        AppendedByte(g, log, start, tasks, images, activation, cfg, initial, mid, moved.hot, i, b, x, cell);
      } else {
        OtherByte(g, log, start, tasks, images, activation, cfg, initial, mid, moved.hot, b, x);
      }
    }
  }

  lemma EmittingUnits(g: Setting, log: Log, start: nat, tasks: seq<Task>, images: seq<Image>, activation: Activation, cfg: Config)
    requires Emitting(g, log, start, tasks, images, activation, cfg)
    ensures cfg.blockTokens == g.blockTokens
  {
  }

  // ------------------------------------------------------------------ contexts

  /** The plane's promise about the slices: in front of each, memory holds its request's KV. */
  ghost predicate Primed(g: Setting, future: Mems, i: nat)
    requires i < |g.slices| && g.slices[i].request in g.s.kv
  {
    ReadsRight(g.St(i), g.slices[i].begin, future.hot, g.blockTokens)
  }

  ghost predicate AllPrimed(g: Setting, future: Mems)
  {
    forall i :: 0 <= i < |g.slices| ==> g.slices[i].request in g.s.kv && Primed(g, future, i)
  }

  /** A byte of the context is in the block, at the place, and with the content that it should. */
  lemma ContextByte(g: Setting, log: Log, start: nat, tasks: seq<Task>, images: seq<Image>, activation: Activation, cfg: Config,
                    future: Mems, q: nat, n: nat) returns (b: nat, x: nat, content: Content, j: nat)
    requires Emitting(g, log, start, tasks, images, activation, cfg) && AllPrimed(g, future)
    requires start <= q < |log| && log[q].work.Access? && log[q].work.target.Kv? && !log[q].work.target.write && n < log[q].work.piece.bytes
    ensures x < g.arena.blockBytes && log[q].work.piece.address + n == Address(g.arena.hotBegin, b, g.arena.blockBytes, x)
    ensures future.hot(b, x) == Part(content, j) == KvByte(log[q].work.target.request, log[q].work.target.layer, log[q].work.target.first + n)
    ensures exists request, position :: content == KvOf(request, log[q].work.target.layer, position)
  {
    hide Batched, Serving, Sole, Operand.WellFormed, KvPieces.Ordinal, KvPieces.Within, Address, KvOf, KvByte, At, CellOf,
      KvPieces.Table.Location, Matching, Primed, TokenAt;
    var i := AccessByte(g, log, start, tasks, images, ActivationEffects(activation) + MoveEffects(MovesOf(g.s.migrations)), q, n);
    var target := log[q].work.target;
    var st, layer, at := g.St(i), target.layer, target.first + n;
    var width := st.request.model.TokenBytes(layer);
    TableByte(g, i, layer, at);
    CellValue(g, i, layer, at);
    var cell := CellOf(layer, at, width, g.blockTokens);
    ByteCell(at, width, g.blockTokens);
    CellOfParts(layer, at, width, g.blockTokens);
    BytesOrdered(g.slices[i].begin, Span(cell.ordinal, g.blockTokens) + cell.slot, cell.index, width);
    b, x := st.table[layer][cell.ordinal], At(cell.slot, width, cell.index);
    content, j := KvOf(st.request, layer, Span(cell.ordinal, g.blockTokens) + cell.slot), cell.index;
    PrimedToken(g, future, i, layer, cell.ordinal, cell.slot);
    TokenByte(st, future.hot, g.blockTokens, layer, cell.ordinal, cell.slot, cell.index);
  }

  lemma CellOfParts(layer: nat, i: nat, width: nat, blockTokens: nat)
    requires width > 0 && blockTokens > 0
    ensures CellOf(layer, i, width, blockTokens) == CellOf(0, i, width, blockTokens).(layer := layer)
  {
  }

  lemma PrimedToken(g: Setting, future: Mems, i: nat, layer: nat, o: nat, w: nat)
    requires i < |g.slices| && g.slices[i].request in g.s.kv && Primed(g, future, i)
    requires layer < |g.St(i).table| && o < |g.St(i).table[layer]| && w < g.blockTokens && Span(o, g.blockTokens) + w < g.slices[i].begin
    ensures TokenAt(g.St(i), future.hot, g.blockTokens, layer, o, w)
  {
  }

  lemma TokenByte(st: RequestKv, memory: Memory, blockTokens: nat, l: nat, o: nat, w: nat, j: nat)
    requires l < |st.table| && o < |st.table[l]| && TokenAt(st, memory, blockTokens, l, o, w) && j < st.request.model.TokenBytes(l)
    ensures memory(st.table[l][o], At(w, st.request.model.TokenBytes(l), j)) == Part(KvOf(st.request, l, Span(o, blockTokens) + w), j)
  {
  }

  /** KV of different layers is different. */
  lemma OneLayer(request: Request, layer: nat, position: nat, request': Request, layer': nat, position': nat)
    requires KvOf(request, layer, position) == KvOf(request', layer', position')
    ensures layer == layer'
  {
  }

  /** An append to a byte of a context comes before that context is read. */
  lemma AppendsBefore(g: Setting, log: Log, start: nat, tasks: seq<Task>, images: seq<Image>, activation: Activation, cfg: Config,
                      mems: Mems, q: nat, n: nat, m: nat)
    requires Emitting(g, log, start, tasks, images, activation, cfg) && AllPrimed(g, Future(g.s, mems, g.slices, cfg))
    requires start <= q < |log| && log[q].work.Access? && log[q].work.target.Kv? && !log[q].work.target.write && n < log[q].work.piece.bytes
    requires start <= m < |log| && log[m].work.Compiled() && InHbm(log[q].work.piece.address + n) in Writes(log[m].work, m, g.arena)
    ensures Transactions.Before(log, m, q)
  {
    hide Batched, Serving, Sole, Operand.WellFormed, Address, KvOf, KvByte, At, CellOf, Matching, Primed, Puts, Setting.Holds,
      Setting.Append, WriteAll, ApplyAll, Transactions.Before;
    var effects := ActivationEffects(activation) + MoveEffects(MovesOf(g.s.migrations));
    var future := Future(g.s, mems, g.slices, cfg);
    var b, x, content, j := ContextByte(g, log, start, tasks, images, activation, cfg, future, q, n);
    var n' := log[q].work.piece.address + n - log[m].work.piece.address;
    var i', b', x', cell := WriteByte(g, log, start, tasks, images, effects, m, n');
    AddressOnce(g.arena.hotBegin, b, b', g.arena.blockBytes, x, x');
    WriteAllPut(g.s, g.slices, ApplyAll(mems, g.s.migrations).hot, i', b, x, cell, cfg);
    var request, position :| content == KvOf(request, log[q].work.target.layer, position);
    OneLayer(request, log[q].work.target.layer, position, g.St(i').request, cell.layer, Span(cell.ordinal, g.blockTokens) + cell.slot);
    EarlierFirst(g, log, start, tasks, images, effects, m, n', q, n);
  }

  lemma EarlierFirst(g: Setting, log: Log, start: nat, tasks: seq<Task>, images: seq<Image>, effects: seq<Effect>, m: nat, n': nat, q: nat, n: nat)
    requires Batched(log, start, tasks, images, effects) && Serving(g, tasks) && start <= q < |log| && start <= m < |log|
    requires log[q].work.Access? && log[q].work.target.Kv? && !log[q].work.target.write && n < log[q].work.piece.bytes
    requires log[m].work.Access? && log[m].work.target.Kv? && log[m].work.target.write && n' < log[m].work.piece.bytes
    requires log[q].work.target.layer == log[m].work.target.layer
    ensures Transactions.Before(log, m, q)
  {
    hide Transactions.Before, Ancestor, Batched, Serving, Operand.WellFormed, Setting.Holds, KvPieces.Ordinal, KvPieces.Table.Location;
    var i := AccessByte(g, log, start, tasks, images, effects, q, n);
    var i' := AccessByte(g, log, start, tasks, images, effects, m, n');
    TasksOrdered(g, tasks, log[m].work.task, log[q].work.task);
    LogOrdered(log, start, tasks, images, effects, m, q);
  }

  lemma TasksOrdered(g: Setting, tasks: seq<Task>, j: nat, j': nat)
    requires Serving(g, tasks) && j < |tasks| && j' < |tasks| && Earlier(tasks[j], tasks[j'])
    ensures Ancestor(tasks, j, j')
  {
    hide Ancestor, Appending, Recalling;
  }

  lemma LogOrdered(log: Log, start: nat, tasks: seq<Task>, images: seq<Image>, effects: seq<Effect>, m: nat, q: nat)
    requires Batched(log, start, tasks, images, effects) && start <= m < |log| && start <= q < |log|
    requires log[m].work.Access? && log[q].work.Access? && Ancestor(tasks, log[m].work.task, log[q].work.task)
    ensures Transactions.Before(log, m, q)
  {
    hide Transactions.Before, Ancestor, Completes, Ordered, Serial, Handed, Did, Phased, PreparesFirst, Owned, Ending, MappedAll;
    assert Served(log, start, m) && Served(log, start, q);
  }

  lemma {:induction false} BeforeEarlier(log: Log, i: nat, j: nat)
    requires Transactions.Before(log, i, j)
    ensures i <= j
    decreases j
  {
    var g := Deps(log);
    if i != j {
      var k :| 0 <= k < |g[j]| && g[j][k] < j && Graphs.Precedes(g, i, g[j][k]);
      BeforeEarlier(log, i, g[j][k]);
    }
  }

  /** Context reads find the KV of the tokens in front of their slices. */
  lemma ContextRight(g: Setting, log: Log, start: nat, tasks: seq<Task>, images: seq<Image>, activation: Activation, cfg: Config,
                     initial: Place -> Byte, mems: Mems, q: nat, n: nat)
    requires Emitting(g, log, start, tasks, images, activation, cfg) && Shows(log, g.arena, initial, start, mems)
    requires AllPrimed(g, Future(g.s, mems, g.slices, cfg))
    requires start <= q < |log| && log[q].work.Access? && log[q].work.target.Kv? && !log[q].work.target.write && n < log[q].work.piece.bytes
    ensures After(log, g.arena, initial, q, InHbm(log[q].work.piece.address + n))
         == KvByte(log[q].work.target.request, log[q].work.target.layer, log[q].work.target.first + n)
  {
    hide Emitting, Address, After, KvByte, Future, Transactions.Before, Primed;
    var future := Future(g.s, mems, g.slices, cfg);
    var place := InHbm(log[q].work.piece.address + n);
    var b, x, content, j := ContextByte(g, log, start, tasks, images, activation, cfg, future, q, n);
    BatchShows(g, log, start, tasks, images, activation, cfg, initial, mems);
    assert ShowsAt(log, g.arena, initial, |log|, future, b, x);
    EmittingPhased(g, log, start, tasks, images, activation, cfg);
    forall m: nat | q <= m < |log| ensures place !in Writes(log[m].work, m, g.arena) {
      if place in Writes(log[m].work, m, g.arena) {
        assert m == q || log[m].work.Compiled();
        AppendsBefore(g, log, start, tasks, images, activation, cfg, mems, q, n, m);
        BeforeEarlier(log, m, q);
      }
    }
    Unchanged(log, g.arena, initial, q, |log|, place);
  }

  lemma EmittingPhased(g: Setting, log: Log, start: nat, tasks: seq<Task>, images: seq<Image>, activation: Activation, cfg: Config)
    requires Emitting(g, log, start, tasks, images, activation, cfg)
    ensures Phased(log, start)
  {
  }
}
