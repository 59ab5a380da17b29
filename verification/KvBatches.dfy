/** The accesses of one batch, seen from the plane: every append lands in the slice's own cells, every
    byte of a slice is appended once, and context is read where the tokens before the slice are.
 */
module KvBatches {
  import opened PrefixKeys
  import opened PlacementSpec
  import opened KvMemory
  import opened Transactions
  import opened TaskMaps
  import opened Machines
  import opened KvTraffic
  import opened KvApart
  import KvPieces

  /** What the batch is about: the plane's state, the slices, and how blocks are laid out. */
  datatype Setting = Setting(s: State, slices: seq<Slice>, blockTokens: nat, arena: Arena)
  {
    ghost predicate Holds(i: nat, layer: nat)
    {
      && i < |slices| && slices[i].request in s.kv && blockTokens > 0
      && layer < |s.kv[slices[i].request].table|
      && 0 < s.kv[slices[i].request].request.model.TokenBytes(layer)
      && At(blockTokens, s.kv[slices[i].request].request.model.TokenBytes(layer), 0) <= arena.blockBytes
    }

    function St(i: nat): RequestKv
      requires i < |slices| && slices[i].request in s.kv
    {
      s.kv[slices[i].request]
    }

    function Append(i: nat, layer: nat): Operand
      requires i < |slices| && slices[i].request in s.kv
    {
      AppendOf(St(i), slices[i], layer, blockTokens, arena)
    }

    function Context(i: nat, layer: nat): Operand
      requires i < |slices| && slices[i].request in s.kv
    {
      ContextOf(St(i), slices[i], layer, blockTokens, arena)
    }
  }

  ghost predicate Appending(g: Setting, operand: Operand, i: nat, layer: nat)
  {
    g.Holds(i, layer) && operand == g.Append(i, layer)
  }

  ghost predicate Recalling(g: Setting, operand: Operand, i: nat, layer: nat)
  {
    g.Holds(i, layer) && operand == g.Context(i, layer)
  }

  ghost predicate HasAppend(g: Setting, tasks: seq<Task>, i: nat, layer: nat)
  {
    exists j :: 0 <= j < |tasks| && tasks[j].Memory? && Appending(g, tasks[j].operand, i, layer)
  }

  /** The batch's operations append each slice once to each layer, and read contexts behind that. */
  ghost predicate Serving(g: Setting, tasks: seq<Task>)
  {
    && (forall j :: 0 <= j < |tasks| && tasks[j].Memory? && tasks[j].operand.KvRange? ==>
          if tasks[j].operand.write then exists i :: Appending(g, tasks[j].operand, i, tasks[j].operand.layer)
          else exists i :: Recalling(g, tasks[j].operand, i, tasks[j].operand.layer))
    && (forall i, layer :: g.Holds(i, layer) ==> HasAppend(g, tasks, i, layer))
    && (forall j, j' :: 0 <= j < j' < |tasks| && tasks[j].Memory? && tasks[j'].Memory? ==> Different(g, tasks[j].operand, tasks[j'].operand))
    && (forall j, j' :: 0 <= j < |tasks| && 0 <= j' < |tasks| && Earlier(tasks[j], tasks[j']) ==> Ancestor(tasks, j, j'))
  }

  /** Not the same append. */
  ghost predicate Different(g: Setting, a: Operand, b: Operand)
  {
    forall i, layer :: Appending(g, a, i, layer) ==> !Appending(g, b, i, layer)
  }

  /** One appends to a layer, the other reads its context there. */
  ghost predicate Earlier(a: Task, b: Task)
  {
    && a.Memory? && a.operand.KvRange? && a.operand.write && b.Memory? && b.operand.KvRange? && !b.operand.write
    && a.operand.layer == b.operand.layer
  }

  // --------------------------------------------------------------- one access

  /** An access is a piece of its operation, and at its place among them. */
  lemma AccessIs(log: Log, start: nat, tasks: seq<Task>, images: seq<Image>, effects: seq<Effect>, q: nat)
    returns (pieces: seq<KvPieces.Piece>)
    requires Batched(log, start, tasks, images, effects) && start <= q < |log| && log[q].work.Access?
    ensures |images| == |tasks|
    ensures var j, k := log[q].work.task, log[q].work.part;
      && j < |tasks| && tasks[j].Memory? && tasks[j].operand.WellFormed()
      && CarriedAs(log, j, images[j].ids, tasks[j].operand, pieces)
      && k < |pieces| && images[j].ids[k] == q && log[q].work == PartOf(j, k, tasks[j].operand, pieces)
  {
    hide Completes, Ordered, Serial, Handed, Did, Phased, PreparesFirst, KeepsOrder, Operand.WellFormed, KvPieces.Expanded;
    var j := log[q].work.task;
    var roots :| MappedAll(log, tasks, roots, images);
    assert OwnedBy(images, q, j);
    assert Mapped(log, j, tasks[j], roots, images);
    var at :| 0 <= at < |images[j].ids| && images[j].ids[at] == q;
    pieces :| CarriedAs(log, j, images[j].ids, tasks[j].operand, pieces);
  }

  /** Where byte i of a layer is. */
  lemma TableByte(g: Setting, i: nat, layer: nat, at: nat)
    requires g.Holds(i, layer)
    requires var table := TableOf(g.St(i), layer, g.blockTokens, g.arena);
      table.used > 0 && KvPieces.Ordinal(at, table.used) < |table.blocks|
    ensures var st, table := g.St(i), TableOf(g.St(i), layer, g.blockTokens, g.arena);
      var cell := CellOf(layer, at, st.request.model.TokenBytes(layer), g.blockTokens);
      var x := At(cell.slot, st.request.model.TokenBytes(layer), cell.index);
      && cell.ordinal < |st.table[layer]| && x < g.arena.blockBytes
      && cell.slot < g.blockTokens && cell.index < st.request.model.TokenBytes(layer)
      && table.Location(at) == Address(g.arena.hotBegin, st.table[layer][cell.ordinal], g.arena.blockBytes, x)
  {
    hide At, KvPieces.Ordinal, KvPieces.Within;
    ByteCell(at, g.St(i).request.model.TokenBytes(layer), g.blockTokens);
  }

  lemma CellValue(g: Setting, i: nat, layer: nat, at: nat)
    requires g.Holds(i, layer)
    ensures var st := g.St(i);
      var cell := CellOf(layer, at, st.request.model.TokenBytes(layer), g.blockTokens);
      KvByte(st.request, layer, at) == Part(KvOf(st.request, layer, Span(cell.ordinal, g.blockTokens) + cell.slot), cell.index)
  {
    hide At, KvOf;
    var width := g.St(i).request.model.TokenBytes(layer);
    ByteCell(at, width, g.blockTokens);
    var cell := CellOf(layer, at, width, g.blockTokens);
    KvByteAt(g.St(i).request, layer, Span(cell.ordinal, g.blockTokens) + cell.slot, cell.index);
  }

  /** A byte of a slice's range is one that the slice puts. */
  lemma AppendPuts(g: Setting, i: nat, layer: nat, at: nat)
    requires g.Holds(i, layer) && g.Append(i, layer).WellFormed()
    requires g.Append(i, layer).offset <= at < g.Append(i, layer).offset + g.Append(i, layer).count
    ensures var st := g.St(i);
      var cell := CellOf(layer, at, st.request.model.TokenBytes(layer), g.blockTokens);
      && cell.ordinal < |st.table[layer]|
      && Puts(g.s, g.slices[i], g.blockTokens, st.table[layer][cell.ordinal], At(cell.slot, st.request.model.TokenBytes(layer), cell.index), cell)
  {
    hide At, KvPieces.Ordinal, KvPieces.Within;
    var st, slice := g.St(i), g.slices[i];
    var width := st.request.model.TokenBytes(layer);
    TableByte(g, i, layer, at);
    ByteCell(at, width, g.blockTokens);
    BytesSum(slice.begin, slice.count, width);
    var cell := CellOf(layer, at, width, g.blockTokens);
    BytesOrdered(slice.begin, Span(cell.ordinal, g.blockTokens) + cell.slot, cell.index, width);
    BytesOrdered(slice.End(), Span(cell.ordinal, g.blockTokens) + cell.slot, cell.index, width);
  }

  /** And the other way round. */
  lemma PutAppends(g: Setting, i: nat, b: nat, x: nat, cell: Cell)
    requires i < |g.slices| && Puts(g.s, g.slices[i], g.blockTokens, b, x, cell) && g.Holds(i, cell.layer)
    ensures var width := g.St(i).request.model.TokenBytes(cell.layer);
      var at := At(Span(cell.ordinal, g.blockTokens) + cell.slot, width, cell.index);
      && g.Append(i, cell.layer).offset <= at < g.Append(i, cell.layer).offset + g.Append(i, cell.layer).count
      && CellOf(cell.layer, at, width, g.blockTokens) == cell
  {
    var slice := g.slices[i];
    var width := g.St(i).request.model.TokenBytes(cell.layer);
    CellByte(cell.ordinal, cell.slot, cell.index, width, g.blockTokens);
    hide At;
    BytesSum(slice.begin, slice.count, width);
    BytesOrdered(slice.begin, Span(cell.ordinal, g.blockTokens) + cell.slot, cell.index, width);
    BytesOrdered(slice.End(), Span(cell.ordinal, g.blockTokens) + cell.slot, cell.index, width);
  }

  // ----------------------------------------------------------- bytes of accesses

  /** Byte n of an access is a byte of its slice's range. */
  lemma AccessByte(g: Setting, log: Log, start: nat, tasks: seq<Task>, images: seq<Image>, effects: seq<Effect>, q: nat, n: nat)
    returns (i: nat)
    requires Batched(log, start, tasks, images, effects) && Serving(g, tasks) && start <= q < |log|
    requires log[q].work.Access? && log[q].work.target.Kv? && n < log[q].work.piece.bytes
    ensures log[q].work.task < |tasks| && tasks[log[q].work.task].Memory?
    ensures var operand, target := tasks[log[q].work.task].operand, log[q].work.target;
      && operand.KvRange? && operand.WellFormed() && operand.table.used > 0 && target.write == operand.write && target.layer == operand.layer
      && target.request == operand.request
      && (if operand.write then Appending(g, operand, i, operand.layer) else Recalling(g, operand, i, operand.layer))
      && operand.offset <= target.first + n < operand.offset + operand.count
      && KvPieces.Ordinal(target.first + n, operand.table.used) < |operand.table.blocks|
      && log[q].work.piece.address + n == operand.table.Location(target.first + n)
  {
    hide Batched, Operand.WellFormed, KvPieces.Expanded, KvPieces.Ordinal, KvPieces.Within, Serving, Appending, Recalling, Total,
      KvPieces.Table.Location;
    var pieces := AccessIs(log, start, tasks, images, effects, q);
    var j, k := log[q].work.task, log[q].work.part;
    Ranged(tasks[j].operand);
    PieceByte(tasks[j].operand, pieces, k, n);
    i := ServedBy(g, tasks, j);
  }

  lemma Ranged(operand: Operand)
    requires operand.WellFormed()
    ensures operand.KvRange? ==> operand.table.used > 0
  {
  }

  /** Whose operation it is. */
  lemma ServedBy(g: Setting, tasks: seq<Task>, j: nat) returns (i: nat)
    requires Serving(g, tasks) && j < |tasks| && tasks[j].Memory? && tasks[j].operand.KvRange?
    ensures var operand := tasks[j].operand;
      if operand.write then Appending(g, operand, i, operand.layer) else Recalling(g, operand, i, operand.layer)
  {
    hide Appending, Recalling;
    if tasks[j].operand.write {
      i :| Appending(g, tasks[j].operand, i, tasks[j].operand.layer);
    } else {
      i :| Recalling(g, tasks[j].operand, i, tasks[j].operand.layer);
    }
  }

  /** Byte n of a write access is a byte that its slice puts. */
  lemma WriteByte(g: Setting, log: Log, start: nat, tasks: seq<Task>, images: seq<Image>, effects: seq<Effect>, q: nat, n: nat)
    returns (i: nat, b: nat, x: nat, cell: Cell)
    requires Batched(log, start, tasks, images, effects) && Serving(g, tasks) && start <= q < |log|
    requires log[q].work.Access? && log[q].work.target.Kv? && log[q].work.target.write && n < log[q].work.piece.bytes
    ensures log[q].work.task < |tasks| && tasks[log[q].work.task].Memory?
    ensures i < |g.slices|
    ensures var target := log[q].work.target;
      && Appending(g, tasks[log[q].work.task].operand, i, cell.layer) && target.layer == cell.layer
      && cell == CellOf(cell.layer, target.first + n, g.St(i).request.model.TokenBytes(cell.layer), g.blockTokens)
      && Puts(g.s, g.slices[i], g.blockTokens, b, x, cell) && x < g.arena.blockBytes
      && log[q].work.piece.address + n == Address(g.arena.hotBegin, b, g.arena.blockBytes, x)
      && KvByte(target.request, target.layer, target.first + n)
         == Part(KvOf(g.St(i).request, cell.layer, Span(cell.ordinal, g.blockTokens) + cell.slot), cell.index)
  {
    hide Batched, Operand.WellFormed, Serving, KvPieces.Ordinal, KvPieces.Within, KvPieces.Table.Location, Puts, KvByte, Address, At, CellOf, KvOf;
    i := AccessByte(g, log, start, tasks, images, effects, q, n);
    var target := log[q].work.target;
    var st, layer, at := g.St(i), target.layer, target.first + n;
    TableByte(g, i, layer, at);
    AppendPuts(g, i, layer, at);
    CellValue(g, i, layer, at);
    CellLayer(layer, at, st.request.model.TokenBytes(layer), g.blockTokens);
    cell := CellOf(layer, at, st.request.model.TokenBytes(layer), g.blockTokens);
    b, x := st.table[layer][cell.ordinal], At(cell.slot, st.request.model.TokenBytes(layer), cell.index);
  }

  lemma CellLayer(layer: nat, i: nat, width: nat, blockTokens: nat)
    requires width > 0 && blockTokens > 0
    ensures CellOf(layer, i, width, blockTokens).layer == layer
  {
  }

  /** No byte is written by two accesses. */
  lemma OneAccess(g: Setting, log: Log, start: nat, tasks: seq<Task>, images: seq<Image>, effects: seq<Effect>, q: nat, n: nat,
                  q': nat, n': nat, cfg: Config)
    requires Batched(log, start, tasks, images, effects) && Serving(g, tasks) && Sole(g.s, g.slices, cfg) && cfg.blockTokens == g.blockTokens
    requires start <= q < |log| && start <= q' < |log| && log[q].work.Access? && log[q'].work.Access?
    requires log[q].work.target.Kv? && log[q].work.target.write && n < log[q].work.piece.bytes
    requires log[q'].work.target.Kv? && log[q'].work.target.write && n' < log[q'].work.piece.bytes
    requires log[q].work.piece.address + n == log[q'].work.piece.address + n'
    ensures q == q'
  {
    hide Batched, Operand.WellFormed, Serving, KvPieces.Ordinal, Puts, KvByte, Address, At, CellOf, KvOf, OneWriter, Setting.Holds, Setting.Append;
    var i, b, x, cell := WriteByte(g, log, start, tasks, images, effects, q, n);
    var i', b', x', cell' := WriteByte(g, log, start, tasks, images, effects, q', n');
    AddressOnce(g.arena.hotBegin, b, b', g.arena.blockBytes, x, x');
    SamePut(g, i, i', b, x, cell, cell', cfg);
    var j, j' := log[q].work.task, log[q'].work.task;
    OneTask(g, tasks, j, j', i, cell.layer);
    SameByte(g, i, cell.layer, log[q].work.target.first + n, log[q'].work.target.first + n');
    SamePiece(log, start, tasks, images, effects, q, n, q', n');
  }

  lemma SamePut(g: Setting, i: nat, i': nat, b: nat, x: nat, cell: Cell, cell': Cell, cfg: Config)
    requires Sole(g.s, g.slices, cfg) && cfg.blockTokens == g.blockTokens && i < |g.slices| && i' < |g.slices|
    requires Puts(g.s, g.slices[i], g.blockTokens, b, x, cell) && Puts(g.s, g.slices[i'], g.blockTokens, b, x, cell')
    ensures i == i' && cell == cell'
  {
    hide Lands, At;
    assert OneWriter(g.s, g.slices[i], g.slices[i'], cfg.blockTokens);
    AtOnceCell(g, i, b, x, cell, cell');
  }

  lemma AtOnceCell(g: Setting, i: nat, b: nat, x: nat, cell: Cell, cell': Cell)
    requires i < |g.slices| && cell.layer == cell'.layer && cell.ordinal == cell'.ordinal
    requires Puts(g.s, g.slices[i], g.blockTokens, b, x, cell) && Puts(g.s, g.slices[i], g.blockTokens, b, x, cell')
    ensures cell == cell'
  {
    hide At;
    AtOnce(cell.slot, cell'.slot, g.St(i).request.model.TokenBytes(cell.layer), cell.index, cell'.index);
  }

  lemma OneTask(g: Setting, tasks: seq<Task>, j: nat, j': nat, i: nat, layer: nat)
    requires Serving(g, tasks) && j < |tasks| && j' < |tasks| && tasks[j].Memory? && tasks[j'].Memory?
    requires Appending(g, tasks[j].operand, i, layer) && Appending(g, tasks[j'].operand, i, layer)
    ensures j == j'
  {
    hide Appending;
    assert j < j' ==> Different(g, tasks[j].operand, tasks[j'].operand);
    assert j' < j ==> Different(g, tasks[j'].operand, tasks[j].operand);
  }

  /** A cell is one byte of its layer. */
  lemma SameByte(g: Setting, i: nat, layer: nat, at: nat, at': nat)
    requires g.Holds(i, layer)
    requires var width := g.St(i).request.model.TokenBytes(layer);
      CellOf(layer, at, width, g.blockTokens) == CellOf(layer, at', width, g.blockTokens)
    ensures at == at'
  {
    hide At;
    var width := g.St(i).request.model.TokenBytes(layer);
    ByteCell(at, width, g.blockTokens);
    ByteCell(at', width, g.blockTokens);
  }

  /** A byte of an operation is in one access. */
  lemma SamePiece(log: Log, start: nat, tasks: seq<Task>, images: seq<Image>, effects: seq<Effect>, q: nat, n: nat, q': nat, n': nat)
    requires Batched(log, start, tasks, images, effects) && start <= q < |log| && start <= q' < |log|
    requires log[q].work.Access? && log[q'].work.Access? && log[q].work.task == log[q'].work.task
    requires log[q].work.target.Kv? && log[q'].work.target.Kv? && log[q].work.target.first + n == log[q'].work.target.first + n'
    requires n < log[q].work.piece.bytes && n' < log[q'].work.piece.bytes
    ensures q == q'
  {
    hide Batched, Operand.WellFormed, KvPieces.Expanded;
    var j := log[q].work.task;
    var pieces := AccessIs(log, start, tasks, images, effects, q);
    var pieces' := AccessIs(log, start, tasks, images, effects, q');
    SamePieces(log, j, images[j].ids, tasks[j].operand, pieces, pieces');
    OnePiece(pieces, log[q].work.part, n, log[q'].work.part, n');
  }

  lemma SamePieces(log: Log, j: nat, ids: seq<nat>, operand: Operand, pieces: seq<KvPieces.Piece>, pieces': seq<KvPieces.Piece>)
    requires operand.WellFormed() && CarriedAs(log, j, ids, operand, pieces) && CarriedAs(log, j, ids, operand, pieces')
    ensures pieces == pieces'
  {
    hide Operand.WellFormed, KvPieces.Expanded;
    forall k: nat | k < |pieces| ensures pieces[k] == pieces'[k] {
      assert log[ids[k]].work == PartOf(j, k, operand, pieces) && log[ids[k]].work == PartOf(j, k, operand, pieces');
    }
  }
}
