/** The appends and context reads of a batch, byte by byte: from positions in a request's KV layer to
    addresses in HBM, whole and in pieces.
 */
module KvTraffic {
  import opened Modular
  import opened PrefixKeys
  import opened PlacementSpec
  import opened KvMemory
  import opened TaskMaps
  import opened Machines
  import KvPieces

  /** How the table of one layer is laid out in HBM. */
  function TableOf(st: RequestKv, layer: nat, blockTokens: nat, arena: Arena): KvPieces.Table
  {
    KvPieces.Table(if layer < |st.table| then st.table[layer] else [], Bytes(blockTokens, st, layer), arena.hotBegin, arena.blockBytes)
  }

  /** The bytes that a layer keeps of so many tokens. */
  function Bytes(tokens: nat, st: RequestKv, layer: nat): nat
  {
    At(tokens, st.request.model.TokenBytes(layer), 0)
  }

  /** The slice's own tokens, once per layer. */
  function AppendOf(st: RequestKv, slice: Slice, layer: nat, blockTokens: nat, arena: Arena): Operand
  {
    KvRange(true, st.request, layer, TableOf(st, layer, blockTokens, arena), Bytes(slice.begin, st, layer), Bytes(slice.count, st, layer))
  }

  /** Everything in front of the slice. */
  function ContextOf(st: RequestKv, slice: Slice, layer: nat, blockTokens: nat, arena: Arena): Operand
  {
    KvRange(false, st.request, layer, TableOf(st, layer, blockTokens, arena), 0, Bytes(slice.begin, st, layer))
  }

  // ------------------------------------------------------------------- bytes

  /** The cell of a byte of the layer. */
  function CellOf(layer: nat, i: nat, width: nat, blockTokens: nat): Cell
    requires width > 0 && blockTokens > 0
  {
    Cell(layer, i / width / blockTokens, i / width % blockTokens, i % width)
  }

  lemma Unfold(i: nat, width: nat)
    requires width > 0
    ensures i == At(i / width, width, i % width)
  {
  }

  /** Byte i of the layer is in the block and at the place that its cell says. */
  lemma ByteCell(i: nat, width: nat, blockTokens: nat)
    requires width > 0 && blockTokens > 0
    ensures var cell, used := CellOf(0, i, width, blockTokens), At(blockTokens, width, 0);
      && used > 0 && cell.slot < blockTokens && cell.index < width
      && KvPieces.Ordinal(i, used) == cell.ordinal && KvPieces.Within(i, used) == At(cell.slot, width, cell.index)
      && i == At(Span(cell.ordinal, blockTokens) + cell.slot, width, cell.index)
  {
    var o, w, j := i / width / blockTokens, i / width % blockTokens, i % width;
    SpanIs(o, blockTokens);
    Unfold(i, width);
    Unfold(i / width, blockTokens);
    hide Span;
    TwiceUnfolded(i, o, w, j, blockTokens, width);
  }

  lemma TwiceUnfolded(i: nat, o: nat, w: nat, j: nat, blockTokens: nat, width: nat)
    requires w < blockTokens && j < width && i == At(At(o, blockTokens, w), width, j)
    ensures At(blockTokens, width, 0) > 0 && KvPieces.Ordinal(i, At(blockTokens, width, 0)) == o
    ensures KvPieces.Within(i, At(blockTokens, width, 0)) == At(w, width, j)
  {
    MultiplesOrdered(w, blockTokens, width);
    Nested(o, w, j, blockTokens, width);
    DivModUnique(i, At(blockTokens, width, 0), o, At(w, width, j));
  }

  lemma Nested(o: nat, w: nat, j: nat, blockTokens: nat, width: nat)
    ensures At(At(o, blockTokens, w), width, j) == o * At(blockTokens, width, 0) + At(w, width, j)
  {
    assert (o * blockTokens + w) * width == (o * blockTokens) * width + w * width;
    assert (o * blockTokens) * width == o * (blockTokens * width);
  }

  /** The other way round. */
  lemma CellByte(o: nat, w: nat, j: nat, width: nat, blockTokens: nat)
    requires j < width && w < blockTokens
    ensures var i := At(Span(o, blockTokens) + w, width, j);
      CellOf(0, i, width, blockTokens) == Cell(0, o, w, j)
  {
    var p := Span(o, blockTokens) + w;
    SpanIs(o, blockTokens);
    DivModUnique(At(p, width, j), width, p, j);
    DivModUnique(p, blockTokens, o, w);
  }

  /** Positions and bytes are ordered alike. */
  lemma BytesOrdered(a: nat, p: nat, j: nat, width: nat)
    requires j < width
    ensures a <= p <==> At(a, width, 0) <= At(p, width, j)
  {
    MultiplesOrdered(a, p, width);
    MultiplesOrdered(p, a, width);
  }

  lemma BytesSum(a: nat, b: nat, width: nat)
    ensures At(a, width, 0) + At(b, width, 0) == At(a + b, width, 0)
  {
  }

  /** A byte lies below the first n tokens exactly if its token does. */
  lemma BytesBelow(n: nat, i: nat, width: nat)
    requires width > 0
    ensures i < At(n, width, 0) <==> i / width < n
    ensures At(n, width, 0) <= i <==> n <= i / width
  {
    Unfold(i, width);
    BytesOrdered(n, i / width, i % width, width);
  }

  // ------------------------------------------------------------------ pieces

  lemma {:induction false} ExpandedAt(pieces: seq<KvPieces.Piece>, k: nat, n: nat)
    requires k < |pieces| && n < pieces[k].bytes
    ensures Total(pieces[..k]) + n < |KvPieces.Expanded(pieces)|
    ensures KvPieces.Expanded(pieces)[Total(pieces[..k]) + n] == pieces[k].address + n
    ensures |KvPieces.Expanded(pieces)| == Total(pieces)
    decreases |pieces|
  {
    var last := |pieces| - 1;
    ExpandedTotal(pieces[..last]);
    if k < last {
      ExpandedAt(pieces[..last], k, n);
      assert pieces[..last][..k] == pieces[..k];
    }
  }

  lemma {:induction false} ExpandedTotal(pieces: seq<KvPieces.Piece>)
    ensures |KvPieces.Expanded(pieces)| == Total(pieces)
  {
    if pieces != [] {
      ExpandedTotal(pieces[..|pieces| - 1]);
    }
  }

  /** Every byte is in some piece. */
  lemma {:induction false} PieceWith(pieces: seq<KvPieces.Piece>, m: nat) returns (k: nat, n: nat)
    requires m < |KvPieces.Expanded(pieces)|
    ensures k < |pieces| && n < pieces[k].bytes && m == Total(pieces[..k]) + n
    decreases |pieces|
  {
    var last := |pieces| - 1;
    ExpandedTotal(pieces[..last]);
    if m < Total(pieces[..last]) {
      k, n := PieceWith(pieces[..last], m);
      assert pieces[..last][..k] == pieces[..k];
    } else {
      k, n := last, m - Total(pieces[..last]);
    }
  }

  lemma {:induction false} TotalGrows(pieces: seq<KvPieces.Piece>, k: nat, k': nat)
    requires k < k' <= |pieces|
    ensures Total(pieces[..k]) + pieces[k].bytes <= Total(pieces[..k'])
    decreases k'
  {
    assert pieces[..k'][..k' - 1] == pieces[..k' - 1];
    if k < k' - 1 {
      TotalGrows(pieces, k, k' - 1);
    }
  }

  /** And in one only. */
  lemma OnePiece(pieces: seq<KvPieces.Piece>, k: nat, n: nat, k': nat, n': nat)
    requires k < |pieces| && n < pieces[k].bytes && k' < |pieces| && n' < pieces[k'].bytes
    requires Total(pieces[..k]) + n == Total(pieces[..k']) + n'
    ensures k == k' && n == n'
  {
    if k < k' {
      TotalGrows(pieces, k, k');
    } else if k' < k {
      TotalGrows(pieces, k', k);
    }
  }

  /** A byte of a piece is a byte of the operand's range, at the address that the table gives it. */
  lemma PieceByte(operand: Operand, pieces: seq<KvPieces.Piece>, k: nat, n: nat)
    requires operand.WellFormed() && operand.KvRange? && KvPieces.Expanded(pieces) == operand.Addresses()
    requires k < |pieces| && n < pieces[k].bytes
    ensures var i := operand.offset + Total(pieces[..k]) + n;
      && operand.offset <= i < operand.offset + operand.count && KvPieces.Ordinal(i, operand.table.used) < |operand.table.blocks|
      && pieces[k].address + n == operand.table.Location(i)
  {
    hide KvPieces.Expanded, KvPieces.Ordinal, KvPieces.Table.Location;
    ExpandedAt(pieces, k, n);
    ExpandedTotal(pieces);
  }

  /** Every byte of the operand's range is in a piece. */
  lemma BytePiece(operand: Operand, pieces: seq<KvPieces.Piece>, i: nat) returns (k: nat, n: nat)
    requires operand.WellFormed() && operand.KvRange? && KvPieces.Expanded(pieces) == operand.Addresses()
    requires operand.offset <= i < operand.offset + operand.count
    ensures k < |pieces| && n < pieces[k].bytes && i == operand.offset + Total(pieces[..k]) + n
  {
    hide KvPieces.Expanded;
    k, n := PieceWith(pieces, i - operand.offset);
  }
}
