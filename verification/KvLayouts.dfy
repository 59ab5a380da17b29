/** Fixed homes of the KV pool outside HBM: one page-aligned arena per layer, token slots packed
    inside it, so a page may hold parts of several slots and a slot may cross pages.
 */
module KvLayouts {
  import opened Modular

  datatype Option<T> = None | Some(value: T)

  /** A layer's slots, from one slot number on. */
  datatype Arena = Arena(address: nat, size: nat, first: nat)

  /** Bytes lo to hi of a page. */
  datatype Piece = Piece(page: nat, lo: nat, hi: nat)

  datatype Layout = Layout(page: nat, slotBytes: nat, arenas: seq<Arena>)
  {
    /** Page-aligned arenas of whole slots, in address order, no two on one page. */
    ghost predicate Valid()
    {
      && page > 0 && slotBytes > 0
      && (forall k :: 0 <= k < |arenas| ==>
            arenas[k].address % page == 0 && arenas[k].size > 0 && arenas[k].size % slotBytes == 0)
      && (forall j, k :: 0 <= j < k < |arenas| ==> AlignUp(arenas[j].address + arenas[j].size, page) <= arenas[k].address)
    }

    /** The byte lies in the slot. */
    ghost predicate Owns(slot: nat, byte: nat)
    {
      exists k :: 0 <= k < |arenas| && InArena(arenas[k], slotBytes, slot, byte)
    }
  }

  function AlignUp(value: nat, alignment: nat): nat
    requires alignment > 0
  {
    (value + alignment - 1) / alignment * alignment
  }

  lemma AlignUpIs(value: nat, alignment: nat)
    requires alignment > 0
    ensures AlignUp(value, alignment) >= value && AlignUp(value, alignment) % alignment == 0
  {
    var sum := value + alignment - 1;
    var q := sum / alignment;
    assert sum == q * alignment + sum % alignment;
    DivModUnique(q * alignment, alignment, q, 0);
  }

  function Scaled(n: nat, unit: nat): nat
  {
    n * unit
  }

  ghost predicate InArena(arena: Arena, slotBytes: nat, slot: nat, byte: nat)
  {
    && arena.first <= slot && arena.address <= byte < arena.address + arena.size
    && Scaled(slot - arena.first, slotBytes) <= byte - arena.address < Scaled(slot - arena.first, slotBytes) + slotBytes
  }

  // ------------------------------------------------------------ construction

  /** One arena per layer, each starting on a page boundary behind the one before. */
  method BuildArenas(start: nat, layers: nat, first: nat, slots: nat, slotBytes: nat, page: nat)
    returns (arenas: seq<Arena>, used: nat)
    requires page > 0 && slotBytes > 0 && slots > 0 && start % page == 0
    ensures Layout(page, slotBytes, arenas).Valid() && |arenas| == layers && used % page == 0
    ensures forall k :: 0 <= k < layers ==>
      arenas[k].first == first && arenas[k].size == Scaled(slots, slotBytes) && start <= arenas[k].address
      && AlignUp(arenas[k].address + arenas[k].size, page) <= used
  {
    arenas, used := [], start;
    var size := Scaled(slots, slotBytes);
    SizePositive(slots, slotBytes);
    for layer := 0 to layers
      invariant |arenas| == layer && used % page == 0 && start <= used
      invariant forall k :: 0 <= k < layer ==>
        arenas[k].first == first && arenas[k].size == size && start <= arenas[k].address
        && arenas[k].address % page == 0 && AlignUp(arenas[k].address + arenas[k].size, page) <= used
      invariant forall j, k :: 0 <= j < k < layer ==> AlignUp(arenas[j].address + arenas[j].size, page) <= arenas[k].address
    {
      arenas := arenas + [Arena(used, size, first)];
      AlignUpIs(used + size, page);
      used := AlignUp(used + size, page);
    }
  }

  lemma SizePositive(slots: nat, slotBytes: nat)
    requires slots > 0 && slotBytes > 0
    ensures Scaled(slots, slotBytes) > 0 && Scaled(slots, slotBytes) % slotBytes == 0
  {
    MultiplesOrdered(0, slots, slotBytes);
    DivModUnique(slots * slotBytes, slotBytes, slots, 0);
  }

  // --------------------------------------------------------------- page slots

  /** A page and an arena share a byte. */
  ghost predicate Touches(layout: Layout, arena: Arena, page: nat)
  {
    arena.address < Scaled(page + 1, layout.page) && Scaled(page, layout.page) < arena.address + arena.size
  }

  /** An arena on a page starts at or before the page's first byte. */
  lemma TouchesFromBelow(layout: Layout, k: nat, page: nat)
    requires layout.Valid() && k < |layout.arenas|
    ensures layout.arenas[k].address < Scaled(page + 1, layout.page) <==> layout.arenas[k].address <= Scaled(page, layout.page)
    ensures Scaled(page + 1, layout.page) == Scaled(page, layout.page) + layout.page
  {
    var q := layout.arenas[k].address / layout.page;
    assert layout.arenas[k].address == q * layout.page;
    assert (page + 1) * layout.page == page * layout.page + layout.page;
    MultiplesOrdered(q, page, layout.page);
    MultiplesOrdered(page + 1, q, layout.page);
    MultiplesOrdered(q, page + 1, layout.page);
    MultiplesOrdered(page, q, layout.page);
  }

  /** The slots that share bytes with a page, as a range; None outside all arenas. */
  method PageSlots(layout: Layout, page: nat) returns (slots: Option<(nat, nat)>)
    requires layout.Valid()
    ensures slots.None? <==> forall k :: 0 <= k < |layout.arenas| ==> !Touches(layout, layout.arenas[k], page)
    ensures slots.Some? ==> forall slot: nat :: slots.value.0 <= slot < slots.value.1 <==> Overlaps(layout, slot, page)
  {
    hide Scaled, AlignUp;
    var begin := Scaled(page, layout.page);
    var index := 0;
    while index < |layout.arenas| && layout.arenas[index].address <= begin
      invariant index <= |layout.arenas| && forall k :: 0 <= k < index ==> layout.arenas[k].address <= begin
    {
      index := index + 1;
    }
    AtMostOne(layout, page, index);
    if index == 0 || begin >= layout.arenas[index - 1].address + layout.arenas[index - 1].size {
      return None;
    }
    var arena := layout.arenas[index - 1];
    TouchesFromBelow(layout, index - 1, page);
    var end := begin + layout.page;
    var hiBytes := if arena.size < end - arena.address then arena.size else end - arena.address;
    var lo, hi := Bounds(begin - arena.address, hiBytes, layout.slotBytes);
    slots := Some((arena.first + lo, arena.first + hi));
    forall slot: nat ensures arena.first + lo <= slot < arena.first + hi <==> Overlaps(layout, slot, page) {
      RangeExact(layout, page, index - 1, begin, hiBytes, lo, hi, slot);
    }
  }

  /** A slot keeps some byte of the page. */
  ghost predicate Overlaps(layout: Layout, slot: nat, page: nat)
  {
    exists x: nat :: OwnsAt(layout, slot, page, x)
  }

  ghost predicate OwnsAt(layout: Layout, slot: nat, page: nat, x: nat)
  {
    x < layout.page && layout.Owns(slot, Scaled(page, layout.page) + x)
  }

  method Bounds(loBytes: nat, hiBytes: nat, slotBytes: nat) returns (lo: nat, hi: nat)
    requires slotBytes > 0 && loBytes < hiBytes
    ensures forall n: nat :: Bounded(lo, hi, loBytes, hiBytes, slotBytes, n)
  {
    lo, hi := loBytes / slotBytes, (hiBytes + slotBytes - 1) / slotBytes;
    forall n: nat ensures Bounded(lo, hi, loBytes, hiBytes, slotBytes, n) {
      BoundsMean(loBytes, hiBytes, slotBytes, n);
    }
  }

  /** Slot n of the arena reaches beyond the low byte and starts before the high one. */
  ghost predicate Bounded(lo: nat, hi: nat, loBytes: nat, hiBytes: nat, slotBytes: nat, n: nat)
  {
    && (lo <= n <==> loBytes < Scaled(n, slotBytes) + slotBytes)
    && (n < hi <==> Scaled(n, slotBytes) < hiBytes)
  }

  lemma BoundsMean(loBytes: nat, hiBytes: nat, slotBytes: nat, n: nat)
    requires slotBytes > 0
    ensures loBytes / slotBytes <= n <==> loBytes < Scaled(n, slotBytes) + slotBytes
    ensures n < (hiBytes + slotBytes - 1) / slotBytes <==> Scaled(n, slotBytes) < hiBytes
  {
    Digit(loBytes, slotBytes, n + 1);
    Digit(hiBytes + slotBytes - 1, slotBytes, n + 1);
    assert (n + 1) * slotBytes == n * slotBytes + slotBytes;
  }

  lemma Digit(x: nat, unit: nat, n: nat)
    requires unit > 0
    ensures x / unit < n <==> x < n * unit
  {
    assert x == x / unit * unit + x % unit;
    MultiplesOrdered(x / unit, n, unit);
    MultiplesOrdered(n, x / unit, unit);
  }

  /** Only the last arena that starts at or before the page can touch it. */
  lemma AtMostOne(layout: Layout, page: nat, index: nat)
    requires layout.Valid() && index <= |layout.arenas|
    requires forall k :: 0 <= k < index ==> layout.arenas[k].address <= Scaled(page, layout.page)
    requires index < |layout.arenas| ==> layout.arenas[index].address > Scaled(page, layout.page)
    ensures forall k :: 0 <= k < |layout.arenas| && k != index - 1 ==> !Touches(layout, layout.arenas[k], page)
  {
    hide Scaled, AlignUp;
    forall k | 0 <= k < |layout.arenas| && k != index - 1 ensures !Touches(layout, layout.arenas[k], page) {
      TouchesFromBelow(layout, k, page);
      if k < index - 1 {
        AlignUpIs(layout.arenas[k].address + layout.arenas[k].size, layout.page);
        assert AlignUp(layout.arenas[k].address + layout.arenas[k].size, layout.page) <= layout.arenas[index - 1].address;
      } else if k > index {
        AlignUpIs(layout.arenas[index].address + layout.arenas[index].size, layout.page);
        assert AlignUp(layout.arenas[index].address + layout.arenas[index].size, layout.page) <= layout.arenas[k].address;
      }
    }
  }

  ghost predicate OnPage(layout: Layout, page: nat, k: nat, begin: nat, hiBytes: nat)
  {
    && layout.Valid() && k < |layout.arenas| && begin == Scaled(page, layout.page)
    && layout.arenas[k].address <= begin < layout.arenas[k].address + layout.arenas[k].size
    && hiBytes == (if layout.arenas[k].size < begin + layout.page - layout.arenas[k].address then layout.arenas[k].size
                   else begin + layout.page - layout.arenas[k].address)
  }

  lemma RangeExact(layout: Layout, page: nat, k: nat, begin: nat, hiBytes: nat, lo: nat, hi: nat, slot: nat)
    requires OnPage(layout, page, k, begin, hiBytes)
    requires forall j :: 0 <= j < |layout.arenas| && j != k ==> !Touches(layout, layout.arenas[j], page)
    requires slot >= layout.arenas[k].first ==>
      Bounded(lo, hi, begin - layout.arenas[k].address, hiBytes, layout.slotBytes, slot - layout.arenas[k].first)
    ensures layout.arenas[k].first + lo <= slot < layout.arenas[k].first + hi <==> Overlaps(layout, slot, page)
  {
    hide Scaled, AlignUp;
    if layout.arenas[k].first + lo <= slot < layout.arenas[k].first + hi {
      InRange(layout, page, k, begin, hiBytes, slot);
    }
    if Overlaps(layout, slot, page) {
      OnlyInRange(layout, page, k, begin, hiBytes, slot);
    }
  }

  lemma InRange(layout: Layout, page: nat, k: nat, begin: nat, hiBytes: nat, slot: nat)
    requires OnPage(layout, page, k, begin, hiBytes) && slot >= layout.arenas[k].first
    requires begin - layout.arenas[k].address < Scaled(slot - layout.arenas[k].first, layout.slotBytes) + layout.slotBytes
    requires Scaled(slot - layout.arenas[k].first, layout.slotBytes) < hiBytes
    ensures Overlaps(layout, slot, page)
  {
    hide Scaled, AlignUp;
    var arena := layout.arenas[k];
    TouchesFromBelow(layout, k, page);
    var start := arena.address + Scaled(slot - arena.first, layout.slotBytes);
    var byte := if start < begin then begin else start;
    assert InArena(arena, layout.slotBytes, slot, byte);
    assert OwnsAt(layout, slot, page, byte - begin);
  }

  lemma OnlyInRange(layout: Layout, page: nat, k: nat, begin: nat, hiBytes: nat, slot: nat)
    requires OnPage(layout, page, k, begin, hiBytes) && Overlaps(layout, slot, page)
    requires forall j :: 0 <= j < |layout.arenas| && j != k ==> !Touches(layout, layout.arenas[j], page)
    ensures slot >= layout.arenas[k].first
    ensures begin - layout.arenas[k].address < Scaled(slot - layout.arenas[k].first, layout.slotBytes) + layout.slotBytes
    ensures Scaled(slot - layout.arenas[k].first, layout.slotBytes) < hiBytes
  {
    hide Scaled, AlignUp, Layout.Valid;
    var x: nat :| OwnsAt(layout, slot, page, x);
    var j :| 0 <= j < |layout.arenas| && InArena(layout.arenas[j], layout.slotBytes, slot, begin + x);
    TouchesFromBelow(layout, j, page);
    assert Touches(layout, layout.arenas[j], page);
    assert j == k;
  }

  // -------------------------------------------------------------- slot pieces

  /** A piece list has a byte of a page. */
  ghost predicate Listed(pieces: seq<Piece>, page: nat, x: nat)
  {
    exists i :: 0 <= i < |pieces| && pieces[i].page == page && pieces[i].lo <= x < pieces[i].hi
  }

  /** Consecutive pieces from the first byte of the range to its end, cut at page borders only. */
  ghost predicate CutAt(pieces: seq<Piece>, page: nat, address: nat, size: nat)
  {
    && (forall i :: 0 <= i < |pieces| ==> pieces[i].lo < pieces[i].hi <= page)
    && (size == 0 <==> pieces == [])
    && (size > 0 ==>
          && address == Scaled(pieces[0].page, page) + pieces[0].lo
          && address + size == Scaled(pieces[|pieces| - 1].page, page) + pieces[|pieces| - 1].hi)
    && forall i :: 0 < i < |pieces| ==> Joins(pieces[i - 1], pieces[i], page)
  }

  /** One piece goes to the end of its page, and the next one starts the following page. */
  predicate Joins(a: Piece, b: Piece, page: nat)
  {
    a.hi == page && b.lo == 0 && b.page == a.page + 1
  }

  lemma CutMore(pieces: seq<Piece>, piece: Piece, page: nat, address: nat, at: nat)
    requires page > 0 && piece.lo < piece.hi <= page && at == Scaled(piece.page, page) + piece.lo && address <= at
    requires CutAt(pieces, page, address, at - address) && (pieces != [] ==> pieces[|pieces| - 1].hi == page)
    ensures CutAt(pieces + [piece], page, address, at + (piece.hi - piece.lo) - address)
  {
    hide Scaled;
    var n, longer := |pieces|, pieces + [piece];
    assert longer[n] == piece;
    if pieces != [] {
      NextPage(pieces[n - 1].page, page);
      SamePage(pieces[n - 1].page + 1, piece.page, page);
      assert Joins(pieces[n - 1], piece, page);
    }
  }

  lemma NextPage(number: nat, page: nat)
    ensures Scaled(number + 1, page) == Scaled(number, page) + page
  {
  }

  /** Cuts a byte range at page boundaries. */
  method Pieces(page: nat, address: nat, size: nat) returns (pieces: seq<Piece>)
    requires page > 0
    ensures forall i :: 0 <= i < |pieces| ==> pieces[i].lo < pieces[i].hi <= page
    ensures forall p: nat, x: nat :: Listed(pieces, p, x) <==> x < page && address <= Scaled(p, page) + x < address + size
    ensures CutAt(pieces, page, address, size)
  {
    hide Scaled;
    pieces := [];
    var at, left := address, size;
    while left > 0
      invariant left >= 0 && at + left == address + size && at >= address
      invariant forall i :: 0 <= i < |pieces| ==> pieces[i].lo < pieces[i].hi <= page
      invariant forall p: nat, x: nat :: Listed(pieces, p, x) <==> x < page && address <= Scaled(p, page) + x < at
      invariant CutAt(pieces, page, address, at - address) && (left > 0 && pieces != [] ==> pieces[|pieces| - 1].hi == page)
    {
      var number, offset := Split(at, page);
      var take := if left < page - offset then left else page - offset;
      var piece := Piece(number, offset, offset + take);
      PieceMore(pieces, piece, page, address, at);
      CutMore(pieces, piece, page, address, at);
      pieces := pieces + [piece];
      at := at + take;
      left := left - take;
    }
  }

  method Split(x: nat, unit: nat) returns (q: nat, r: nat)
    requires unit > 0
    ensures x == Scaled(q, unit) + r && r < unit
  {
    q, r := x / unit, x % unit;
  }

  lemma PieceMore(pieces: seq<Piece>, piece: Piece, page: nat, address: nat, at: nat)
    requires page > 0 && piece.lo < piece.hi <= page && at == Scaled(piece.page, page) + piece.lo && address <= at
    requires forall p: nat, x: nat :: Listed(pieces, p, x) <==> x < page && address <= Scaled(p, page) + x < at
    ensures forall p: nat, x: nat :: Listed(pieces + [piece], p, x) <==>
      x < page && address <= Scaled(p, page) + x < at + (piece.hi - piece.lo)
  {
    forall p: nat, x: nat
      ensures Listed(pieces + [piece], p, x) <==> x < page && address <= Scaled(p, page) + x < at + (piece.hi - piece.lo)
    {
      ListedPush(pieces, piece, p, x);
      SamePage(piece.page, p, page);
    }
  }

  lemma SamePage(a: nat, b: nat, page: nat)
    ensures a < b ==> Scaled(a, page) + page <= Scaled(b, page)
    ensures b < a ==> Scaled(b, page) + page <= Scaled(a, page)
  {
    MultiplesOrdered(a, b, page);
    MultiplesOrdered(b, a, page);
  }

  lemma ListedPush(pieces: seq<Piece>, piece: Piece, p: nat, x: nat)
    ensures Listed(pieces + [piece], p, x) <==> Listed(pieces, p, x) || (piece.page == p && piece.lo <= x < piece.hi)
  {
    var longer := pieces + [piece];
    if Listed(pieces, p, x) {
      var i :| 0 <= i < |pieces| && pieces[i].page == p && pieces[i].lo <= x < pieces[i].hi;
      assert longer[i] == pieces[i];
    }
    assert longer[|pieces|] == piece;
  }

  lemma ListedAppend(a: seq<Piece>, b: seq<Piece>, p: nat, x: nat)
    ensures Listed(a + b, p, x) <==> Listed(a, p, x) || Listed(b, p, x)
  {
    var c := a + b;
    if Listed(a, p, x) {
      var i :| 0 <= i < |a| && a[i].page == p && a[i].lo <= x < a[i].hi;
      assert c[i] == a[i];
    }
    if Listed(b, p, x) {
      var i :| 0 <= i < |b| && b[i].page == p && b[i].lo <= x < b[i].hi;
      assert c[|a| + i] == b[i];
    }
  }

  /** All bytes of a slot, layer by layer. */
  method SlotPieces(layout: Layout, slot: nat) returns (pieces: seq<Piece>)
    requires layout.Valid()
    ensures forall i :: 0 <= i < |pieces| ==> pieces[i].lo < pieces[i].hi <= layout.page
    ensures forall p: nat, x: nat :: Listed(pieces, p, x) <==> OwnsAt(layout, slot, p, x)
  {
    hide Scaled, InArena;
    pieces := [];
    for k := 0 to |layout.arenas|
      invariant forall i :: 0 <= i < |pieces| ==> pieces[i].lo < pieces[i].hi <= layout.page
      invariant forall p: nat, x: nat :: Listed(pieces, p, x) <==> x < layout.page && OwnedBelow(layout, slot, k, Scaled(p, layout.page) + x)
    {
      var more := ArenaPieces(layout, k, slot);
      forall p: nat, x: nat
        ensures Listed(pieces + more, p, x) <==> x < layout.page && OwnedBelow(layout, slot, k + 1, Scaled(p, layout.page) + x)
      {
        ListedAppend(pieces, more, p, x);
        OwnedNext(layout, slot, k, Scaled(p, layout.page) + x);
      }
      pieces := pieces + more;
    }
    forall p: nat, x: nat ensures Listed(pieces, p, x) <==> OwnsAt(layout, slot, p, x) {
      OwnedAll(layout, slot, Scaled(p, layout.page) + x);
    }
  }

  ghost predicate OwnedBelow(layout: Layout, slot: nat, n: nat, byte: nat)
  {
    exists k :: 0 <= k < n && k < |layout.arenas| && InArena(layout.arenas[k], layout.slotBytes, slot, byte)
  }

  lemma OwnedNext(layout: Layout, slot: nat, k: nat, byte: nat)
    requires k < |layout.arenas|
    ensures OwnedBelow(layout, slot, k + 1, byte) <==>
      OwnedBelow(layout, slot, k, byte) || InArena(layout.arenas[k], layout.slotBytes, slot, byte)
  {
  }

  lemma OwnedAll(layout: Layout, slot: nat, byte: nat)
    ensures OwnedBelow(layout, slot, |layout.arenas|, byte) <==> layout.Owns(slot, byte)
  {
  }

  /** A slot's bytes in one layer, if the arena has the slot. */
  method ArenaPieces(layout: Layout, k: nat, slot: nat) returns (pieces: seq<Piece>)
    requires layout.Valid() && k < |layout.arenas|
    ensures forall i :: 0 <= i < |pieces| ==> pieces[i].lo < pieces[i].hi <= layout.page
    ensures forall p: nat, x: nat :: Listed(pieces, p, x) <==>
      x < layout.page && InArena(layout.arenas[k], layout.slotBytes, slot, Scaled(p, layout.page) + x)
  {
    hide Scaled;
    var arena := layout.arenas[k];
    if slot < arena.first || Scaled(slot - arena.first, layout.slotBytes) >= arena.size {
      return [];
    }
    var offset := Scaled(slot - arena.first, layout.slotBytes);
    WholeSlot(offset, slot - arena.first, arena.size, layout.slotBytes);
    pieces := Pieces(layout.page, arena.address + offset, layout.slotBytes);
  }

  lemma WholeSlot(offset: nat, n: nat, size: nat, unit: nat)
    requires unit > 0 && offset == Scaled(n, unit) < size && size % unit == 0
    ensures offset + unit <= size
  {
    var q := size / unit;
    assert size == q * unit;
    MultiplesOrdered(q, n, unit);
    MultiplesOrdered(n, q, unit);
  }
}
