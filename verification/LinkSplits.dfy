/** The three re-implementations of the stack decomposition: stripe-wise with decoded edges, page-
    wise with partial ends, and aligned with the excess taken back.
 */
module LinkSplits {
  import opened Modular
  import opened StackGeometry
  import opened StackLinks

  /** The counts are those of a range, started from other counts. */
  ghost predicate Added(g: Geometry, before: seq<nat>, counts: seq<nat>, address: nat, n: nat)
    requires g.Valid()
  {
    && |before| == |counts| == g.stacks
    && forall s :: 0 <= s < g.stacks ==> counts[s] == before[s] + Bytes(g, address, n, s)
  }

  lemma AddedNothing(g: Geometry, before: seq<nat>, address: nat)
    requires g.Valid() && |before| == g.stacks
    ensures Added(g, before, before, address, 0)
  {
  }

  lemma AddedMore(g: Geometry, before: seq<nat>, middle: seq<nat>, after: seq<nat>, address: nat, n: nat, m: nat)
    requires g.Valid() && Added(g, before, middle, address, n) && Added(g, middle, after, address + n, m)
    ensures Added(g, before, after, address, n + m)
  {
    hide Bytes;
    forall s: nat | s < g.stacks ensures after[s] == before[s] + Bytes(g, address, n + m, s) {
      BytesSplit(g, address, n, m, s);
    }
  }

  lemma AddedAll(g: Geometry, counts: seq<nat>, address: nat, n: nat)
    requires g.Valid()
    ensures Added(g, seq(g.stacks, _ => 0), counts, address, n) <==> Histogram(g, address, n, counts)
  {
  }

  /** Bytes of one page all go to its stack. */
  lemma AddedPiece(g: Geometry, counts: seq<nat>, page: nat, offset: nat, take: nat)
    requires g.Valid() && |counts| == g.stacks && offset + take <= g.pageSize
    ensures var stack := g.StackOf(page);
      Added(g, counts, counts[stack := counts[stack] + take], page * g.pageSize + offset, take)
  {
    hide Bytes, Geometry.StackOf;
    var stack := g.StackOf(page);
    forall s: nat | s < g.stacks
      ensures counts[stack := counts[stack] + take][s] == counts[s] + Bytes(g, page * g.pageSize + offset, take, s)
    {
      BytesInPage(g, page, offset, take, s);
    }
  }

  // ------------------------------------------------------------------ pieces

  /** Adds the bytes of a range page piece by page piece. */
  method AddPieces(g: Geometry, address: nat, size: nat, before: seq<nat>) returns (counts: seq<nat>)
    requires g.Valid() && |before| == g.stacks
    ensures Added(g, before, counts, address, size)
  {
    hide Added, Bytes, Geometry.StackOf;
    counts := before;
    AddedNothing(g, before, address);
    var at, left := address, size;
    while left > 0
      invariant at + left == address + size && at >= address && left >= 0 && |counts| == g.stacks
      invariant Added(g, before, counts, address, at - address)
    {
      var page, offset := DivMod(at, g.pageSize);
      var take := if left < g.pageSize - offset then left else g.pageSize - offset;
      AddedPiece(g, counts, page, offset, take);
      var stack := g.StackOf(page);
      ghost var middle := counts;
      counts := counts[stack := counts[stack] + take];
      AddedMore(g, before, middle, counts, address, at - address, take);
      at := at + take;
      left := left - take;
    }
    assert at - address == size;
  }

  // ----------------------------------------------------------------- stripes

  /** A whole stripe starting at a stripe boundary puts one page on every stack. */
  lemma StripePages(g: Geometry, stripe: nat, stack: nat)
    requires g.Valid() && stack < g.stacks
    ensures Pages(g, stripe * g.stacks, g.stacks, stack) == 1
  {
    hide Pages, Hits;
    var group := stripe / g.entriesPerPage;
    forall j | stripe * g.stacks <= j < stripe * g.stacks + g.stacks ensures g.Group(j) == group {
      DivModUnique(j, g.stacks, stripe, j - stripe * g.stacks);
    }
    PagesInGroup(g, stripe * g.stacks, g.stacks, group, stack);
    HitsRound(stripe * g.stacks + g.rotation(group), stack, g.stacks);
  }

  lemma {:induction false} StripesPages(g: Geometry, stripe: nat, n: nat, stack: nat)
    requires g.Valid() && stack < g.stacks
    ensures Pages(g, stripe * g.stacks, n * g.stacks, stack) == n
  {
    if n > 0 {
      hide Pages;
      StripesPages(g, stripe, n - 1, stack);
      assert n * g.stacks == (n - 1) * g.stacks + g.stacks;
      PagesSplit(g, stripe * g.stacks, (n - 1) * g.stacks, g.stacks, stack);
      assert stripe * g.stacks + (n - 1) * g.stacks == (stripe + n - 1) * g.stacks;
      StripePages(g, stripe + n - 1, stack);
    }
  }

  /** n whole stripes put n pages of bytes on every stack, whatever the rotations. */
  lemma StripesBytes(g: Geometry, stripe: nat, n: nat, stripeBytes: nat, stack: nat)
    requires g.Valid() && stack < g.stacks && stripeBytes == g.stacks * g.pageSize
    ensures Bytes(g, stripe * stripeBytes, n * stripeBytes, stack) == n * g.pageSize
  {
    hide Pages, Bytes;
    StripesPages(g, stripe, n, stack);
    Reassociate(stripe, g.stacks, g.pageSize);
    Reassociate(n, g.stacks, g.pageSize);
    BytesOfPages(g, stripe * g.stacks, n * g.stacks, stack);
  }

  lemma Reassociate(a: nat, b: nat, c: nat)
    ensures a * (b * c) == (a * b) * c
  {
  }

  /** The stripe-aligned middle of a range, which may be empty. */
  method MiddleOf(address: nat, end: nat, stripeBytes: nat) returns (begin: nat, finish: nat, ghost stripe: nat, ghost n: nat)
    requires stripeBytes > 0 && address <= end
    ensures address <= begin <= finish <= end
    ensures begin < finish ==> begin == stripe * stripeBytes && finish - begin == n * stripeBytes
  {
    var first := (address + stripeBytes - 1) / stripeBytes;
    var last := end / stripeBytes;
    Bounds(address + stripeBytes - 1, first, stripeBytes);
    Bounds(end, last, stripeBytes);
    begin := if end < first * stripeBytes then end else first * stripeBytes;
    finish := if begin > last * stripeBytes then begin else last * stripeBytes;
    stripe, n := first, 0;
    if begin < finish {
      MultiplesOrdered(last, first, stripeBytes);
      n := last - first;
      Difference(last, first, stripeBytes);
    }
  }

  lemma Bounds(x: nat, q: nat, m: nat)
    requires m > 0 && q == x / m
    ensures q * m <= x < q * m + m
  {
    assert x == q * m + x % m;
  }

  lemma Difference(a: nat, b: nat, m: nat)
    requires b <= a
    ensures a * m - b * m == (a - b) * m
  {
  }

  /** Stripe-wise: every stack gets its share of the middle, only the edge stripes are decoded. */
  method EdgeSplit(address: nat, size: nat, g: Geometry) returns (counts: seq<nat>)
    requires g.Valid()
    ensures Histogram(g, address, size, counts)
  {
    hide Added, Bytes, Histogram, Geometry.StackOf;
    var end := address + size;
    var stripeBytes := StripeBytes(g);
    var begin, finish;
    ghost var stripe, n;
    begin, finish, stripe, n := MiddleOf(address, end, stripeBytes);
    var zero := seq(g.stacks, _ => 0);
    counts := AddPieces(g, address, begin - address, zero);
    ghost var front := counts;
    AddedSize(g, zero, front, address, begin - address);
    if finish > begin {
      var share := (finish - begin) / g.stacks;
      Shares(g, begin, finish - begin, stripe, n, stripeBytes, share);
      counts := seq(g.stacks, s requires 0 <= s < g.stacks && |counts| == g.stacks => counts[s] + share);
      SharesAdded(g, front, counts, begin, finish - begin, share);
    } else {
      AddedNothing(g, counts, begin);
    }
    ghost var middle := counts;
    AddedSize(g, front, middle, begin, finish - begin);
    AddedMore(g, zero, front, middle, address, begin - address, finish - begin);
    counts := AddPieces(g, finish, end - finish, counts);
    AddedMore(g, zero, middle, counts, address, finish - address, end - finish);
    AddedAll(g, counts, address, size);
  }

  function StripeBytes(g: Geometry): (bytes: nat)
    requires g.Valid()
    ensures bytes > 0 && bytes == g.stacks * g.pageSize
  {
    MultiplesOrdered(0, g.stacks, g.pageSize);
    g.stacks * g.pageSize
  }

  lemma AddedSize(g: Geometry, before: seq<nat>, counts: seq<nat>, address: nat, n: nat)
    requires g.Valid() && Added(g, before, counts, address, n)
    ensures |counts| == g.stacks
  {
  }

  lemma Shares(g: Geometry, begin: nat, size: nat, stripe: nat, n: nat, stripeBytes: nat, share: nat)
    requires g.Valid() && stripeBytes == g.stacks * g.pageSize && begin == stripe * stripeBytes && size == n * stripeBytes
    requires share == size / g.stacks
    ensures forall s :: 0 <= s < g.stacks ==> Bytes(g, begin, size, s) == share
  {
    hide Bytes;
    ShareIs(size, n, g.stacks, g.pageSize);
    forall s: nat | s < g.stacks ensures Bytes(g, begin, size, s) == share {
      StripesBytes(g, stripe, n, stripeBytes, s);
    }
  }

  lemma ShareIs(size: nat, n: nat, stacks: nat, pageSize: nat)
    requires stacks > 0 && size == n * (stacks * pageSize)
    ensures size / stacks == n * pageSize
  {
    assert n * (stacks * pageSize) == (n * pageSize) * stacks;
    DivModUnique(size, stacks, n * pageSize, 0);
  }

  lemma SharesAdded(g: Geometry, before: seq<nat>, counts: seq<nat>, begin: nat, size: nat, share: nat)
    requires g.Valid() && |before| == |counts| == g.stacks
    requires forall s :: 0 <= s < g.stacks ==> counts[s] == before[s] + share && Bytes(g, begin, size, s) == share
    ensures Added(g, before, counts, begin, size)
  {
  }

  // ------------------------------------------------------ unaligned transfers

  /** Partial first page, aligned middle, partial last page. */
  method TransferBytesByStack(address: nat, byteCount: nat, g: Geometry) returns (counts: seq<nat>)
    requires g.Valid()
    ensures Histogram(g, address, byteCount, counts)
  {
    hide Added, Bytes, Histogram, Geometry.StackOf, Aligned;
    var zero := seq(g.stacks, _ => 0);
    counts := zero;
    AddedNothing(g, zero, address);
    var at, left := address, byteCount;
    var page, offset := DivMod(at, g.pageSize);
    if offset != 0 {
      var first := if left < g.pageSize - offset then left else g.pageSize - offset;
      AddedPiece(g, counts, page, offset, first);
      var stack := g.StackOf(page);
      counts := counts[stack := counts[stack] + first];
      at := at + first;
      left := left - first;
    }
    ghost var head := counts;
    var whole, rest := DivMod(left, g.pageSize);
    var aligned := Scaled(whole, g.pageSize);
    if aligned > 0 {
      MiddleAligned(g, at, address, page, offset, left, whole);
      var split := LinkBytesByStack(at, aligned, g);
      counts := AddSplit(g, counts, split, at, aligned);
      AddedMore(g, zero, head, counts, address, at - address, aligned);
      at := at + aligned;
      left := left - aligned;
    }
    if left > 0 {
      var last, within := DivMod(at, g.pageSize);
      TailFits(g, address, page, offset, byteCount, at, left, whole, rest, last, within);
      AddedPiece(g, counts, last, within, left);
      var stack := g.StackOf(last);
      ghost var soFar := counts;
      counts := counts[stack := counts[stack] + left];
      AddedMore(g, zero, soFar, counts, address, at - address, left);
    }
    AddedAll(g, counts, address, byteCount);
  }

  /** Where the aligned middle starts. */
  lemma MiddleAligned(g: Geometry, at: nat, address: nat, page: nat, offset: nat, left: nat, whole: nat)
    requires g.Valid() && address == page * g.pageSize + offset && offset < g.pageSize
    requires at == address || at == address + (g.pageSize - offset) || left == 0
    requires at == address ==> offset == 0
    requires Scaled(whole, g.pageSize) > 0 && Scaled(whole, g.pageSize) <= left
    ensures Aligned(at, g.pageSize) && Aligned(Scaled(whole, g.pageSize), g.pageSize)
  {
    if at == address {
      DivModUnique(at, g.pageSize, page, 0);
    } else {
      assert at == (page + 1) * g.pageSize + 0;
      DivModUnique(at, g.pageSize, page + 1, 0);
    }
    DivModUnique(whole * g.pageSize, g.pageSize, whole, 0);
  }

  /** What is left fits one page: either nothing came before it, or it starts a page. */
  lemma TailFits(g: Geometry, address: nat, page: nat, offset: nat, byteCount: nat, at: nat, left: nat, whole: nat, rest: nat,
                 last: nat, within: nat)
    requires g.Valid() && address == page * g.pageSize + offset && offset < g.pageSize
    requires at == last * g.pageSize + within && within < g.pageSize && 0 < left < g.pageSize
    requires at == address + (if offset == 0 then 0 else g.pageSize - offset) + Scaled(whole, g.pageSize)
    ensures within + left <= g.pageSize
  {
    var first := if offset == 0 then page else page + 1;
    assert at == (first + whole) * g.pageSize + 0;
    DivModUnique(at, g.pageSize, first + whole, 0);
    DivModUnique(at, g.pageSize, last, within);
  }

  method AddSplit(g: Geometry, before: seq<nat>, split: Split, address: nat, n: nat) returns (counts: seq<nat>)
    requires g.Valid() && |before| == g.stacks && split.Split? && Histogram(g, address, n, split.counts)
    ensures Added(g, before, counts, address, n) && |counts| == g.stacks
  {
    counts := seq(g.stacks, s requires 0 <= s < g.stacks && |before| == g.stacks && |split.counts| == g.stacks =>
                    before[s] + split.counts[s]);
  }

  // ------------------------------------------------------------- recovery links

  /** Aligned outward, then the bytes before and behind are taken back from their pages' stacks. */
  method LinkPayloadByStack(address: nat, byteCount: nat, g: Geometry) returns (split: Split)
    requires g.Valid()
    ensures split.Refused? <==> byteCount == 0
    ensures split.Split? ==> Histogram(g, address, byteCount, split.counts)
  {
    hide Bytes, Histogram, Geometry.StackOf, Aligned, SumOf;
    if byteCount == 0 {
      return Refused;
    }
    var page, offset := DivMod(address, g.pageSize);
    var lastPage, lastOffset := DivMod(address + byteCount - 1, g.pageSize);
    var begin := Scaled(page, g.pageSize);
    var end := AlignUp(address + byteCount, g.pageSize);
    Outward(g, address, byteCount, page, offset, lastPage, lastOffset, begin, end);
    split := LinkBytesByStack(begin, end - begin, g);
    var counts := split.counts;
    Excess(g, address, byteCount, page, offset, lastPage, lastOffset, begin, end, end - begin, counts);
    var first, last := g.StackOf(page), g.StackOf(lastPage);
    counts := counts[first := counts[first] - (address - begin)];
    counts := counts[last := counts[last] - (end - address - byteCount)];
    split := Split(counts);
  }

  function AlignUp(value: nat, alignment: nat): (aligned: nat)
    requires alignment > 0
  {
    (value + alignment - 1) / alignment * alignment
  }

  lemma Outward(g: Geometry, address: nat, byteCount: nat, page: nat, offset: nat, lastPage: nat, lastOffset: nat, begin: nat, end: nat)
    requires g.Valid() && byteCount > 0
    requires address == page * g.pageSize + offset && offset < g.pageSize
    requires address + byteCount - 1 == lastPage * g.pageSize + lastOffset && lastOffset < g.pageSize
    requires begin == Scaled(page, g.pageSize) && end == AlignUp(address + byteCount, g.pageSize)
    ensures begin == page * g.pageSize && end == (lastPage + 1) * g.pageSize && page <= lastPage
    ensures begin <= address && address + byteCount <= end
    ensures Aligned(begin, g.pageSize) && Aligned(end - begin, g.pageSize)
  {
    var sum := address + byteCount + g.pageSize - 1;
    assert sum == (lastPage + 1) * g.pageSize + lastOffset;
    DivModUnique(sum, g.pageSize, lastPage + 1, lastOffset);
    MultiplesOrdered(lastPage, page, g.pageSize);
    DivModUnique(begin, g.pageSize, page, 0);
    Difference(lastPage + 1, page, g.pageSize);
    DivModUnique(end - begin, g.pageSize, lastPage + 1 - page, 0);
  }

  /** The excess belongs to the first and the last page, and taking it back leaves the payload. */
  lemma Excess(g: Geometry, address: nat, byteCount: nat, page: nat, offset: nat, lastPage: nat, lastOffset: nat,
               begin: nat, end: nat, size: nat, counts: seq<nat>)
    requires g.Valid() && byteCount > 0 && begin <= address < end == begin + size && Histogram(g, begin, size, counts)
    requires address == page * g.pageSize + offset && offset < g.pageSize
    requires address + byteCount - 1 == lastPage * g.pageSize + lastOffset && lastOffset < g.pageSize
    requires begin == page * g.pageSize && end == (lastPage + 1) * g.pageSize && address + byteCount <= end
    ensures var first, last := g.StackOf(page), g.StackOf(lastPage);
      && |counts| == g.stacks && counts[first] >= address - begin
      && var fewer := counts[first := counts[first] - (address - begin)];
         && fewer[last] >= end - address - byteCount
         && Histogram(g, address, byteCount, fewer[last := fewer[last] - (end - address - byteCount)])
  {
    hide Bytes, Geometry.StackOf;
    var behind := end - address - byteCount;
    assert address + byteCount == lastPage * g.pageSize + (lastOffset + 1);
    assert (lastPage + 1) * g.pageSize == lastPage * g.pageSize + g.pageSize;
    forall s: nat | s < g.stacks
      ensures counts[s] == (if s == g.StackOf(page) then offset else 0) + Bytes(g, address, byteCount, s)
                           + (if s == g.StackOf(lastPage) then behind else 0)
    {
      BytesSplit(g, begin, offset, byteCount + behind, s);
      BytesSplit(g, address, byteCount, behind, s);
      assert begin == page * g.pageSize + 0;
      BytesInPage(g, page, 0, offset, s);
      BytesInPage(g, lastPage, lastOffset + 1, behind, s);
    }
    var first, last := g.StackOf(page), g.StackOf(lastPage);
    assert counts[first] >= offset && (first == last ==> counts[first] >= offset + behind) && counts[last] >= behind;
  }
}
