/** Four ways to split a transfer over the stacks, each with its own shortcut.  All of them
    compute the histogram of the bytes.
 */
module StackLinks {
  import opened Modular
  import opened StackGeometry

  datatype Split = Refused | Split(counts: seq<nat>)

  /** One count per stack, and each is the number of the range's bytes on that stack. */
  ghost predicate Histogram(g: Geometry, address: nat, n: nat, counts: seq<nat>)
    requires g.Valid()
  {
    |counts| == g.stacks && forall s :: 0 <= s < g.stacks ==> counts[s] == Bytes(g, address, n, s)
  }

  /** The decompositions agree, because there is only one histogram, and they lose no byte. */
  lemma HistogramUnique(g: Geometry, address: nat, n: nat, a: seq<nat>, b: seq<nat>)
    requires g.Valid() && Histogram(g, address, n, a) && Histogram(g, address, n, b)
    ensures a == b && SumOf(a, g.stacks) == n
  {
    BytesConserved(g, address, n);
    SumIs(g, address, n, a, g.stacks);
  }

  function SumOf(counts: seq<nat>, n: nat): nat
    requires n <= |counts|
  {
    if n == 0 then 0 else SumOf(counts, n - 1) + counts[n - 1]
  }

  lemma {:induction false} SumIs(g: Geometry, address: nat, n: nat, counts: seq<nat>, k: nat)
    requires g.Valid() && Histogram(g, address, n, counts) && k <= g.stacks
    ensures SumOf(counts, k) == Total((s: nat) => Bytes(g, address, n, s), k)
  {
    if k > 0 {
      SumIs(g, address, n, counts, k - 1);
    }
  }

  ghost predicate PageCounts(g: Geometry, first: nat, n: nat, counts: seq<nat>)
    requires g.Valid()
  {
    |counts| == g.stacks && forall s :: 0 <= s < g.stacks ==> counts[s] == Pages(g, first, n, s)
  }

  function Remainder(x: nat, m: nat): (rest: nat)
    requires m > 0
    ensures rest < m
  {
    x % m
  }

  function Rotated(lane: nat, turn: nat, m: nat): (stack: nat)
    requires m > 0
    ensures stack < m
  {
    Remainder(lane + turn, m)
  }

  lemma RemainderAdds(x: nat, y: nat, m: nat)
    requires m > 0
    ensures Remainder(Remainder(x, m) + y, m) == Remainder(x + y, m)
  {
    ModAdd(x, y, m);
  }

  // ------------------------------------------------------------- full stripes

  /** The lanes visited so far have received their share. */
  ghost predicate Lap(before: seq<nat>, counts: seq<nat>, turn: nat, lane: nat, full: nat, m: nat)
  {
    && m > 0 && |before| == |counts| == m
    && forall s :: 0 <= s < m ==> counts[s] == before[s] + (if Hits(turn, lane, s, m) > 0 then full else 0)
  }

  lemma LapStep(before: seq<nat>, counts: seq<nat>, turn: nat, lane: nat, full: nat, m: nat)
    requires Lap(before, counts, turn, lane, full, m) && lane < m
    ensures var at := Rotated(lane, turn, m); Lap(before, counts[at := counts[at] + full], turn, lane + 1, full, m)
  {
    var at := Rotated(lane, turn, m);
    HitsOnce(turn, lane + 1, at, m);
    HitsNext(turn, lane, at, m);
    forall s: nat | s < m && s != at ensures Hits(turn, lane + 1, s, m) == Hits(turn, lane, s, m) {
      HitsNext(turn, lane, s, m);
    }
    hide Hits, Rotated;
  }

  lemma HitsNext(base: nat, n: nat, s: nat, m: nat)
    requires m > 0
    ensures Hits(base, n + 1, s, m) == Hits(base, n, s, m) + (if s == Rotated(n, base, m) then 1 else 0)
  {
    assert base + (n + 1) - 1 == n + base;
  }

  lemma LapEnds(before: seq<nat>, counts: seq<nat>, turn: nat, full: nat, m: nat)
    requires Lap(before, counts, turn, m, full, m)
    ensures forall s :: 0 <= s < m ==> counts[s] == before[s] + full
  {
    forall s: nat | s < m ensures counts[s] == before[s] + full {
      HitsRound(turn, s, m);
    }
  }

  // ----------------------------------------------------------- remaining lanes

  ghost predicate Lanes(before: seq<nat>, counts: seq<nat>, base: nat, offset: nat, m: nat)
  {
    && m > 0 && |before| == |counts| == m
    && forall s :: 0 <= s < m ==> counts[s] == before[s] + Hits(base, offset, s, m)
  }

  lemma LanesStep(before: seq<nat>, counts: seq<nat>, base: nat, offset: nat, m: nat)
    requires Lanes(before, counts, base, offset, m)
    ensures var at := Rotated(offset, base, m); Lanes(before, counts[at := counts[at] + 1], base, offset + 1, m)
  {
    forall s: nat | s < m ensures Hits(base, offset + 1, s, m) == Hits(base, offset, s, m) + (if s == Rotated(offset, base, m) then 1 else 0) {
      HitsNext(base, offset, s, m);
    }
    hide Hits, Rotated;
  }

  /** The lane arithmetic of the loop is the rotation of the page number. */
  lemma LaneOf(cursor: nat, offset: nat, turn: nat, m: nat)
    requires m > 0
    ensures Rotated(Rotated(offset, Remainder(cursor, m), m), turn, m) == Rotated(offset, cursor + turn, m)
  {
    hide Remainder;
    RemainderAdds(cursor, offset, m);
    RemainderAdds(cursor + offset, turn, m);
    assert offset + Remainder(cursor, m) == Remainder(cursor, m) + offset;
    assert cursor + offset + turn == offset + (cursor + turn);
  }

  /** Adds what a run of pages inside one group puts on every stack: full stripes, then lanes. */
  method AddRun(g: Geometry, ghost first: nat, ghost done: nat, cursor: nat, take: nat, group: nat, before: seq<nat>)
    returns (counts: seq<nat>)
    requires g.Valid() && PageCounts(g, first, done, before) && cursor == first + done
    requires forall j :: cursor <= j < cursor + take ==> g.Group(j) == group
    ensures PageCounts(g, first, done + take, counts)
  {
    hide Lap, Lanes, Rotated, Remainder, PageCounts, Geometry.StackOf, Pages;
    var startLane, turn := Remainder(cursor, g.stacks), g.rotation(group);
    var full, remainder := DivMod(take, g.stacks);
    counts := before;
    CountsSize(g, first, done, before);
    LapStarts(before, turn, full, g.stacks);
    for lane := 0 to g.stacks
      invariant |counts| == g.stacks && Lap(before, counts, turn, lane, full, g.stacks)
    {
      LapStep(before, counts, turn, lane, full, g.stacks);
      var at := Rotated(lane, turn, g.stacks);
      counts := counts[at := counts[at] + full];
    }
    var striped := counts;
    LanesStart(striped, cursor + turn, g.stacks);
    for offset := 0 to remainder
      invariant |counts| == g.stacks && Lanes(striped, counts, cursor + turn, offset, g.stacks)
    {
      LanesStep(striped, counts, cursor + turn, offset, g.stacks);
      LaneOf(cursor, offset, turn, g.stacks);
      var lane := Rotated(offset, startLane, g.stacks);
      var at := Rotated(lane, turn, g.stacks);
      counts := counts[at := counts[at] + 1];
    }
    RunCounted(g, first, done, take, group, before, striped, counts, full, remainder);
  }

  method DivMod(x: nat, m: nat) returns (q: nat, r: nat)
    requires m > 0
    ensures x == q * m + r && r < m
  {
    q, r := x / m, x % m;
  }

  lemma CountsSize(g: Geometry, first: nat, n: nat, counts: seq<nat>)
    requires g.Valid() && PageCounts(g, first, n, counts)
    ensures |counts| == g.stacks
  {
  }

  lemma LapStarts(before: seq<nat>, turn: nat, full: nat, m: nat)
    requires |before| == m > 0
    ensures Lap(before, before, turn, 0, full, m)
  {
  }

  lemma LanesStart(before: seq<nat>, base: nat, m: nat)
    requires |before| == m > 0
    ensures Lanes(before, before, base, 0, m)
  {
  }

  lemma RunCounted(g: Geometry, first: nat, done: nat, take: nat, group: nat, before: seq<nat>, striped: seq<nat>, counts: seq<nat>,
                   full: nat, remainder: nat)
    requires g.Valid() && PageCounts(g, first, done, before) && take == full * g.stacks + remainder
    requires forall j :: first + done <= j < first + done + take ==> g.Group(j) == group
    requires Lap(before, striped, g.rotation(group), g.stacks, full, g.stacks)
    requires Lanes(striped, counts, first + done + g.rotation(group), remainder, g.stacks)
    ensures PageCounts(g, first, done + take, counts)
  {
    hide Pages, Hits, Geometry.StackOf, Geometry.Group;
    LapEnds(before, striped, g.rotation(group), full, g.stacks);
    forall s | 0 <= s < g.stacks ensures counts[s] == Pages(g, first, done + take, s) {
      PagesSplit(g, first, done, take, s);
      PagesInGroup(g, first + done, take, group, s);
      HitsFull(first + done + g.rotation(group), full, remainder, s, g.stacks);
    }
  }

  predicate Aligned(x: nat, pageSize: nat)
    requires pageSize > 0
  {
    x % pageSize == 0
  }

  /** Group by group: the shared client's decomposition of a page-aligned transfer. */
  method LinkBytesByStack(address: nat, byteCount: nat, g: Geometry) returns (split: Split)
    requires g.Valid()
    ensures split.Refused? <==> !Aligned(address, g.pageSize) || !Aligned(byteCount, g.pageSize)
    ensures split.Split? ==> Histogram(g, address, byteCount, split.counts) && SumOf(split.counts, g.stacks) == byteCount
  {
    hide Aligned, Histogram, PageCounts, Geometry.Group, Geometry.StackOf, Geometry.GroupPages, Pages, Bytes, SumOf;
    if !Aligned(address, g.pageSize) || !Aligned(byteCount, g.pageSize) {
      return Refused;
    }
    var first, pages := PagesIn(address, g.pageSize), PagesIn(byteCount, g.pageSize);
    var counts := seq(g.stacks, _ => 0);
    NoPages(g, first, counts);
    var groupPages := g.GroupPages();
    GroupIs(g, first);
    var cursor, remaining := first, pages;
    while remaining > 0
      invariant cursor + remaining == first + pages && first <= cursor
      invariant PageCounts(g, first, cursor - first, counts)
    {
      var group, groupEnd := GroupOf(g, cursor, groupPages);
      var take := if remaining < groupEnd - cursor then remaining else groupEnd - cursor;
      SameGroup(g, group, cursor, take);
      counts := AddRun(g, first, cursor - first, cursor, take, group, counts);
      cursor := cursor + take;
      remaining := remaining - take;
    }
    CountsSize(g, first, pages, counts);
    var bytes := seq(g.stacks, s requires 0 <= s < g.stacks && |counts| == g.stacks => Scaled(counts[s], g.pageSize));
    BytesCounted(g, address, byteCount, first, pages, counts, bytes);
    split := Split(bytes);
    HistogramUnique(g, address, byteCount, bytes, bytes);
  }

  function PagesIn(bytes: nat, pageSize: nat): nat
    requires pageSize > 0
  {
    bytes / pageSize
  }

  function Scaled(count: nat, pageSize: nat): nat
  {
    count * pageSize
  }

  lemma NoPages(g: Geometry, first: nat, counts: seq<nat>)
    requires g.Valid() && counts == seq(g.stacks, _ => 0)
    ensures PageCounts(g, first, 0, counts)
  {
  }

  method GroupOf(g: Geometry, cursor: nat, groupPages: nat) returns (group: nat, groupEnd: nat)
    requires g.Valid() && groupPages == g.GroupPages() > 0
    ensures groupEnd == (group + 1) * groupPages && group * groupPages <= cursor < groupEnd
  {
    group := cursor / groupPages;
    groupEnd := (group + 1) * groupPages;
    InsideGroup(cursor, group, groupPages);
  }

  lemma BytesCounted(g: Geometry, address: nat, byteCount: nat, first: nat, pages: nat, counts: seq<nat>, bytes: seq<nat>)
    requires g.Valid() && Aligned(address, g.pageSize) && Aligned(byteCount, g.pageSize) && PageCounts(g, first, pages, counts)
    requires first == PagesIn(address, g.pageSize) && pages == PagesIn(byteCount, g.pageSize)
    requires |bytes| == g.stacks && forall s :: 0 <= s < g.stacks ==> bytes[s] == Scaled(counts[s], g.pageSize)
    ensures Histogram(g, address, byteCount, bytes)
  {
    hide Geometry.StackOf, Pages, Bytes;
    assert address == first * g.pageSize && byteCount == pages * g.pageSize;
    forall s | 0 <= s < g.stacks ensures bytes[s] == Bytes(g, address, byteCount, s) {
      BytesOfPages(g, first, pages, s);
    }
  }

  lemma InsideGroup(cursor: nat, group: nat, groupPages: nat)
    requires groupPages > 0 && group == cursor / groupPages
    ensures group * groupPages <= cursor < (group + 1) * groupPages
  {
    assert cursor == group * groupPages + cursor % groupPages;
    assert (group + 1) * groupPages == group * groupPages + groupPages;
  }
}
