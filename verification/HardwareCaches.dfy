/** The write-back HBM cache over KV pages in slower memory: sub-page valid and dirty intervals,
    slot reuse, background flushing, and invalidation of dead pages.  Seen through the cache,
    memory is flat.
 */
module HardwareCaches {
  import opened Intervals
  import opened KvLayouts

  datatype CachePage = CachePage(slot: nat, valid: seq<Interval>, dirty: seq<Interval>)

  /** The cached pages with the contents of the HBM slots and of the backing pages. */
  datatype Memory = Memory(cache: map<nat, CachePage>, hbm: Content, backing: Content)
  {
    /** What a reader finds at byte x of a page. */
    ghost function At(page: nat, x: nat): nat
    {
      if page in cache && In(cache[page].valid, x) then hbm(cache[page].slot, x) else backing(page, x)
    }

    /** Dirty bytes are valid, valid clean bytes equal their backing, no two pages share a slot. */
    ghost predicate Coherent(pageSize: nat)
    {
      && (forall p, x: nat :: p in cache && In(cache[p].dirty, x) ==> In(cache[p].valid, x))
      && (forall p, x: nat :: p in cache && In(cache[p].valid, x) ==> x < pageSize)
      && (forall p, x: nat :: p in cache && In(cache[p].valid, x) && !In(cache[p].dirty, x) ==>
            hbm(cache[p].slot, x) == backing(p, x))
      && (forall p, q :: p in cache && q in cache && p != q ==> cache[p].slot != cache[q].slot)
    }
  }

  /** One request of a batch: the cache slots of its tokens so far, the last of them new. */
  datatype NativeRow = NativeRow(rid: nat, slots: seq<nat>, tokens: nat)
  {
    /** How many slots hold what earlier batches wrote. */
    function Past(): nat
      requires tokens <= |slots|
    {
      |slots| - tokens
    }

    predicate Sane(reserved: nat, poolTokens: nat)
    {
      && 0 < tokens <= |slots| && (forall i :: 0 <= i < |slots| ==> 0 < slots[i] < poolTokens && reserved <= slots[i])
      && forall i, j :: 0 <= i < j < |slots| ==> slots[i] != slots[j]
    }

    predicate Backed(live: set<nat>)
      requires tokens <= |slots|
    {
      forall i :: 0 <= i < Past() ==> slots[i] in live
    }
  }

  ghost predicate SameContents(a: Memory, b: Memory)
  {
    forall p: nat, x: nat :: b.At(p, x) == a.At(p, x)
  }

  /** Cached and free slots partition the slots issued so far. */
  ghost predicate Partitioned(cache: map<nat, CachePage>, free: set<nat>, next: nat, capacity: nat)
  {
    && next <= capacity
    && (forall p :: p in cache ==> cache[p].slot < next && cache[p].slot !in free)
    && (forall s :: s in free ==> s < next)
    && (forall s: nat :: s < next && s !in free ==> exists p :: p in cache && cache[p].slot == s)
  }

  /** The dictionary's order lists every cached page once. */
  ghost predicate Ordered(order: seq<nat>, cache: map<nat, CachePage>)
  {
    && (forall i, j :: 0 <= i < j < |order| ==> order[i] != order[j])
    && (forall p: nat :: p in order <==> p in cache)
  }

  /** All of the cache that its operations change, but the live slots. */
  datatype Held = Held(mem: Memory, order: seq<nat>, free: set<nat>, next: nat, backed: set<nat>)

  // ------------------------------------------------- what the steps do, exactly

  /** The dirty bytes of a page are in its backing, which is as it was elsewhere. */
  ghost predicate BackedWith(m: Memory, backing: Content, page: nat)
    requires page in m.cache
  {
    forall p: nat, x: nat ::
      backing(p, x) == if p == page && In(m.cache[page].dirty, x) then m.hbm(m.cache[page].slot, x) else m.backing(p, x)
  }

  /** A page is written back, and marked as backed if there was anything to write. */
  ghost predicate Cleans(a: Held, b: Held, page: nat)
  {
    && page in a.mem.cache && BackedWith(a.mem, b.mem.backing, page)
    && b == a.(mem := Memory(a.mem.cache[page := a.mem.cache[page].(dirty := [])], a.mem.hbm, b.mem.backing),
               backed := if a.mem.cache[page].dirty == [] then a.backed else a.backed + {page})
  }

  /** The oldest page is written back and gives its slot away. */
  ghost predicate Evicts(a: Held, b: Held, slot: nat)
  {
    && a.order != [] && a.order[0] in a.mem.cache && slot == a.mem.cache[a.order[0]].slot
    && BackedWith(a.mem, b.mem.backing, a.order[0])
    && b == a.(mem := Memory(a.mem.cache - {a.order[0]}, a.mem.hbm, b.mem.backing), order := a.order[1..],
               backed := if a.mem.cache[a.order[0]].dirty == [] then a.backed else a.backed + {a.order[0]})
  }

  /** The least free slot, else the first one never used, else the oldest page's. */
  ghost predicate Takes(a: Held, b: Held, slot: nat, capacity: nat)
  {
    if a.free != {} then slot in a.free && (forall s :: s in a.free ==> slot <= s) && b == a.(free := a.free - {slot})
    else if a.next < capacity then slot == a.next && b == a.(next := a.next + 1)
    else Evicts(a, b, slot)
  }

  /** A page becomes the youngest: with the entry it has, or with an empty one in the slot taken. */
  ghost predicate Enters(a: Held, b: Held, page: nat, capacity: nat)
  {
    if page in a.mem.cache then b == a.(order := Without(a.order, page) + [page])
    else exists mid: Held, slot: nat :: Takes(a, mid, slot, capacity) && b == Seats(mid, page, slot)
  }

  ghost function Seats(mid: Held, page: nat, slot: nat): Held
  {
    mid.(mem := mid.mem.(cache := mid.mem.cache[page := CachePage(slot, [], [])]), order := mid.order + [page])
  }

  /** Exactly the range becomes part of the intervals. */
  ghost predicate Adds(before: seq<Interval>, after: seq<Interval>, lo: nat, hi: nat)
  {
    forall x: nat :: In(after, x) <==> In(before, x) || lo <= x < hi
  }

  /** The gaps of the range are fetched, and the range is valid; nothing else changes. */
  ghost predicate Fills(mid: Held, b: Held, page: nat, lo: nat, hi: nat)
  {
    && page in mid.mem.cache && page in b.mem.cache
    && var e, f := mid.mem.cache[page], b.mem.cache[page];
       && f.slot == e.slot && f.dirty == e.dirty && Adds(e.valid, f.valid, lo, hi)
       && b == mid.(mem := Memory(mid.mem.cache[page := f], b.mem.hbm, mid.mem.backing))
       && forall s: nat, x: nat :: b.mem.hbm(s, x) ==
            if s == e.slot && lo <= x < hi && !In(e.valid, x) then mid.mem.backing(page, x) else mid.mem.hbm(s, x)
  }

  /** The data lands in the slot, and the range is valid and dirty; nothing else changes. */
  ghost predicate Lands(mid: Held, b: Held, page: nat, lo: nat, hi: nat, data: nat -> nat)
  {
    && page in mid.mem.cache && page in b.mem.cache
    && var e, f := mid.mem.cache[page], b.mem.cache[page];
       && f.slot == e.slot && Adds(e.dirty, f.dirty, lo, hi) && Adds(e.valid, f.valid, lo, hi)
       && b == mid.(mem := Memory(mid.mem.cache[page := f], b.mem.hbm, mid.mem.backing))
       && forall s: nat, x: nat :: b.mem.hbm(s, x) == if s == e.slot && lo <= x < hi then data(x) else mid.mem.hbm(s, x)
  }

  ghost predicate Reads(a: Held, b: Held, piece: Piece, capacity: nat)
  {
    exists mid: Held :: Enters(a, mid, piece.page, capacity) && Fills(mid, b, piece.page, piece.lo, piece.hi)
  }

  ghost predicate Writes(a: Held, b: Held, piece: Piece, data: nat -> nat, capacity: nat)
  {
    exists mid: Held :: Enters(a, mid, piece.page, capacity) && Lands(mid, b, piece.page, piece.lo, piece.hi, data)
  }

  /** One step after the other, from the first state to the last. */
  ghost predicate Chained(trail: seq<Held>, a: Held, b: Held, steps: nat)
  {
    |trail| == steps + 1 && trail[0] == a && trail[steps] == b
  }

  ghost predicate ReadSteps(trail: seq<Held>, pieces: seq<Piece>, capacity: nat)
    requires |trail| == |pieces| + 1
  {
    forall i :: 0 <= i < |pieces| ==> Reads(trail[i], trail[i + 1], pieces[i], capacity)
  }

  ghost predicate WriteSteps(trail: seq<Held>, pieces: seq<Piece>, pageSize: nat, data: nat -> nat, capacity: nat)
    requires |trail| == |pieces| + 1
  {
    forall i :: 0 <= i < |pieces| ==>
      Writes(trail[i], trail[i + 1], pieces[i], Shifted(data, Scaled(pieces[i].page, pageSize)), capacity)
  }

  ghost predicate FlushSteps(trail: seq<Held>, order: seq<nat>)
    requires |trail| <= |order| + 1
  {
    forall i :: 0 <= i < |trail| - 1 ==> Cleans(trail[i], trail[i + 1], order[i])
  }

  function DirtyAmong(order: seq<nat>, cache: map<nat, CachePage>): nat
  {
    if order == [] then 0
    else
      var n := |order| - 1;
      DirtyAmong(order[..n], cache) + (if order[n] in cache && cache[order[n]].dirty != [] then 1 else 0)
  }

  // ----------------------------------------------------------- copies and writes

  /** Writing back one dirty interval changes nothing a reader can see. */
  lemma StoreBack(m: Memory, page: nat, lo: nat, hi: nat, pageSize: nat)
    requires m.Coherent(pageSize) && page in m.cache && forall x :: lo <= x < hi ==> In(m.cache[page].valid, x)
    ensures var next := m.(backing := Stored(m.backing, page, lo, hi, Row(m.hbm, m.cache[page].slot)));
      && next.Coherent(pageSize) && SameContents(m, next)
      && forall x :: lo <= x < hi ==> next.backing(page, x) == m.hbm(m.cache[page].slot, x)
  {
  }

  /** An entry whose dirty bytes have all been written back is clean. */
  lemma Cleaned(m: Memory, page: nat, pageSize: nat)
    requires m.Coherent(pageSize) && page in m.cache
    requires forall x :: In(m.cache[page].dirty, x) ==> m.backing(page, x) == m.hbm(m.cache[page].slot, x)
    ensures var next := m.(cache := m.cache[page := m.cache[page].(dirty := [])]);
      next.Coherent(pageSize) && SameContents(m, next)
  {
  }

  /** A clean entry can be dropped. */
  lemma Dropped(m: Memory, page: nat, pageSize: nat)
    requires m.Coherent(pageSize) && page in m.cache && m.cache[page].dirty == []
    ensures var next := m.(cache := m.cache - {page});
      next.Coherent(pageSize) && SameContents(m, next)
  {
    assert forall x: nat :: !In([], x);
  }

  /** An entry with nothing valid shows the backing, whatever its slot held before. */
  lemma Added(m: Memory, page: nat, slot: nat, pageSize: nat)
    requires m.Coherent(pageSize) && page !in m.cache && forall p :: p in m.cache ==> m.cache[p].slot != slot
    ensures var next := m.(cache := m.cache[page := CachePage(slot, [], [])]);
      next.Coherent(pageSize) && SameContents(m, next)
  {
    assert forall x: nat :: !In([], x);
  }

  /** Filling a gap copies what a reader would have found in the backing. */
  lemma Filled(m: Memory, page: nat, lo: nat, hi: nat, pageSize: nat)
    requires m.Coherent(pageSize) && page in m.cache && forall x :: lo <= x < hi ==> !In(m.cache[page].valid, x)
    ensures var next := m.(hbm := Stored(m.hbm, m.cache[page].slot, lo, hi, Row(m.backing, page)));
      && next.Coherent(pageSize) && SameContents(m, next)
      && forall x :: lo <= x < hi ==> next.hbm(m.cache[page].slot, x) == m.backing(page, x)
  {
  }

  /** Once every byte of the range is in the slot, the range may be called valid. */
  lemma Validated(m: Memory, page: nat, lo: nat, hi: nat, valid: seq<Interval>, pageSize: nat)
    requires m.Coherent(pageSize) && page in m.cache && hi <= pageSize
    requires forall x :: lo <= x < hi && !In(m.cache[page].valid, x) ==> m.hbm(m.cache[page].slot, x) == m.backing(page, x)
    requires forall x: nat :: In(valid, x) <==> In(m.cache[page].valid, x) || lo <= x < hi
    ensures var next := m.(cache := m.cache[page := m.cache[page].(valid := valid)]);
      next.Coherent(pageSize) && SameContents(m, next)
  {
  }

  /** A write lands in the slot, and its range is valid and dirty from then on. */
  lemma Written(m: Memory, page: nat, lo: nat, hi: nat, valid: seq<Interval>, dirty: seq<Interval>, data: nat -> nat, pageSize: nat)
    requires m.Coherent(pageSize) && page in m.cache && hi <= pageSize
    requires forall x: nat :: In(valid, x) <==> In(m.cache[page].valid, x) || lo <= x < hi
    requires forall x: nat :: In(dirty, x) <==> In(m.cache[page].dirty, x) || lo <= x < hi
    ensures var e := m.cache[page];
      var next := Memory(m.cache[page := e.(valid := valid, dirty := dirty)], Stored(m.hbm, e.slot, lo, hi, data), m.backing);
      && next.Coherent(pageSize)
      && forall p: nat, x: nat :: next.At(p, x) == if p == page && lo <= x < hi then data(x) else m.At(p, x)
  {
  }

  /** Forgetting a range of a page disturbs nothing outside it. */
  lemma Forgotten(m: Memory, page: nat, lo: nat, hi: nat, valid: seq<Interval>, dirty: seq<Interval>, pageSize: nat)
    requires m.Coherent(pageSize) && page in m.cache
    requires forall x: nat :: In(valid, x) <==> In(m.cache[page].valid, x) && !(lo <= x < hi)
    requires forall x: nat :: In(dirty, x) <==> In(m.cache[page].dirty, x) && !(lo <= x < hi)
    ensures var next := m.(cache := m.cache[page := m.cache[page].(valid := valid, dirty := dirty)]);
      && next.Coherent(pageSize)
      && forall p: nat, x: nat :: next.At(p, x) == m.At(p, x) || (p == page && lo <= x < hi)
  {
  }

  lemma SameTrans(a: Memory, b: Memory, c: Memory)
    requires SameContents(a, b) && SameContents(b, c)
    ensures SameContents(a, c)
  {
  }

  class HardwareCache {
    const layout: Layout
    const capacity: nat
    const poolTokens: nat
    var cache: map<nat, CachePage>
    var order: seq<nat>
    /** A heap of slots; only its contents matter. */
    var freeSlots: set<nat>
    var nextSlot: nat
    var live: set<nat>
    var backed: set<nat>
    ghost var Hbm: Content
    ghost var Backing: Content

    ghost function Mem(): Memory
      reads this
    {
      Memory(cache, Hbm, Backing)
    }

    ghost function Now(): Held
      reads this
    {
      Held(Mem(), order, freeSlots, nextSlot, backed)
    }

    ghost predicate Valid()
      reads this
    {
      && layout.Valid() && capacity > 0
      && Mem().Coherent(layout.page) && Partitioned(cache, freeSlots, nextSlot, capacity) && Ordered(order, cache)
    }

    constructor (layout: Layout, capacity: nat, poolTokens: nat, ghost hbm: Content, ghost backing: Content)
      requires layout.Valid() && capacity > 0
      ensures Valid() && this.layout == layout && this.capacity == capacity && this.poolTokens == poolTokens && live == {}
      ensures Now() == Held(Memory(map[], hbm, backing), [], {}, 0, {})
    {
      this.layout, this.capacity, this.poolTokens := layout, capacity, poolTokens;
      cache, order, freeSlots, nextSlot, live, backed := map[], [], {}, 0, {}, {};
      Hbm, Backing := hbm, backing;
    }

    /** Copies all dirty bytes of a page to its backing. */
    method Writeback(page: nat)
      requires Valid() && page in cache
      modifies this
      ensures Valid() && SameContents(old(Mem()), Mem())
      ensures Cleans(old(Now()), Now(), page) && live == old(live)
    {
      hide Partitioned, Ordered, In, Memory.Coherent, SameContents, Memory.At;
      ghost var m := Mem();
      var dirty := cache[page].dirty;
      AllSame(m);
      NoneBackedUp(m, page);
      for i := 0 to |dirty|
        invariant Mem().Coherent(layout.page) && SameContents(m, Mem()) && Hbm == old(Hbm)
        invariant cache == old(cache) && order == old(order) && freeSlots == old(freeSlots) && nextSlot == old(nextSlot) && live == old(live)
        invariant BackedUp(m, Mem(), page, dirty[..i])
        invariant backed == if i == 0 then old(backed) else old(backed) + {page}
      {
        BackUpMore(m, Mem(), page, i, layout.page);
        Backing := Stored(Backing, page, dirty[i].lo, dirty[i].hi, Row(Hbm, cache[page].slot));
        backed := backed + {page};
      }
      assert dirty[..|dirty|] == dirty;
      ghost var done := Mem();
      BackUpDone(m, done, page, layout.page);
      cache := cache[page := cache[page].(dirty := [])];
      SameTrans(m, done, Mem());
      SameSlots(old(cache), cache, freeSlots, nextSlot, capacity);
      SameOrder(order, old(cache), cache);
    }

    /** The cache entry of a page: the one there is, moved to the young end, or a new one. */
    method PageFor(page: nat)
      requires Valid()
      modifies this
      ensures Valid() && SameContents(old(Mem()), Mem()) && page in cache && live == old(live)
      ensures Enters(old(Now()), Now(), page, capacity)
    {
      hide Partitioned, Ordered, In, Memory.Coherent, SameContents, Memory.At;
      AllSame(Mem());
      if page in cache {
        Reordered(order, cache, page);
        order := Without(order, page) + [page];
        return;
      }
      var slot := TakeSlot(page);
      ghost var m := Mem();
      AddedPage(m, order, freeSlots, nextSlot, capacity, page, slot, layout.page);
      cache := cache[page := CachePage(slot, [], [])];
      order := order + [page];
      SameTrans(old(Mem()), m, Mem());
    }

    /** A free slot, one never used, or the oldest page's after writing that page back. */
    method TakeSlot(page: nat) returns (slot: nat)
      requires Valid() && page !in cache
      modifies this
      ensures Mem().Coherent(layout.page) && Ordered(order, cache) && Spare(cache, freeSlots, nextSlot, capacity, slot)
      ensures SameContents(old(Mem()), Mem()) && page !in cache && live == old(live)
      ensures Takes(old(Now()), Now(), slot, capacity)
    {
      hide Ordered, In, Memory.Coherent, SameContents, Memory.At;
      AllSame(Mem());
      if freeSlots != {} {
        slot := LeastOf(freeSlots);
        freeSlots := freeSlots - {slot};
        assert freeSlots + {slot} == old(freeSlots);
      } else if nextSlot < capacity {
        slot := nextSlot;
        nextSlot := nextSlot + 1;
        NeverUsed(cache, freeSlots, slot, capacity);
      } else {
        slot := EvictOldest(page);
      }
    }

    method EvictOldest(page: nat) returns (slot: nat)
      requires Valid() && page !in cache && freeSlots == {} && nextSlot == capacity
      modifies this
      ensures Mem().Coherent(layout.page) && Ordered(order, cache) && Spare(cache, freeSlots, nextSlot, capacity, slot)
      ensures SameContents(old(Mem()), Mem()) && page !in cache && live == old(live)
      ensures Evicts(old(Now()), Now(), slot)
    {
      hide Partitioned, Ordered, In, Memory.Coherent, SameContents, Memory.At, Spare;
      SomeOldest(order, cache, freeSlots, nextSlot, capacity);
      var oldest := order[0];
      Writeback(oldest);
      ghost var m := Mem();
      slot := cache[oldest].slot;
      EvictedPage(m, order, freeSlots, nextSlot, capacity, layout.page);
      cache := cache - {oldest};
      order := order[1..];
      SameTrans(old(Mem()), m, Mem());
    }

    /** A read of part of a page: gaps are filled from the backing, and the slot then shows what a
        flat memory would. */
    method ReadPiece(page: nat, lo: nat, hi: nat)
      requires Valid() && lo < hi <= layout.page
      modifies this
      ensures Valid() && SameContents(old(Mem()), Mem()) && live == old(live)
      ensures page in cache && forall x :: lo <= x < hi ==>
        In(cache[page].valid, x) && Hbm(cache[page].slot, x) == old(Mem()).At(page, x)
      ensures Reads(old(Now()), Now(), Piece(page, lo, hi), capacity)
    {
      hide Partitioned, Ordered, In, Memory.Coherent, SameContents, Memory.At, Enters, Fills, FilledIn;
      PageFor(page);
      ghost var m, entered := Mem(), Now();
      var entry := cache[page];
      var gaps := Missing(entry.valid, lo, hi);
      AllSame(m);
      NoGaps(m, page, gaps);
      for i := 0 to |gaps|
        invariant Valid() && Now() == entered.(mem := Mem()) && SameContents(m, Mem()) && live == old(live)
        invariant FilledIn(m, Mem(), page, gaps[..i])
      {
        FillMore(m, Mem(), page, gaps, i, lo, hi, layout.page);
        FilledSame(m, Mem(), page, gaps[..i]);
        Hbm := Stored(Hbm, entry.slot, gaps[i].lo, gaps[i].hi, Row(Backing, page));
      }
      assert gaps[..|gaps|] == gaps;
      ghost var filled := Mem();
      var valid := Intervals.Merge(entry.valid + [Interval(lo, hi)]);
      ReadDone(m, filled, page, gaps, lo, hi, valid, layout.page);
      FillsNow(entered, filled, page, gaps, lo, hi, valid);
      cache := cache[page := entry.(valid := valid)];
      SameSlots(filled.cache, cache, freeSlots, nextSlot, capacity);
      SameOrder(order, filled.cache, cache);
      SameTrans(m, filled, Mem());
      SameTrans(old(Mem()), m, Mem());
      ReadShows(old(Mem()), Mem(), page, lo, hi);
    }

    /** A write of part of a page changes exactly those bytes of the flat memory. */
    method WritePiece(page: nat, lo: nat, hi: nat, ghost data: nat -> nat)
      requires Valid() && lo < hi <= layout.page
      modifies this
      ensures Valid() && live == old(live)
      ensures forall p: nat, x: nat :: Mem().At(p, x) == if p == page && lo <= x < hi then data(x) else old(Mem()).At(p, x)
      ensures Writes(old(Now()), Now(), Piece(page, lo, hi), data, capacity)
    {
      hide Partitioned, Ordered, In, Memory.Coherent, Memory.At, Enters;
      PageFor(page);
      ghost var m, entered := Mem(), Now();
      var entry := cache[page];
      var dirty := Intervals.Merge(entry.dirty + [Interval(lo, hi)]);
      var valid := Intervals.Merge(entry.valid + [Interval(lo, hi)]);
      Extended(entry.dirty, dirty, lo, hi);
      Extended(entry.valid, valid, lo, hi);
      Written(m, page, lo, hi, valid, dirty, data, layout.page);
      Hbm := Stored(Hbm, entry.slot, lo, hi, data);
      cache := cache[page := entry.(valid := valid, dirty := dirty)];
      SameSlots(m.cache, cache, freeSlots, nextSlot, capacity);
      SameOrder(order, m.cache, cache);
      assert Lands(entered, Now(), page, lo, hi, data);
    }

    /** A read of a byte range: the slots show, for every byte and at the moment its piece is read,
        what a flat memory would. */
    method Read(address: nat, size: nat) returns (ghost seen: (nat, nat) -> nat, ghost pieces: seq<Piece>, ghost trail: seq<Held>)
      requires Valid()
      modifies this
      ensures Valid() && SameContents(old(Mem()), Mem()) && live == old(live)
      ensures CutAt(pieces, layout.page, address, size)
      ensures Chained(trail, old(Now()), Now(), |pieces|) && ReadSteps(trail, pieces, capacity)
      ensures forall p: nat, x: nat :: x < layout.page && address <= Scaled(p, layout.page) + x < address + size ==>
        seen(p, x) == old(Mem()).At(p, x)
    {
      hide Partitioned, Ordered, In, Memory.Coherent, SameContents, Memory.At, Scaled, Reads;
      var cut := Pieces(layout.page, address, size);
      pieces, trail := cut, [Now()];
      AllSame(Mem());
      seen := (p: nat, x: nat) => 0;
      for i := 0 to |cut|
        invariant Valid() && SameContents(old(Mem()), Mem()) && live == old(live)
        invariant Seen(old(Mem()), pieces[..i], seen)
        invariant Chained(trail, old(Now()), Now(), i) && ReadSteps(trail, pieces[..i], capacity)
      {
        ghost var m, piece := Mem(), pieces[i];
        ReadPiece(cut[i].page, cut[i].lo, cut[i].hi);
        trail := trail + [Now()];
        assert pieces[..i + 1] == pieces[..i] + [piece];
        SameTrans(old(Mem()), m, Mem());
        ghost var shown, slot := Hbm, cache[piece.page].slot;
        SeenMore(old(Mem()), m, pieces, i, seen, shown, slot);
        seen := Noted(seen, piece, shown, slot);
      }
      assert pieces[..|pieces|] == pieces;
      forall p: nat, x: nat | x < layout.page && address <= Scaled(p, layout.page) + x < address + size
        ensures seen(p, x) == old(Mem()).At(p, x)
      {
        assert Listed(pieces, p, x);
      }
    }

    /** A write of a byte range changes exactly those bytes of the flat memory. */
    method Write(address: nat, size: nat, ghost data: nat -> nat) returns (ghost pieces: seq<Piece>, ghost trail: seq<Held>)
      requires Valid()
      modifies this
      ensures Valid() && live == old(live)
      ensures CutAt(pieces, layout.page, address, size)
      ensures Chained(trail, old(Now()), Now(), |pieces|) && WriteSteps(trail, pieces, layout.page, data, capacity)
      ensures forall p: nat, x: nat :: x < layout.page ==>
        Mem().At(p, x) == (if address <= Scaled(p, layout.page) + x < address + size then data(Scaled(p, layout.page) + x)
                           else old(Mem()).At(p, x))
    {
      hide Partitioned, Ordered, In, Memory.Coherent, Memory.At, Scaled, Writes;
      var cut := Pieces(layout.page, address, size);
      pieces, trail := cut, [Now()];
      NoPieces(old(Mem()), layout, data);
      assert pieces[..0] == [];
      for i := 0 to |cut|
        invariant Valid() && live == old(live) && Overwritten(old(Mem()), Mem(), layout, pieces[..i], data)
        invariant Chained(trail, old(Now()), Now(), i) && WriteSteps(trail, pieces[..i], layout.page, data, capacity)
      {
        ghost var m, piece := Mem(), pieces[i];
        WritePiece(cut[i].page, cut[i].lo, cut[i].hi, Shifted(data, Scaled(piece.page, layout.page)));
        trail := trail + [Now()];
        assert pieces[..i + 1] == pieces[..i] + [piece];
        OverwrittenMore(old(Mem()), m, Mem(), layout, pieces, i, data);
      }
      assert pieces[..|pieces|] == pieces;
    }

    /** Background flushing writes the dirty pages back, oldest first, until the limit is reached or
        no page is left: nothing a reader sees changes. */
    method Flush(limit: nat) returns (flushed: nat, ghost trail: seq<Held>)
      requires Valid()
      modifies this
      ensures Valid() && SameContents(old(Mem()), Mem()) && live == old(live) && order == old(order)
      ensures 0 < |trail| <= |order| + 1 && Chained(trail, old(Now()), Now(), |trail| - 1) && FlushSteps(trail, order)
      ensures flushed == DirtyAmong(order[..|trail| - 1], old(cache)) <= limit
      ensures |trail| <= |order| ==> flushed == limit
    {
      hide Partitioned, In, Memory.Coherent, SameContents, Memory.At, Cleans, Flushing;
      AllSame(Mem());
      flushed, trail := 0, [Now()];
      NothingFlushed(Now());
      for i := 0 to |order|
        invariant Valid() && SameContents(old(Mem()), Mem()) && live == old(live) && order == old(order)
        invariant Flushing(trail, old(Now()), Now(), i, flushed) && flushed <= limit
      {
        FlushingMeans(trail, old(Now()), Now(), i, flushed);
        if flushed >= limit {
          return;
        }
        assert order[i] in order;
        ghost var m, before := Mem(), Now();
        var wrote := FlushPage(order[i]);
        SameTrans(old(Mem()), m, Mem());
        FlushMore(trail, old(Now()), before, Now(), i, flushed, wrote);
        flushed := flushed + wrote;
        trail := trail + [Now()];
      }
      FlushingMeans(trail, old(Now()), Now(), |order|, flushed);
    }

    method FlushPage(page: nat) returns (wrote: nat)
      requires Valid() && page in cache
      modifies this
      ensures Valid() && SameContents(old(Mem()), Mem()) && live == old(live) && order == old(order)
      ensures Cleans(old(Now()), Now(), page) && wrote == if old(cache)[page].dirty != [] then 1 else 0
    {
      hide Partitioned, Ordered, In, Memory.Coherent, SameContents, Memory.At, BackedWith;
      AllSame(Mem());
      wrote := 0;
      if cache[page].dirty != [] {
        Writeback(page);
        wrote := 1;
      } else {
        NothingToClean(Now(), page);
      }
    }

    // ------------------------------------------------------------- observation

    /** A batch arrives: its new slots live from now on.  It is refused, with nothing changed, when
        it is empty, names a request twice or a slot it may not, or builds on KV that is not there. */
    method Observe(rows: seq<NativeRow>, reserved: nat) returns (ok: bool)
      requires Valid()
      modifies this`live
      ensures Valid()
      ensures ok <==>
        && rows != [] && (forall i, j :: 0 <= i < j < |rows| ==> rows[i].rid != rows[j].rid)
        && forall i :: 0 <= i < |rows| ==> rows[i].Sane(reserved, poolTokens) && rows[i].Backed(old(live))
      ensures ok ==> live == old(live) + (set i, k | 0 <= i < |rows| && rows[i].Past() <= k < |rows[i].slots| :: rows[i].slots[k])
      ensures !ok ==> live == old(live)
    {
      hide Partitioned, Ordered, Memory.Coherent;
      if rows == [] || exists i, j :: 0 <= i < j < |rows| && rows[i].rid == rows[j].rid {
        return false;
      }
      for i := 0 to |rows|
        invariant forall j :: 0 <= j < i ==> rows[j].Sane(reserved, poolTokens) && rows[j].Backed(live)
      {
        if !rows[i].Sane(reserved, poolTokens) || !rows[i].Backed(live) {
          return false;
        }
      }
      for i := 0 to |rows|
        invariant Valid()
        invariant live == old(live) + (set j, k | 0 <= j < i && rows[j].Past() <= k < |rows[j].slots| :: rows[j].slots[k])
      {
        ghost var before := live;
        for k := rows[i].Past() to |rows[i].slots|
          invariant Valid() && live == before + (set m | rows[i].Past() <= m < k :: rows[i].slots[m])
        {
          live := live + {rows[i].slots[k]};
        }
      }
      ok := true;
    }

    // ----------------------------------------------------------------- release

    /** Cuts one piece of a released slot out of its page's entry. */
    method ForgetPiece(page: nat, lo: nat, hi: nat)
      requires Valid()
      modifies this`cache
      ensures Valid() && Trimmed(old(cache), cache, PieceBytes(Piece(page, lo, hi)))
      ensures cache.Keys == old(cache).Keys
      ensures forall p: nat, x: nat :: Mem().At(p, x) == old(Mem()).At(p, x) || (p == page && lo <= x < hi)
    {
      hide Partitioned, Ordered, In, Memory.Coherent, Memory.At, Trimmed;
      NoTrim(cache, PieceBytes(Piece(page, lo, hi)), page);
      if page in cache {
        ghost var m := Mem();
        var entry := cache[page];
        var valid := Subtract(entry.valid, lo, hi);
        var dirty := Subtract(entry.dirty, lo, hi);
        Forgotten(m, page, lo, hi, valid, dirty, layout.page);
        OneTrimmed(m.cache, page, lo, hi, valid, dirty);
        cache := cache[page := entry.(valid := valid, dirty := dirty)];
        SameSlots(m.cache, cache, freeSlots, nextSlot, capacity);
        SameOrder(order, m.cache, cache);
      }
    }

    /** Some slot that still lives keeps bytes of the page. */
    method Alive(page: nat) returns (alive: bool)
      requires Valid() && exists slot: nat :: Overlaps(layout, slot, page)
      ensures alive <==> exists slot: nat :: slot in live && Overlaps(layout, slot, page)
    {
      hide Overlaps, Partitioned, Ordered, Memory.Coherent;
      ArenaThere(layout, page);
      var slots := PageSlots(layout, page);
      alive := false;
      for slot := slots.value.0 to slots.value.1
        invariant alive <==> exists s: nat :: slots.value.0 <= s < slot && s in live
      {
        if slot in live {
          alive := true;
        }
      }
    }

    /** Takes one slot's bytes out of the cache, and tells which pages have died so far. */
    method ReleaseSlot(slot: nat, dying: set<nat>, ghost gone: set<nat>) returns (dead: set<nat>)
      requires Valid() && slot in live && Dead(layout, dying, gone, live)
      modifies this`cache, this`live
      ensures Valid() && live == old(live) - {slot} && cache.Keys == old(cache).Keys
      ensures Dead(layout, dead, gone + {slot}, live) && Trimmed(old(cache), cache, BytesOf(layout, {slot}))
      ensures KeepsLive(layout, old(Mem()), Mem(), live)
    {
      hide Partitioned, Ordered, In, Memory.Coherent, Memory.At, Overlaps, Scaled, Trimmed, Dead, Doomed, Listed;
      live := live - {slot};
      dead := dying;
      var pieces := SlotPieces(layout, slot);
      KeepsAll(layout, Mem(), live);
      NoneJudged(layout, dying, gone, old(live), slot, pieces);
      TrimmedNone(cache, pieces);
      for i := 0 to |pieces|
        invariant Valid() && live == old(live) - {slot} && cache.Keys == old(cache).Keys
        invariant Judging(layout, dying, dead, live, slot, pieces, i) && KeepsLive(layout, old(Mem()), Mem(), live)
        invariant Trimmed(old(cache), cache, BytesIn(pieces[..i]))
      {
        var piece := pieces[i];
        ghost var m := Mem();
        PieceOwned(layout, slot, pieces, i);
        ForgetPiece(piece.page, piece.lo, piece.hi);
        ForgetKeeps(layout, old(Mem()), m, Mem(), slot, live, piece, pieces);
        TrimmedPiece(old(cache), m.cache, cache, pieces, i);
        var alive := Alive(piece.page);
        ghost var before := dead;
        if !alive {
          dead := dead + {piece.page};
        }
        JudgedMore(layout, dying, before, dead, live, slot, pieces, i, alive);
      }
      AllJudged(layout, dying, dead, gone, old(live), slot, pieces);
      TrimmedSlot(layout, old(cache), cache, slot, pieces);
    }

    /** The allocator gave slots back.  Of the cached bytes exactly theirs are forgotten.  A page dies
        when a slot that lived before was its last one: it leaves the cache, its cache slot is free
        again, and what the backing has of it is invalidated. */
    method Release(slots: seq<nat>) returns (ok: bool, invalidated: set<nat>)
      requires Valid()
      modifies this
      ensures Valid() && KeepsLive(layout, old(Mem()), Mem(), live)
      ensures ok <==> forall i :: 0 <= i < |slots| ==> slots[i] < poolTokens
      ensures live <= old(live) && forall s :: s in old(live) - live ==> s in slots
      ensures Trimmed(old(cache), cache, BytesOf(layout, old(live) - live))
      ensures Hbm == old(Hbm) && Backing == old(Backing) && nextSlot == old(nextSlot)
      ensures ok ==> forall s :: s in slots ==> s !in live
      ensures ok ==> forall page: nat :: page in cache <==> page in old(cache) && !Doomed(layout, page, old(live) - live, live)
      ensures ok ==> forall page: nat :: page in backed <==> page in old(backed) && !Doomed(layout, page, old(live) - live, live)
      ensures ok ==> invalidated == old(backed) - backed
      ensures ok ==> freeSlots == old(freeSlots) + SlotsOf(old(cache), old(cache).Keys - cache.Keys)
      ensures ok ==> order == Left(old(order), cache.Keys)
      ensures !ok ==> Now() == old(Now()).(mem := Mem()) && cache.Keys == old(cache).Keys && invalidated == {}
    {
      hide Partitioned, Ordered, In, Memory.Coherent, Memory.At, Overlaps, Scaled, Trimmed, Dead, Doomed;
      var dead: set<nat> := {};
      ok, invalidated := true, {};
      KeepsAll(layout, Mem(), live);
      NoneDead(layout, live);
      TrimmedAll(layout, cache);
      for i := 0 to |slots|
        invariant Valid() && Now() == old(Now()).(mem := Mem()) && Mem() == old(Mem()).(cache := cache)
        invariant live <= old(live) && forall s :: s in old(live) ==> (s in live <==> s !in slots[..i])
        invariant cache.Keys == old(cache).Keys && Trimmed(old(cache), cache, BytesOf(layout, old(live) - live))
        invariant Dead(layout, dead, old(live) - live, live) && KeepsLive(layout, old(Mem()), Mem(), live)
        invariant forall j :: 0 <= j < i ==> slots[j] < poolTokens
      {
        assert slots[..i + 1] == slots[..i] + [slots[i]];
        if slots[i] >= poolTokens {
          ok := false;
          return;
        }
        if slots[i] in live {
          ghost var m, before, gone := Mem(), live, old(live) - live;
          dead := ReleaseSlot(slots[i], dead, gone);
          KeepsTrans(layout, old(Mem()), m, Mem(), before, live);
          TrimmedMore(layout, old(cache), m.cache, cache, gone, slots[i]);
          assert old(live) - live == gone + {slots[i]};
        }
      }
      invalidated := dead * backed;
      DeadMeans(layout, dead, old(live) - live, live);
      ghost var trimmed := cache;
      DropDead(dead);
      TrimmedFewer(old(cache), trimmed, cache, BytesOf(layout, old(live) - live));
      SameSlotsOf(old(cache), trimmed, dead, BytesOf(layout, old(live) - live));
      backed := backed - dead;
      SlotsGone(old(cache), cache.Keys, dead);
      LeftOf(old(order), old(cache), cache, dead);
    }

    /** The entries of dead pages go, and their slots are free again. */
    method DropDead(dead: set<nat>)
      requires Valid() && forall page, s: nat :: page in dead && s in live ==> !Overlaps(layout, s, page)
      modifies this`cache, this`order, this`freeSlots
      ensures Valid() && KeepsLive(layout, old(Mem()), Mem(), live)
      ensures cache == old(cache) - dead
      ensures freeSlots == old(freeSlots) + SlotsOf(old(cache), dead) && order == Others(old(order), dead)
    {
      hide Partitioned, Ordered, In, Memory.Coherent, Memory.At, Overlaps, Scaled, Dropping, KeepsLive;
      var left := dead;
      KeepsAll(layout, Mem(), live);
      NothingDropped(Now());
      while left != {}
        invariant left <= dead && Valid() && KeepsLive(layout, old(Mem()), Mem(), live)
        invariant Dropping(old(Now()), Now(), dead - left)
        decreases |left|
      {
        var page :| page in left;
        ghost var before, done := Now(), dead - left;
        left := left - {page};
        assert dead - left == done + {page};
        DropPage(page, dead);
        DroppedMore(old(Now()), before, Now(), done, page);
        KeepsTrans(layout, old(Mem()), before.mem, Mem(), live, live);
      }
      assert dead - left == dead;
      DroppingMeans(old(Now()), Now(), dead);
    }

    method DropPage(page: nat, ghost dead: set<nat>)
      requires Valid() && page in dead && forall page, s: nat :: page in dead && s in live ==> !Overlaps(layout, s, page)
      modifies this`cache, this`order, this`freeSlots
      ensures Valid() && KeepsLive(layout, old(Mem()), Mem(), live) && cache == old(cache) - {page}
      ensures order == if page in old(cache) then Without(old(order), page) else old(order)
      ensures freeSlots == old(freeSlots) + if page in old(cache) then {old(cache)[page].slot} else {}
    {
      hide Partitioned, Ordered, In, Memory.Coherent, Memory.At, Overlaps;
      KeepsAll(layout, Mem(), live);
      if page in cache {
        KilledPage(Mem(), layout, order, freeSlots, nextSlot, capacity, page, live, dead);
        freeSlots := freeSlots + {cache[page].slot};
        cache := cache - {page};
        order := Without(order, page);
      }
    }
  }

  // ------------------------------------------------------------------- writes

  /** The bytes of the pieces handled so far hold the data, all others what they held. */
  ghost predicate Overwritten(before: Memory, now: Memory, layout: Layout, pieces: seq<Piece>, data: nat -> nat)
  {
    forall p: nat, x: nat :: x < layout.page ==>
      now.At(p, x) == (if Listed(pieces, p, x) then data(Scaled(p, layout.page) + x) else before.At(p, x))
  }

  /** What was seen of the pieces read so far is what the memory held at the start. */
  ghost predicate Seen(before: Memory, pieces: seq<Piece>, seen: (nat, nat) -> nat)
  {
    forall p: nat, x: nat :: Listed(pieces, p, x) ==> seen(p, x) == before.At(p, x)
  }

  /** One more piece, as its slot shows it. */
  ghost function Noted(seen: (nat, nat) -> nat, piece: Piece, hbm: (nat, nat) -> nat, slot: nat): (nat, nat) -> nat
  {
    (p: nat, x: nat) => if p == piece.page && piece.lo <= x < piece.hi then hbm(slot, x) else seen(p, x)
  }

  lemma SeenMore(before: Memory, m: Memory, pieces: seq<Piece>, i: nat, seen: (nat, nat) -> nat, hbm: (nat, nat) -> nat, slot: nat)
    requires i < |pieces| && Seen(before, pieces[..i], seen) && SameContents(before, m)
    requires forall x :: pieces[i].lo <= x < pieces[i].hi ==> hbm(slot, x) == m.At(pieces[i].page, x)
    ensures Seen(before, pieces[..i + 1], Noted(seen, pieces[i], hbm, slot))
  {
    hide Memory.At;
    var after := Noted(seen, pieces[i], hbm, slot);
    forall p: nat, x: nat | Listed(pieces[..i + 1], p, x) ensures after(p, x) == before.At(p, x) {
      if p == pieces[i].page && pieces[i].lo <= x < pieces[i].hi {
        assert after(p, x) == hbm(slot, x);
      } else {
        var k :| 0 <= k < i + 1 && pieces[..i + 1][k].page == p && pieces[..i + 1][k].lo <= x < pieces[..i + 1][k].hi;
        assert pieces[..i][k] == pieces[..i + 1][k];
        assert Listed(pieces[..i], p, x);
      }
    }
  }

  lemma NoPieces(m: Memory, layout: Layout, data: nat -> nat)
    ensures Overwritten(m, m, layout, [], data)
  {
  }

  ghost function Shifted(data: nat -> nat, base: nat): nat -> nat
  {
    (x: nat) => data(base + x)
  }

  lemma OverwrittenMore(before: Memory, m: Memory, now: Memory, layout: Layout, pieces: seq<Piece>, i: nat, data: nat -> nat)
    requires i < |pieces| && Overwritten(before, m, layout, pieces[..i], data)
    requires forall p: nat, x: nat ::
      now.At(p, x) == (if p == pieces[i].page && pieces[i].lo <= x < pieces[i].hi
                       then Shifted(data, Scaled(pieces[i].page, layout.page))(x) else m.At(p, x))
    ensures Overwritten(before, now, layout, pieces[..i + 1], data)
  {
    hide Memory.At, Scaled, Listed;
    assert pieces[..i + 1] == pieces[..i] + [pieces[i]];
    forall p: nat, x: nat | x < layout.page
      ensures now.At(p, x) == if Listed(pieces[..i + 1], p, x) then data(Scaled(p, layout.page) + x) else before.At(p, x)
    {
      ListedPush(pieces[..i], pieces[i], p, x);
    }
  }

  // ------------------------------------------------------------------ liveness

  /** Bytes of live slots keep their contents. */
  ghost predicate KeepsLive(layout: Layout, before: Memory, after: Memory, live: set<nat>)
  {
    forall s: nat, p: nat, x: nat :: s in live && OwnsAt(layout, s, p, x) ==> after.At(p, x) == before.At(p, x)
  }

  lemma KeepsAll(layout: Layout, m: Memory, live: set<nat>)
    ensures KeepsLive(layout, m, m, live)
  {
  }

  lemma KeepsTrans(layout: Layout, a: Memory, b: Memory, c: Memory, before: set<nat>, after: set<nat>)
    requires KeepsLive(layout, a, b, before) && KeepsLive(layout, b, c, after) && after <= before
    ensures KeepsLive(layout, a, c, after)
  {
  }

  /** A page whose last live slot is among those that went. */
  ghost predicate Doomed(layout: Layout, page: nat, gone: set<nat>, live: set<nat>)
  {
    (exists s: nat :: s in gone && Overlaps(layout, s, page)) && forall s: nat :: s in live ==> !Overlaps(layout, s, page)
  }

  ghost predicate Dead(layout: Layout, dead: set<nat>, gone: set<nat>, live: set<nat>)
  {
    forall page: nat :: page in dead <==> Doomed(layout, page, gone, live)
  }

  lemma NoneDead(layout: Layout, live: set<nat>)
    ensures Dead(layout, {}, live - live, live)
  {
  }

  lemma DeadMeans(layout: Layout, dead: set<nat>, gone: set<nat>, live: set<nat>)
    requires Dead(layout, dead, gone, live)
    ensures forall page: nat :: page in dead <==> Doomed(layout, page, gone, live)
    ensures forall page, s: nat :: page in dead && s in live ==> !Overlaps(layout, s, page)
  {
    hide Overlaps;
  }

  /** Of the first i pieces of the slot the pages without a live slot have been added, and no others. */
  ghost predicate Judging(layout: Layout, dying: set<nat>, dead: set<nat>, live: set<nat>, slot: nat, pieces: seq<Piece>, i: nat)
  {
    && i <= |pieces| && dying <= dead && (forall page, s: nat :: page in dead && s in live ==> !Overlaps(layout, s, page))
    && (forall page :: page in dead && page !in dying ==> Overlaps(layout, slot, page))
    && forall j :: 0 <= j < i ==> Judged(layout, pieces[j].page, dead, live)
  }

  /** The page is dead, or some live slot keeps part of it. */
  ghost predicate Judged(layout: Layout, page: nat, dead: set<nat>, live: set<nat>)
  {
    page in dead || exists s: nat :: s in live && Overlaps(layout, s, page)
  }

  lemma NoneJudged(layout: Layout, dying: set<nat>, gone: set<nat>, live: set<nat>, slot: nat, pieces: seq<Piece>)
    requires Dead(layout, dying, gone, live)
    ensures Judging(layout, dying, dying, live - {slot}, slot, pieces, 0)
  {
    DeadMeans(layout, dying, gone, live);
  }

  lemma JudgedMore(layout: Layout, dying: set<nat>, before: set<nat>, dead: set<nat>, live: set<nat>, slot: nat, pieces: seq<Piece>,
                   i: nat, alive: bool)
    requires Judging(layout, dying, before, live, slot, pieces, i) && i < |pieces| && Overlaps(layout, slot, pieces[i].page)
    requires alive <==> exists s: nat :: s in live && Overlaps(layout, s, pieces[i].page)
    requires dead == if alive then before else before + {pieces[i].page}
    ensures Judging(layout, dying, dead, live, slot, pieces, i + 1)
  {
    hide Overlaps;
    forall j | 0 <= j < i + 1 ensures Judged(layout, pieces[j].page, dead, live) {
      assert j < i ==> Judged(layout, pieces[j].page, before, live);
    }
  }

  /** Slots share no byte. */
  lemma OneOwner(layout: Layout, a: nat, b: nat, p: nat, x: nat)
    requires layout.Valid() && OwnsAt(layout, a, p, x) && OwnsAt(layout, b, p, x)
    ensures a == b
  {
    hide Scaled, AlignUp;
    var byte := Scaled(p, layout.page) + x;
    var j :| 0 <= j < |layout.arenas| && InArena(layout.arenas[j], layout.slotBytes, a, byte);
    var k :| 0 <= k < |layout.arenas| && InArena(layout.arenas[k], layout.slotBytes, b, byte);
    OneArena(layout, j, k, byte);
    SamePage(a - layout.arenas[j].first, b - layout.arenas[j].first, layout.slotBytes);
  }

  lemma OneArena(layout: Layout, j: nat, k: nat, byte: nat)
    requires layout.Valid() && j < |layout.arenas| && k < |layout.arenas|
    requires layout.arenas[j].address <= byte < layout.arenas[j].address + layout.arenas[j].size
    requires layout.arenas[k].address <= byte < layout.arenas[k].address + layout.arenas[k].size
    ensures j == k
  {
    hide AlignUp;
    AlignUpIs(layout.arenas[j].address + layout.arenas[j].size, layout.page);
    AlignUpIs(layout.arenas[k].address + layout.arenas[k].size, layout.page);
  }

  lemma PieceOwned(layout: Layout, slot: nat, pieces: seq<Piece>, i: nat)
    requires i < |pieces| && pieces[i].lo < pieces[i].hi
    requires forall p: nat, x: nat :: Listed(pieces, p, x) <==> OwnsAt(layout, slot, p, x)
    ensures Overlaps(layout, slot, pieces[i].page)
    ensures forall x: nat :: pieces[i].lo <= x < pieces[i].hi ==> OwnsAt(layout, slot, pieces[i].page, x)
  {
    forall x: nat | pieces[i].lo <= x < pieces[i].hi ensures OwnsAt(layout, slot, pieces[i].page, x) {
      assert Listed(pieces, pieces[i].page, x);
    }
    assert OwnsAt(layout, slot, pieces[i].page, pieces[i].lo);
  }

  /** Forgetting a piece of one slot keeps the bytes of all others. */
  lemma ForgetKeeps(layout: Layout, before: Memory, m: Memory, now: Memory, slot: nat, live: set<nat>, piece: Piece, pieces: seq<Piece>)
    requires layout.Valid() && slot !in live && KeepsLive(layout, before, m, live)
    requires forall x: nat :: piece.lo <= x < piece.hi ==> OwnsAt(layout, slot, piece.page, x)
    requires forall p: nat, x: nat :: now.At(p, x) == m.At(p, x) || (p == piece.page && piece.lo <= x < piece.hi)
    ensures KeepsLive(layout, before, now, live)
  {
    hide Memory.At, OwnsAt;
    forall s: nat, p: nat, x: nat | s in live && OwnsAt(layout, s, p, x) ensures now.At(p, x) == before.At(p, x) {
      if p == piece.page && piece.lo <= x < piece.hi {
        OneOwner(layout, s, slot, p, x);
      }
    }
  }

  /** With all pieces judged, exactly the doomed pages are dead. */
  lemma AllJudged(layout: Layout, dying: set<nat>, dead: set<nat>, gone: set<nat>, live: set<nat>, slot: nat, pieces: seq<Piece>)
    requires Dead(layout, dying, gone, live) && Judging(layout, dying, dead, live - {slot}, slot, pieces, |pieces|)
    requires forall p: nat, x: nat :: Listed(pieces, p, x) <==> OwnsAt(layout, slot, p, x)
    ensures Dead(layout, dead, gone + {slot}, live - {slot})
  {
    forall page: nat ensures page in dead <==> Doomed(layout, page, gone + {slot}, live - {slot}) {
      OneJudged(layout, dying, dead, gone, live, slot, pieces, page);
    }
  }

  lemma OneJudged(layout: Layout, dying: set<nat>, dead: set<nat>, gone: set<nat>, live: set<nat>, slot: nat, pieces: seq<Piece>, page: nat)
    requires Dead(layout, dying, gone, live) && Judging(layout, dying, dead, live - {slot}, slot, pieces, |pieces|)
    requires forall p: nat, x: nat :: Listed(pieces, p, x) <==> OwnsAt(layout, slot, p, x)
    ensures page in dead <==> Doomed(layout, page, gone + {slot}, live - {slot})
  {
    assert page in dying <==> Doomed(layout, page, gone, live);
    if Overlaps(layout, slot, page) {
      PieceThere(layout, slot, pieces, page);
      hide Overlaps;
      assert slot in gone + {slot};
      var j :| 0 <= j < |pieces| && pieces[j].page == page;
      assert Judged(layout, pieces[j].page, dead, live - {slot});
    } else {
      hide Overlaps;
      if Doomed(layout, page, gone, live) {
        var s: nat :| s in gone && Overlaps(layout, s, page);
        assert s in gone + {slot};
      }
      if Doomed(layout, page, gone + {slot}, live - {slot}) {
        var s: nat :| s in gone + {slot} && Overlaps(layout, s, page);
        assert s in gone;
        assert Doomed(layout, page, gone, live);
      }
    }
  }

  lemma PieceThere(layout: Layout, slot: nat, pieces: seq<Piece>, page: nat)
    requires forall p: nat, x: nat :: Listed(pieces, p, x) <==> OwnsAt(layout, slot, p, x)
    requires Overlaps(layout, slot, page)
    ensures exists j :: 0 <= j < |pieces| && pieces[j].page == page
  {
    hide OwnsAt;
    var x: nat :| OwnsAt(layout, slot, page, x);
    assert Listed(pieces, page, x);
    var j :| 0 <= j < |pieces| && pieces[j].page == page && pieces[j].lo <= x < pieces[j].hi;
  }

  // ------------------------------------------------------------ forgotten bytes

  /** Exactly the bytes that are cut are no longer valid or dirty, in the entries that are left. */
  ghost predicate Trimmed(before: map<nat, CachePage>, after: map<nat, CachePage>, cut: (nat, nat) -> bool)
  {
    && after.Keys <= before.Keys
    && forall p :: p in after ==>
         && after[p].slot == before[p].slot
         && Less(before[p].valid, after[p].valid, p, cut) && Less(before[p].dirty, after[p].dirty, p, cut)
  }

  ghost predicate Less(before: seq<Interval>, after: seq<Interval>, p: nat, cut: (nat, nat) -> bool)
  {
    forall x: nat :: In(after, x) <==> In(before, x) && !cut(p, x)
  }

  ghost function PieceBytes(piece: Piece): (nat, nat) -> bool
  {
    (p: nat, x: nat) => p == piece.page && piece.lo <= x < piece.hi
  }

  ghost function BytesIn(pieces: seq<Piece>): (nat, nat) -> bool
  {
    (p: nat, x: nat) => Listed(pieces, p, x)
  }

  /** The bytes of some slots. */
  ghost function BytesOf(layout: Layout, slots: set<nat>): (nat, nat) -> bool
  {
    (p: nat, x: nat) => exists s: nat :: s in slots && OwnsAt(layout, s, p, x)
  }

  lemma NoTrim(cache: map<nat, CachePage>, cut: (nat, nat) -> bool, page: nat)
    requires forall p: nat, x: nat :: cut(p, x) ==> p == page
    ensures page !in cache ==> Trimmed(cache, cache, cut)
  {
    hide In;
  }

  lemma OneTrimmed(cache: map<nat, CachePage>, page: nat, lo: nat, hi: nat, valid: seq<Interval>, dirty: seq<Interval>)
    requires page in cache
    requires forall x: nat :: In(valid, x) <==> In(cache[page].valid, x) && !(lo <= x < hi)
    requires forall x: nat :: In(dirty, x) <==> In(cache[page].dirty, x) && !(lo <= x < hi)
    ensures Trimmed(cache, cache[page := cache[page].(valid := valid, dirty := dirty)], PieceBytes(Piece(page, lo, hi)))
  {
    hide In;
  }

  /** One cut after the other. */
  lemma TrimmedTwice(a: map<nat, CachePage>, b: map<nat, CachePage>, c: map<nat, CachePage>, first: (nat, nat) -> bool,
                     second: (nat, nat) -> bool, both: (nat, nat) -> bool)
    requires Trimmed(a, b, first) && Trimmed(b, c, second)
    requires forall p: nat, x: nat :: both(p, x) <==> first(p, x) || second(p, x)
    ensures Trimmed(a, c, both)
  {
    hide In;
  }

  lemma TrimmedNone(cache: map<nat, CachePage>, pieces: seq<Piece>)
    ensures Trimmed(cache, cache, BytesIn(pieces[..0]))
  {
    hide In;
  }

  lemma TrimmedPiece(a: map<nat, CachePage>, b: map<nat, CachePage>, c: map<nat, CachePage>, pieces: seq<Piece>, i: nat)
    requires i < |pieces| && Trimmed(a, b, BytesIn(pieces[..i])) && Trimmed(b, c, PieceBytes(Piece(pieces[i].page, pieces[i].lo, pieces[i].hi)))
    ensures Trimmed(a, c, BytesIn(pieces[..i + 1]))
  {
    hide Trimmed, Listed;
    assert pieces[..i + 1] == pieces[..i] + [pieces[i]];
    forall p: nat, x: nat
      ensures BytesIn(pieces[..i + 1])(p, x) <==> BytesIn(pieces[..i])(p, x) || PieceBytes(pieces[i])(p, x)
    {
      ListedPush(pieces[..i], pieces[i], p, x);
    }
    TrimmedTwice(a, b, c, BytesIn(pieces[..i]), PieceBytes(pieces[i]), BytesIn(pieces[..i + 1]));
  }

  lemma TrimmedAs(a: map<nat, CachePage>, b: map<nat, CachePage>, cut: (nat, nat) -> bool, same: (nat, nat) -> bool)
    requires Trimmed(a, b, cut) && forall p: nat, x: nat :: same(p, x) <==> cut(p, x)
    ensures Trimmed(a, b, same)
  {
    hide In;
  }

  lemma TrimmedSlot(layout: Layout, a: map<nat, CachePage>, b: map<nat, CachePage>, slot: nat, pieces: seq<Piece>)
    requires Trimmed(a, b, BytesIn(pieces[..|pieces|]))
    requires forall p: nat, x: nat :: Listed(pieces, p, x) <==> OwnsAt(layout, slot, p, x)
    ensures Trimmed(a, b, BytesOf(layout, {slot}))
  {
    hide Trimmed, Listed, OwnsAt;
    assert pieces[..|pieces|] == pieces;
    TrimmedAs(a, b, BytesIn(pieces), BytesOf(layout, {slot}));
  }

  lemma TrimmedAll(layout: Layout, cache: map<nat, CachePage>)
    ensures forall live: set<nat> :: Trimmed(cache, cache, BytesOf(layout, live - live))
  {
    hide In;
  }

  lemma TrimmedMore(layout: Layout, a: map<nat, CachePage>, b: map<nat, CachePage>, c: map<nat, CachePage>, gone: set<nat>, slot: nat)
    requires Trimmed(a, b, BytesOf(layout, gone)) && Trimmed(b, c, BytesOf(layout, {slot}))
    ensures Trimmed(a, c, BytesOf(layout, gone + {slot}))
  {
    hide Trimmed, OwnsAt;
    TrimmedTwice(a, b, c, BytesOf(layout, gone), BytesOf(layout, {slot}), BytesOf(layout, gone + {slot}));
  }

  lemma TrimmedFewer(a: map<nat, CachePage>, b: map<nat, CachePage>, c: map<nat, CachePage>, cut: (nat, nat) -> bool)
    requires Trimmed(a, b, cut) && c.Keys <= b.Keys && forall p :: p in c ==> c[p] == b[p]
    ensures Trimmed(a, c, cut)
  {
  }

  // ------------------------------------------------------------- dropped pages

  /** The slots of some cached pages. */
  ghost function SlotsOf(cache: map<nat, CachePage>, pages: set<nat>): set<nat>
  {
    set p | p in cache && p in pages :: cache[p].slot
  }

  /** These pages, and no others, have been dropped. */
  ghost predicate Dropping(a: Held, b: Held, done: set<nat>)
  {
    && Ordered(a.order, a.mem.cache) && b.mem.cache == a.mem.cache - done
    && b.free == a.free + SlotsOf(a.mem.cache, done) && b.order == Others(a.order, done)
  }

  lemma NothingDropped(a: Held)
    requires Ordered(a.order, a.mem.cache)
    ensures forall pages: set<nat> :: Dropping(a, a, pages - pages)
  {
    hide Ordered;
    NoOthers(a.order);
  }

  lemma DroppedMore(a: Held, b: Held, c: Held, done: set<nat>, page: nat)
    requires Dropping(a, b, done) && c.mem.cache == b.mem.cache - {page}
    requires c.order == if page in b.mem.cache then Without(b.order, page) else b.order
    requires c.free == b.free + if page in b.mem.cache then {b.mem.cache[page].slot} else {}
    ensures Dropping(a, c, done + {page})
  {
    OthersMore(a.order, a.mem.cache, done, page);
    SlotsMore(a.mem.cache, done, page);
    hide Ordered, Others, SlotsOf, Without;
    if page in done && page in a.mem.cache {
      SlotIn(a.mem.cache, done, page);
    }
  }

  lemma SlotIn(cache: map<nat, CachePage>, pages: set<nat>, page: nat)
    requires page in cache && page in pages
    ensures cache[page].slot in SlotsOf(cache, pages)
  {
  }

  lemma DroppingMeans(a: Held, b: Held, done: set<nat>)
    requires Dropping(a, b, done)
    ensures b.mem.cache == a.mem.cache - done && b.free == a.free + SlotsOf(a.mem.cache, done) && b.order == Others(a.order, done)
  {
  }

  lemma SlotsMore(cache: map<nat, CachePage>, pages: set<nat>, page: nat)
    ensures SlotsOf(cache, pages + {page}) == SlotsOf(cache, pages) + (if page in cache then {cache[page].slot} else {})
  {
  }

  lemma SameSlotsOf(before: map<nat, CachePage>, after: map<nat, CachePage>, pages: set<nat>, cut: (nat, nat) -> bool)
    requires Trimmed(before, after, cut) && after.Keys == before.Keys
    ensures SlotsOf(after, pages) == SlotsOf(before, pages)
  {
    hide In;
    assert forall p :: p in before ==> after[p].slot == before[p].slot;
  }

  lemma SlotsGone(cache: map<nat, CachePage>, left: set<nat>, dead: set<nat>)
    requires left == cache.Keys - dead
    ensures SlotsOf(cache, dead) == SlotsOf(cache, cache.Keys - left)
  {
    assert forall p :: p in cache && p in dead <==> p in cache && p in cache.Keys - left;
  }

  /** The pages of the order that are not listed, in their order. */
  ghost function Others(order: seq<nat>, pages: set<nat>): seq<nat>
  {
    if order == [] then [] else (if order[0] in pages then [] else [order[0]]) + Others(order[1..], pages)
  }

  /** The pages of the order that are listed, in their order. */
  ghost function Left(order: seq<nat>, pages: set<nat>): seq<nat>
  {
    if order == [] then [] else (if order[0] in pages then [order[0]] else []) + Left(order[1..], pages)
  }

  lemma {:induction false} NoOthers(order: seq<nat>)
    ensures forall pages: set<nat> :: Others(order, pages - pages) == order
  {
    if order != [] {
      NoOthers(order[1..]);
      assert order == [order[0]] + order[1..];
    }
  }

  lemma {:induction false} OthersLeft(order: seq<nat>, pages: set<nat>, left: set<nat>)
    requires forall p :: p in order ==> (p in left <==> p !in pages)
    ensures Others(order, pages) == Left(order, left)
  {
    if order != [] {
      assert forall p :: p in order[1..] ==> p in order;
      OthersLeft(order[1..], pages, left);
    }
  }

  lemma LeftOf(order: seq<nat>, before: map<nat, CachePage>, after: map<nat, CachePage>, dead: set<nat>)
    requires Ordered(order, before) && after.Keys == before.Keys - dead
    ensures Others(order, dead) == Left(order, after.Keys)
  {
    OthersLeft(order, dead, after.Keys);
  }

  lemma OthersMore(order: seq<nat>, cache: map<nat, CachePage>, done: set<nat>, page: nat)
    requires Ordered(order, cache)
    ensures Others(order, done + {page}) == if page in cache && page !in done then Without(Others(order, done), page) else Others(order, done)
  {
    OthersWithout(order, done, page);
  }

  lemma {:induction false} OthersWithout(order: seq<nat>, done: set<nat>, page: nat)
    requires forall i, j :: 0 <= i < j < |order| ==> order[i] != order[j]
    ensures Others(order, done + {page}) == if page in order && page !in done then Without(Others(order, done), page) else Others(order, done)
  {
    if order != [] {
      OthersWithout(order[1..], done, page);
      var first, rest, others := order[0], order[1..], Others(order[1..], done);
      WithoutFirst(first, others, page);
      assert page in order <==> page == first || page in rest;
      assert page == first ==> page !in rest;
      assert first in done + {page} <==> first in done || first == page;
      assert [] + others == others && [] + Others(rest, done + {page}) == Others(rest, done + {page});
    }
  }

  lemma WithoutFirst(first: nat, others: seq<nat>, page: nat)
    ensures Without([first] + others, page) == if first == page then others else [first] + Without(others, page)
  {
    assert ([first] + others)[1..] == others;
  }

  /** A page that a slot overlaps lies in an arena. */
  lemma ArenaThere(layout: Layout, page: nat)
    requires layout.Valid() && exists slot: nat :: Overlaps(layout, slot, page)
    ensures exists k :: 0 <= k < |layout.arenas| && Touches(layout, layout.arenas[k], page)
  {
    hide Scaled;
    var slot: nat :| Overlaps(layout, slot, page);
    var x: nat :| OwnsAt(layout, slot, page, x);
    var k :| 0 <= k < |layout.arenas| && InArena(layout.arenas[k], layout.slotBytes, slot, Scaled(page, layout.page) + x);
    TouchesFromBelow(layout, k, page);
    assert Touches(layout, layout.arenas[k], page);
  }

  /** Dropping the entry of a dead page takes nothing from a live slot. */
  lemma KilledPage(m: Memory, layout: Layout, order: seq<nat>, free: set<nat>, next: nat, capacity: nat, page: nat, live: set<nat>, dead: set<nat>)
    requires m.Coherent(layout.page) && Partitioned(m.cache, free, next, capacity) && Ordered(order, m.cache) && page in m.cache
    requires (forall p, s: nat :: p in dead && s in live ==> !Overlaps(layout, s, p)) && page in dead
    ensures var after := m.(cache := m.cache - {page});
      && after.Coherent(layout.page) && KeepsLive(layout, m, after, live)
      && Partitioned(after.cache, free + {m.cache[page].slot}, next, capacity) && Ordered(Without(order, page), after.cache)
  {
    hide OwnsAt;
    EvictedSlots(m, free, next, capacity, page, layout.page);
    WithoutIs(order, page);
    var after := m.(cache := m.cache - {page});
    forall s: nat, p: nat, x: nat | s in live && OwnsAt(layout, s, p, x) ensures after.At(p, x) == m.At(p, x) {
      assert Overlaps(layout, s, p);
    }
  }

  /** A slot that is taken out of the free ones and not used yet. */
  ghost predicate Spare(cache: map<nat, CachePage>, free: set<nat>, next: nat, capacity: nat, slot: nat)
  {
    && slot < next && slot !in free && (forall p :: p in cache ==> cache[p].slot != slot)
    && Partitioned(cache, free + {slot}, next, capacity)
  }

  function Without(s: seq<nat>, page: nat): (rest: seq<nat>)
  {
    if s == [] then [] else if s[0] == page then s[1..] else [s[0]] + Without(s[1..], page)
  }

  lemma {:induction false} WithoutIs(s: seq<nat>, page: nat)
    requires forall i, j :: 0 <= i < j < |s| ==> s[i] != s[j]
    ensures forall p :: p in Without(s, page) <==> p in s && p != page
    ensures forall i, j :: 0 <= i < j < |Without(s, page)| ==> Without(s, page)[i] != Without(s, page)[j]
  {
    if s != [] {
      WithoutIs(s[1..], page);
      if s[0] == page {
        assert forall p :: p in s[1..] ==> p != page;
      } else {
        forall k | 0 <= k < |Without(s[1..], page)| ensures Without(s[1..], page)[k] != s[0] {
          assert Without(s[1..], page)[k] in s[1..];
        }
      }
    }
  }

  lemma Reordered(order: seq<nat>, cache: map<nat, CachePage>, page: nat)
    requires Ordered(order, cache) && page in cache
    ensures Ordered(Without(order, page) + [page], cache)
  {
    WithoutIs(order, page);
    var longer := Without(order, page) + [page];
    assert forall k :: 0 <= k < |Without(order, page)| ==> Without(order, page)[k] in Without(order, page);
  }

  method LeastOf(slots: set<nat>) returns (slot: nat)
    requires slots != {}
    ensures slot in slots && forall s :: s in slots ==> slot <= s
  {
    LeastExists(slots);
    slot :| slot in slots && forall s :: s in slots ==> slot <= s;
  }

  lemma {:induction false} LeastExists(slots: set<nat>)
    requires slots != {}
    ensures exists slot :: slot in slots && forall s :: s in slots ==> slot <= s
  {
    var least := LeastIn(slots);
  }

  lemma {:induction false} LeastIn(slots: set<nat>) returns (least: nat)
    requires slots != {}
    ensures least in slots && forall s :: s in slots ==> least <= s
    decreases |slots|
  {
    var some :| some in slots;
    var rest := slots - {some};
    least := some;
    if rest != {} {
      var other := LeastIn(rest);
      least := if other < some then other else some;
    }
    forall s | s in slots ensures least <= s {
      assert s == some || s in rest;
    }
  }

  lemma NeverUsed(cache: map<nat, CachePage>, free: set<nat>, next: nat, capacity: nat)
    requires Partitioned(cache, free, next, capacity) && next < capacity
    ensures Spare(cache, free, next + 1, capacity, next)
  {
  }

  lemma AddedPage(m: Memory, order: seq<nat>, free: set<nat>, next: nat, capacity: nat, page: nat, slot: nat, pageSize: nat)
    requires m.Coherent(pageSize) && Ordered(order, m.cache) && Spare(m.cache, free, next, capacity, slot) && page !in m.cache
    ensures var after := m.(cache := m.cache[page := CachePage(slot, [], [])]);
      && after.Coherent(pageSize) && SameContents(m, after)
      && Partitioned(after.cache, free, next, capacity) && Ordered(order + [page], after.cache)
  {
    hide Memory.Coherent, SameContents;
    Added(m, page, slot, pageSize);
    var after := m.cache[page := CachePage(slot, [], [])];
    forall s: nat | s < next && s !in free ensures exists p :: p in after && after[p].slot == s {
      if s == slot {
        assert page in after && after[page].slot == s;
      } else {
        var p :| p in m.cache && m.cache[p].slot == s;
        assert p in after && after[p].slot == s;
      }
    }
  }

  lemma SomeOldest(order: seq<nat>, cache: map<nat, CachePage>, free: set<nat>, next: nat, capacity: nat)
    requires Partitioned(cache, free, next, capacity) && Ordered(order, cache) && free == {} && next == capacity > 0
    ensures order != [] && order[0] in cache
  {
    assert 0 < next && 0 !in free;
    var p :| p in cache && cache[p].slot == 0;
    assert p in order && order[0] in order;
  }

  lemma EvictedPage(m: Memory, order: seq<nat>, free: set<nat>, next: nat, capacity: nat, pageSize: nat)
    requires m.Coherent(pageSize) && Partitioned(m.cache, free, next, capacity) && Ordered(order, m.cache)
    requires order != [] && order[0] in m.cache && m.cache[order[0]].dirty == []
    ensures var after := m.(cache := m.cache - {order[0]});
      && after.Coherent(pageSize) && SameContents(m, after) && Ordered(order[1..], after.cache)
      && Spare(after.cache, free, next, capacity, m.cache[order[0]].slot)
  {
    var oldest := order[0];
    Dropped(m, oldest, pageSize);
    EvictedSlots(m, free, next, capacity, oldest, pageSize);
    hide Memory.Coherent, SameContents, Partitioned;
    EvictedOrder(order, m.cache);
  }

  lemma EvictedOrder(order: seq<nat>, cache: map<nat, CachePage>)
    requires Ordered(order, cache) && order != []
    ensures Ordered(order[1..], cache - {order[0]})
  {
    var rest := order[1..];
    assert forall k :: 0 <= k < |rest| ==> rest[k] == order[k + 1];
    assert forall p :: p in order <==> p == order[0] || p in rest;
  }

  lemma EvictedSlots(m: Memory, free: set<nat>, next: nat, capacity: nat, page: nat, pageSize: nat)
    requires m.Coherent(pageSize) && Partitioned(m.cache, free, next, capacity) && page in m.cache
    ensures Spare(m.cache - {page}, free, next, capacity, m.cache[page].slot)
  {
    var after, slot := m.cache - {page}, m.cache[page].slot;
    forall s: nat | s < next && s !in free + {slot} ensures exists p :: p in after && after[p].slot == s {
      var p :| p in m.cache && m.cache[p].slot == s;
      assert p in after && after[p].slot == s;
    }
  }

  // -------------------------------------------------------------------- reads

  /** The gaps handled so far are filled. */
  ghost predicate FilledIn(m: Memory, now: Memory, page: nat, done: seq<Interval>)
    requires page in m.cache
  {
    && now.cache == m.cache && now.backing == m.backing
    && forall s: nat, x: nat :: now.hbm(s, x) == if s == m.cache[page].slot && In(done, x) then m.backing(page, x) else m.hbm(s, x)
  }

  lemma FilledSame(m: Memory, now: Memory, page: nat, done: seq<Interval>)
    requires page in m.cache && FilledIn(m, now, page, done)
    ensures now.cache == m.cache && now.backing == m.backing
  {
  }

  lemma NoGaps(m: Memory, page: nat, gaps: seq<Interval>)
    requires page in m.cache
    ensures FilledIn(m, m, page, gaps[..0])
  {
    Nothing();
    assert gaps[..0] == [];
  }

  lemma FillMore(m: Memory, now: Memory, page: nat, gaps: seq<Interval>, i: nat, lo: nat, hi: nat, pageSize: nat)
    requires m.Coherent(pageSize) && now.Coherent(pageSize) && SameContents(m, now) && page in m.cache && i < |gaps|
    requires forall x: nat :: In(gaps, x) <==> lo <= x < hi && !In(m.cache[page].valid, x)
    requires FilledIn(m, now, page, gaps[..i])
    ensures var g := gaps[i];
      var next := now.(hbm := Stored(now.hbm, m.cache[page].slot, g.lo, g.hi, Row(now.backing, page)));
      next.Coherent(pageSize) && SameContents(m, next) && FilledIn(m, next, page, gaps[..i + 1])
  {
    var g := gaps[i];
    forall x: nat | g.lo <= x < g.hi ensures !In(m.cache[page].valid, x) {
      assert gaps[i].Has(x);
      assert In(gaps, x);
    }
    Filled(now, page, g.lo, g.hi, pageSize);
    assert gaps[..i + 1] == gaps[..i] + [g];
    InAll(gaps[..i], [g]);
    SingleMeans(g);
  }

  lemma Extended(before: seq<Interval>, after: seq<Interval>, lo: nat, hi: nat)
    requires forall x: nat :: In(after, x) <==> In(before + [Interval(lo, hi)], x)
    ensures forall x: nat :: In(after, x) <==> In(before, x) || lo <= x < hi
  {
    InAll(before, [Interval(lo, hi)]);
    SingleMeans(Interval(lo, hi));
  }

  /** What filling the gaps puts into the slot. */
  lemma FilledExactly(m: Memory, filled: Memory, page: nat, gaps: seq<Interval>, lo: nat, hi: nat)
    requires page in m.cache && FilledIn(m, filled, page, gaps)
    requires forall x: nat :: In(gaps, x) <==> lo <= x < hi && !In(m.cache[page].valid, x)
    ensures forall s: nat, x: nat ::
      filled.hbm(s, x) == if s == m.cache[page].slot && lo <= x < hi && !In(m.cache[page].valid, x) then m.backing(page, x) else m.hbm(s, x)
  {
  }

  /** The filled gaps and the longer valid range make one step. */
  lemma FillsNow(entered: Held, filled: Memory, page: nat, gaps: seq<Interval>, lo: nat, hi: nat, valid: seq<Interval>)
    requires page in entered.mem.cache && FilledIn(entered.mem, filled, page, gaps)
    requires forall x: nat :: In(gaps, x) <==> lo <= x < hi && !In(entered.mem.cache[page].valid, x)
    requires forall x: nat :: In(valid, x) <==> In(entered.mem.cache[page].valid + [Interval(lo, hi)], x)
    ensures Fills(entered, entered.(mem := filled.(cache := filled.cache[page := filled.cache[page].(valid := valid)])), page, lo, hi)
  {
    hide In;
    FilledExactly(entered.mem, filled, page, gaps, lo, hi);
    Extended(entered.mem.cache[page].valid, valid, lo, hi);
  }

  /** The first i pages of the order have been dealt with. */
  ghost predicate Flushing(trail: seq<Held>, a: Held, b: Held, i: nat, flushed: nat)
  {
    && i <= |a.order| && Chained(trail, a, b, i) && FlushSteps(trail, a.order)
    && flushed == DirtyAmong(a.order[..i], a.mem.cache) && b.mem.cache.Keys == a.mem.cache.Keys && b.order == a.order
    && (forall k :: 0 <= k < |a.order| ==> a.order[k] in a.mem.cache)
    && (forall k, l :: 0 <= k < l < |a.order| ==> a.order[k] != a.order[l])
    && forall k :: i <= k < |a.order| ==> b.mem.cache[a.order[k]] == a.mem.cache[a.order[k]]
  }

  lemma NothingFlushed(a: Held)
    requires Ordered(a.order, a.mem.cache)
    ensures Flushing([a], a, a, 0, 0)
  {
    assert forall k :: 0 <= k < |a.order| ==> a.order[k] in a.order;
  }

  lemma FlushingMeans(trail: seq<Held>, a: Held, b: Held, i: nat, flushed: nat)
    requires Flushing(trail, a, b, i, flushed)
    ensures i <= |a.order| && Chained(trail, a, b, i) && FlushSteps(trail, a.order) && b.order == a.order
    ensures flushed == DirtyAmong(a.order[..i], a.mem.cache)
  {
  }

  lemma FlushMore(trail: seq<Held>, a: Held, b: Held, c: Held, i: nat, flushed: nat, wrote: nat)
    requires Flushing(trail, a, b, i, flushed) && i < |a.order| && Cleans(b, c, a.order[i])
    requires wrote == if b.mem.cache[a.order[i]].dirty != [] then 1 else 0
    ensures Flushing(trail + [c], a, c, i + 1, flushed + wrote)
  {
    CleansOne(b, c, a.order[i]);
    hide Cleans;
    assert a.order[..i + 1][..i] == a.order[..i];
    assert trail[i] == b;
  }

  lemma CleansOne(a: Held, b: Held, page: nat)
    requires Cleans(a, b, page)
    ensures b.order == a.order && page in a.mem.cache
    ensures b.mem.cache.Keys == a.mem.cache.Keys && forall p :: p in a.mem.cache && p != page ==> b.mem.cache[p] == a.mem.cache[p]
  {
  }

  /** A clean page needs no writing back. */
  lemma NothingToClean(a: Held, page: nat)
    requires page in a.mem.cache && a.mem.cache[page].dirty == []
    ensures Cleans(a, a, page)
  {
    Nothing();
    assert a.mem.cache[page := a.mem.cache[page].(dirty := [])] == a.mem.cache;
  }

  lemma ReadDone(m: Memory, filled: Memory, page: nat, gaps: seq<Interval>, lo: nat, hi: nat, valid: seq<Interval>, pageSize: nat)
    requires m.Coherent(pageSize) && filled.Coherent(pageSize) && page in m.cache && hi <= pageSize
    requires forall x: nat :: In(gaps, x) <==> lo <= x < hi && !In(m.cache[page].valid, x)
    requires FilledIn(m, filled, page, gaps)
    requires forall x: nat :: In(valid, x) <==> In(m.cache[page].valid + [Interval(lo, hi)], x)
    ensures var after := filled.(cache := filled.cache[page := filled.cache[page].(valid := valid)]);
      && after.Coherent(pageSize) && SameContents(filled, after)
      && forall x :: lo <= x < hi ==> In(valid, x)
  {
    Extended(m.cache[page].valid, valid, lo, hi);
    Validated(filled, page, lo, hi, valid, pageSize);
  }

  lemma ReadShows(before: Memory, after: Memory, page: nat, lo: nat, hi: nat)
    requires SameContents(before, after) && page in after.cache && forall x :: lo <= x < hi ==> In(after.cache[page].valid, x)
    ensures forall x :: lo <= x < hi ==> after.hbm(after.cache[page].slot, x) == before.At(page, x)
  {
    forall x | lo <= x < hi ensures after.hbm(after.cache[page].slot, x) == before.At(page, x) {
      assert after.At(page, x) == before.At(page, x);
    }
  }

  /** The intervals handled so far are in the backing. */
  ghost predicate BackedUp(m: Memory, now: Memory, page: nat, done: seq<Interval>)
    requires page in m.cache
  {
    && now.cache == m.cache && now.hbm == m.hbm
    && forall p: nat, x: nat ::
         now.backing(p, x) == if p == page && In(done, x) then m.hbm(m.cache[page].slot, x) else m.backing(p, x)
  }

  lemma NoneBackedUp(m: Memory, page: nat)
    requires page in m.cache
    ensures BackedUp(m, m, page, m.cache[page].dirty[..0])
  {
    Nothing();
    assert m.cache[page].dirty[..0] == [];
  }

  lemma AllSame(m: Memory)
    ensures SameContents(m, m)
  {
  }

  lemma BackUpMore(m: Memory, now: Memory, page: nat, i: nat, pageSize: nat)
    requires m.Coherent(pageSize) && now.Coherent(pageSize) && SameContents(m, now) && page in m.cache && i < |m.cache[page].dirty|
    requires BackedUp(m, now, page, m.cache[page].dirty[..i])
    ensures var d := m.cache[page].dirty[i];
      var next := now.(backing := Stored(now.backing, page, d.lo, d.hi, Row(now.hbm, now.cache[page].slot)));
      next.Coherent(pageSize) && SameContents(m, next) && BackedUp(m, next, page, m.cache[page].dirty[..i + 1])
  {
    var dirty := m.cache[page].dirty;
    var d := dirty[i];
    forall x: nat | d.lo <= x < d.hi ensures In(m.cache[page].valid, x) {
      assert dirty[i].Has(x);
      assert In(dirty, x);
    }
    StoreBack(now, page, d.lo, d.hi, pageSize);
    assert dirty[..i + 1] == dirty[..i] + [d];
    InAll(dirty[..i], [d]);
    SingleMeans(d);
  }

  lemma BackUpDone(m: Memory, now: Memory, page: nat, pageSize: nat)
    requires m.Coherent(pageSize) && now.Coherent(pageSize) && page in m.cache
    requires BackedUp(m, now, page, m.cache[page].dirty)
    ensures var next := now.(cache := now.cache[page := now.cache[page].(dirty := [])]);
      next.Coherent(pageSize) && SameContents(now, next)
  {
    Cleaned(now, page, pageSize);
  }

  lemma SameSlots(before: map<nat, CachePage>, after: map<nat, CachePage>, free: set<nat>, next: nat, capacity: nat)
    requires Partitioned(before, free, next, capacity) && after.Keys == before.Keys
    requires forall p :: p in before ==> after[p].slot == before[p].slot
    ensures Partitioned(after, free, next, capacity)
  {
    forall s: nat | s < next && s !in free ensures exists p :: p in after && after[p].slot == s {
      var p :| p in before && before[p].slot == s;
      assert p in after && after[p].slot == s;
    }
  }

  lemma SameOrder(order: seq<nat>, before: map<nat, CachePage>, after: map<nat, CachePage>)
    requires Ordered(order, before) && after.Keys == before.Keys
    ensures Ordered(order, after)
  {
  }
}
