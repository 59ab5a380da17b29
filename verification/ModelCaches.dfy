/** The model cache: weights of one model per extent, least recently used models leave first. */
module ModelCaches {
  import opened Modular
  import opened Extents

  datatype Cached = Cached(model: nat, extent: Extent)

  ghost predicate Occupied(entries: seq<Cached>, x: nat)
  {
    exists i :: 0 <= i < |entries| && entries[i].extent.Has(x)
  }

  /** Cached and free extents together tile the cache: every byte is in exactly one of them. */
  ghost predicate Tiles(free: seq<Extent>, entries: seq<Cached>, begin: nat, end: nat)
  {
    && (forall x: nat :: begin <= x < end ==> (Covered(free, x) <==> !Occupied(entries, x)))
    && (forall i :: 0 <= i < |entries| ==>
          entries[i].extent.bytes > 0 && begin <= entries[i].extent.begin && entries[i].extent.End() <= end)
    && (forall i, j :: 0 <= i < j < |entries| ==> Apart(entries[i].extent, entries[j].extent))
  }

  ghost predicate Apart(a: Extent, b: Extent)
  {
    a.End() <= b.begin || b.End() <= a.begin
  }

  /** Each model is cached at most once, in an aligned extent of its own size. */
  ghost predicate Sized(entries: seq<Cached>, extents: map<nat, nat>, alignment: nat)
    requires alignment > 0
  {
    && (forall i :: 0 <= i < |entries| ==>
          && entries[i].model in extents && entries[i].extent.bytes == extents[entries[i].model]
          && entries[i].extent.begin % alignment == 0)
    && (forall i, j :: 0 <= i < j < |entries| ==> entries[i].model != entries[j].model)
  }

  /** What construction has checked of every model: its extent is whole and fits the empty cache. */
  ghost predicate Admitted(extents: map<nat, nat>, begin: nat, end: nat, alignment: nat)
    requires alignment > 0
  {
    begin % alignment == 0 && forall m :: m in extents ==> 0 < extents[m] && begin + extents[m] <= end && extents[m] % alignment == 0
  }

  class ModelCache {
    const allocator: ExtentAllocator
    const extents: map<nat, nat>
    /** Oldest use first. */
    var entries: seq<Cached>

    ghost predicate Valid()
      reads this, allocator
    {
      && allocator.Valid() && Admitted(extents, allocator.begin, allocator.end, allocator.alignment)
      && Tiles(allocator.free, entries, allocator.begin, allocator.end)
      && Sized(entries, extents, allocator.alignment)
    }

    constructor (begin: nat, end: nat, alignment: nat, extents: map<nat, nat>)
      requires alignment > 0 && begin <= end && Admitted(extents, begin, end, alignment)
      ensures Valid() && entries == [] && this.extents == extents
    {
      allocator := new ExtentAllocator(begin, end, alignment);
      this.extents := extents;
      entries := [];
    }

    function IndexOf(model: nat, from: nat): (i: nat)
      requires from <= |entries|
      reads this
      ensures from <= i <= |entries|
      ensures i < |entries| ==> entries[i].model == model
      ensures forall j :: from <= j < i ==> entries[j].model != model
      decreases |entries| - from
    {
      if from == |entries| || entries[from].model == model then from else IndexOf(model, from + 1)
    }

    /** Makes a model's weights resident.  It always succeeds: in the worst case everything is
        evicted, and the whole cache is one free extent again. */
    method Activate(model: nat) returns (hit: bool, evicted: seq<nat>)
      requires Valid() && model in extents
      modifies this, allocator
      ensures Valid()
      ensures hit <==> exists i :: 0 <= i < |old(entries)| && old(entries)[i].model == model
      ensures entries != [] && entries[|entries| - 1].model == model
      ensures hit ==> evicted == [] && allocator.free == old(allocator.free) && YoungNow(old(entries), entries)
      ensures !hit ==> Evicted(old(entries), evicted) && entries[..|entries| - 1] == old(entries)[|evicted|..]
      ensures NoSooner(old(entries), |evicted|, allocator.begin, allocator.end, extents[model])
    {
      hide Tiles, Sized, Admitted, Room;
      var i := IndexOf(model, 0);
      if i < |entries| {
        ToYoungEnd(allocator.free, entries, i, extents, allocator.begin, allocator.end, allocator.alignment);
        entries := entries[..i] + entries[i + 1..] + [entries[i]];
        assert Moved(old(entries), entries, i);
        return true, [];
      }
      hit, evicted := false, [];
      evicted := MakeRoom(model);
      ghost var free := allocator.free;
      AlignedExtent(extents, model, allocator.begin, allocator.end, allocator.alignment);
      var ok, got := allocator.Allocate(extents[model]);
      ghost var k: nat :| First(free, got.bytes, k) && got.begin == free[k].begin;
      NewEntry(free, allocator.free, entries, model, got, k, extents, allocator.begin, allocator.end, allocator.alignment);
      entries := entries + [Cached(model, got)];
    }

    /** Evicts the oldest models until the new one's extent fits. */
    method MakeRoom(model: nat) returns (evicted: seq<nat>)
      requires Valid() && model in extents
      modifies this, allocator
      ensures Valid()
      ensures Evicted(old(entries), evicted) && entries == old(entries)[|evicted|..]
      ensures exists i :: 0 <= i < |allocator.free| && allocator.free[i].bytes >= AlignUp(extents[model], allocator.alignment)
      ensures NoSooner(old(entries), |evicted|, allocator.begin, allocator.end, extents[model])
    {
      hide Tiles, Sized, Admitted, Room;
      AlignedExtent(extents, model, allocator.begin, allocator.end, allocator.alignment);
      evicted := [];
      var fits := allocator.CanAllocate(extents[model]);
      while !fits
        invariant Valid() && Evicted(old(entries), evicted) && entries == old(entries)[|evicted|..]
        invariant NoSooner(old(entries), |evicted|, allocator.begin, allocator.end, extents[model])
        invariant fits <==> exists i :: 0 <= i < |allocator.free| && allocator.free[i].bytes >= AlignUp(extents[model], allocator.alignment)
        decreases |entries|
      {
        EmptyFits(allocator.free, entries, model, extents, allocator.begin, allocator.end, allocator.alignment);
        RoomMeans(allocator.free, entries, allocator.begin, allocator.end, extents[model]);
        var victim := entries[0];
        OldestOut(allocator.free, entries, extents, allocator.begin, allocator.end, allocator.alignment);
        var ok := allocator.Release(victim.extent.begin, victim.extent.bytes);
        entries := entries[1..];
        evicted := evicted + [victim.model];
        fits := allocator.CanAllocate(extents[model]);
      }
    }
  }

  /** Somewhere so many bytes in a row hold no cached model. */
  ghost predicate Room(entries: seq<Cached>, begin: nat, end: nat, bytes: nat)
  {
    exists a: nat :: begin <= a && a + bytes <= end && Unused(entries, a, bytes)
  }

  ghost predicate Unused(entries: seq<Cached>, from: nat, bytes: nat)
  {
    forall x: nat :: from <= x < from + bytes ==> !Occupied(entries, x)
  }

  /** With fewer models evicted there was no room. */
  ghost predicate NoSooner(entries: seq<Cached>, count: nat, begin: nat, end: nat, bytes: nat)
    requires count <= |entries|
  {
    forall n :: 0 <= n < count ==> !Room(entries[n..], begin, end, bytes)
  }

  ghost predicate Moved(before: seq<Cached>, after: seq<Cached>, i: nat)
    requires i < |before|
  {
    after == before[..i] + before[i + 1..] + [before[i]]
  }

  /** One model became the youngest, the others keep their order. */
  ghost predicate YoungNow(before: seq<Cached>, after: seq<Cached>)
  {
    exists i: nat :: i < |before| && Moved(before, after, i)
  }

  /** There is room exactly if a free extent is large enough. */
  lemma RoomMeans(free: seq<Extent>, entries: seq<Cached>, begin: nat, end: nat, bytes: nat)
    requires Coalesced(free, begin, end) && Tiles(free, entries, begin, end) && bytes > 0
    ensures Room(entries, begin, end, bytes) <==> exists i :: 0 <= i < |free| && free[i].bytes >= bytes
  {
    if i :| 0 <= i < |free| && free[i].bytes >= bytes {
      var a := free[i].begin;
      forall x: nat | a <= x < a + bytes ensures !Occupied(entries, x) {
        assert free[i].Has(x);
        assert Covered(free, x);
      }
      assert Unused(entries, a, bytes);
      assert Room(entries, begin, end, bytes);
    }
    if Room(entries, begin, end, bytes) {
      var a: nat :| begin <= a && a + bytes <= end && Unused(entries, a, bytes);
      Reaching(free, entries, begin, end, a, bytes);
    }
  }

  lemma Reaching(free: seq<Extent>, entries: seq<Cached>, begin: nat, end: nat, a: nat, bytes: nat)
    requires Coalesced(free, begin, end) && Tiles(free, entries, begin, end) && bytes > 0
    requires begin <= a && a + bytes <= end && Unused(entries, a, bytes)
    ensures exists i :: 0 <= i < |free| && free[i].bytes >= bytes
  {
    assert !Occupied(entries, a) && Covered(free, a);
    var i: nat :| 0 <= i < |free| && free[i].Has(a);
    JustBehind(free, begin, end, i);
    var x: nat := free[i].End();
    assert Covered(free, x) || !(begin <= x < end) || Occupied(entries, x);
    assert free[i].bytes >= bytes;
  }

  lemma JustBehind(free: seq<Extent>, begin: nat, end: nat, k: nat)
    requires Coalesced(free, begin, end) && k < |free|
    ensures !Covered(free, free[k].End())
  {
    var x := free[k].End();
    forall j | 0 <= j < |free| ensures !free[j].Has(x) {
      if j < k {
        assert free[j].End() < free[k].begin;
      } else if j > k {
        assert free[k].End() < free[j].begin;
      }
    }
  }

  /** The oldest models, in their order. */
  ghost predicate Evicted(entries: seq<Cached>, evicted: seq<nat>)
  {
    |evicted| <= |entries| && forall k :: 0 <= k < |evicted| ==> evicted[k] == entries[k].model
  }

  lemma AlignedStays(value: nat, alignment: nat)
    requires alignment > 0 && value % alignment == 0
    ensures AlignUp(value, alignment) == value
  {
    var q := value / alignment;
    assert value == q * alignment;
    DivModUnique(value + alignment - 1, alignment, q, alignment - 1);
  }

  lemma AlignedExtent(extents: map<nat, nat>, model: nat, begin: nat, end: nat, alignment: nat)
    requires alignment > 0 && model in extents && Admitted(extents, begin, end, alignment)
    ensures AlignUp(extents[model], alignment) == extents[model] > 0
  {
    AlignedStays(extents[model], alignment);
  }

  /** An empty cache is one free extent, which holds every admitted model. */
  lemma EmptyFits(free: seq<Extent>, entries: seq<Cached>, model: nat, extents: map<nat, nat>, begin: nat, end: nat, alignment: nat)
    requires alignment > 0 && Coalesced(free, begin, end) && Tiles(free, entries, begin, end)
    requires model in extents && Admitted(extents, begin, end, alignment)
    ensures entries == [] ==> exists i :: 0 <= i < |free| && free[i].bytes >= AlignUp(extents[model], alignment)
  {
    AlignedStays(extents[model], alignment);
    if entries == [] {
      WholeIsOne(free, begin, end);
      assert free[0].bytes >= AlignUp(extents[model], alignment);
    }
  }

  /** A free extent starts at the cache's begin or where a cached model ends. */
  lemma FreeAligned(free: seq<Extent>, entries: seq<Cached>, extents: map<nat, nat>, begin: nat, end: nat, alignment: nat, k: nat)
    requires alignment > 0 && Coalesced(free, begin, end) && Tiles(free, entries, begin, end)
    requires Admitted(extents, begin, end, alignment) && Sized(entries, extents, alignment) && k < |free|
    ensures free[k].begin % alignment == 0
  {
    var x := free[k].begin;
    if x > begin {
      JustBefore(free, begin, end, k);
      var i :| 0 <= i < |entries| && entries[i].extent.Has(x - 1);
      var e := entries[i].extent;
      assert Covered(free, x) by {
        assert free[k].Has(x);
      }
      assert e.End() == x;
      SumAligned(e.begin, e.bytes, alignment);
    }
  }

  lemma SumAligned(a: nat, b: nat, alignment: nat)
    requires alignment > 0 && a % alignment == 0 && b % alignment == 0
    ensures (a + b) % alignment == 0
  {
    var p, q := a / alignment, b / alignment;
    assert a == p * alignment && b == q * alignment;
    assert a + b == (p + q) * alignment + 0;
    DivModUnique(a + b, alignment, p + q, 0);
  }

  lemma JustBefore(free: seq<Extent>, begin: nat, end: nat, k: nat)
    requires Coalesced(free, begin, end) && k < |free| && free[k].begin > begin
    ensures !Covered(free, free[k].begin - 1)
  {
    var x := free[k].begin - 1;
    forall j | 0 <= j < |free| ensures !free[j].Has(x) {
      if j < k {
        assert free[j].End() < free[k].begin;
      } else if j > k {
        assert free[k].End() < free[j].begin;
      }
    }
  }

  lemma NewEntry(free: seq<Extent>, after: seq<Extent>, entries: seq<Cached>, model: nat, got: Extent, k: nat,
                 extents: map<nat, nat>, begin: nat, end: nat, alignment: nat)
    requires alignment > 0 && Coalesced(free, begin, end) && Tiles(free, entries, begin, end) && Sized(entries, extents, alignment)
    requires Admitted(extents, begin, end, alignment) && model in extents
    requires forall i :: 0 <= i < |entries| ==> entries[i].model != model
    requires Taken(free, after, got) && got.bytes == AlignUp(extents[model], alignment) && k < |free| && got.begin == free[k].begin
    ensures Tiles(after, entries + [Cached(model, got)], begin, end) && Sized(entries + [Cached(model, got)], extents, alignment)
  {
    AlignedStays(extents[model], alignment);
    FreeAligned(free, entries, extents, begin, end, alignment, k);
    var longer := entries + [Cached(model, got)];
    NewTiles(free, after, entries, Cached(model, got), begin, end);
    forall i | 0 <= i < |longer|
      ensures longer[i].model in extents && longer[i].extent.bytes == extents[longer[i].model] && longer[i].extent.begin % alignment == 0
    {
    }
  }

  lemma NewTiles(free: seq<Extent>, after: seq<Extent>, entries: seq<Cached>, entry: Cached, begin: nat, end: nat)
    requires Coalesced(free, begin, end) && Tiles(free, entries, begin, end) && Taken(free, after, entry.extent) && entry.extent.bytes > 0
    ensures Tiles(after, entries + [entry], begin, end)
  {
    var longer, got := entries + [entry], entry.extent;
    forall x: nat ensures Occupied(longer, x) <==> Occupied(entries, x) || got.Has(x) {
      OccupiedPush(entries, entry, x);
    }
    assert got.Has(got.begin) && got.Has(got.End() - 1);
    assert Covered(free, got.begin) && Covered(free, got.End() - 1);
    forall i | 0 <= i < |entries| ensures Apart(entries[i].extent, got) {
      ApartFree(free, entries, got, begin, end, i);
    }
  }

  lemma OccupiedPush(entries: seq<Cached>, entry: Cached, x: nat)
    ensures Occupied(entries + [entry], x) <==> Occupied(entries, x) || entry.extent.Has(x)
  {
    var longer := entries + [entry];
    if Occupied(longer, x) {
      var i :| 0 <= i < |longer| && longer[i].extent.Has(x);
      assert i < |entries| ==> entries[i].extent.Has(x);
    }
    if Occupied(entries, x) {
      var i :| 0 <= i < |entries| && entries[i].extent.Has(x);
      assert longer[i].extent.Has(x);
    }
    if entry.extent.Has(x) {
      assert longer[|entries|].extent.Has(x);
    }
  }

  lemma ApartFree(free: seq<Extent>, entries: seq<Cached>, got: Extent, begin: nat, end: nat, i: nat)
    requires Tiles(free, entries, begin, end) && i < |entries| && got.bytes > 0
    requires forall x: nat :: got.Has(x) ==> begin <= x < end && Covered(free, x)
    ensures Apart(entries[i].extent, got)
  {
    var e := entries[i].extent;
    var x := if e.begin < got.begin then got.begin else e.begin;
    if e.Has(x) && got.Has(x) {
      assert Occupied(entries, x);
      assert false;
    }
  }

  lemma OldestOut(free: seq<Extent>, entries: seq<Cached>, extents: map<nat, nat>, begin: nat, end: nat, alignment: nat)
    requires alignment > 0 && Tiles(free, entries, begin, end) && Sized(entries, extents, alignment)
    requires Admitted(extents, begin, end, alignment) && entries != []
    ensures var e := entries[0].extent;
      && Inside(e.begin, e.bytes, begin, end, alignment) && Releasable(free, e.begin, e.bytes, alignment) && AlignUp(e.bytes, alignment) == e.bytes
      && (forall after: seq<Extent> :: (forall x: nat :: Covered(after, x) <==> Covered(free, x) || e.Has(x))
            ==> Tiles(after, entries[1..], begin, end))
    ensures Sized(entries[1..], extents, alignment)
  {
    var e, rest := entries[0].extent, entries[1..];
    AlignedStays(e.bytes, alignment);
    assert forall x: nat :: e.Has(x) ==> Occupied(entries, x);
    forall after: seq<Extent> | forall x: nat :: Covered(after, x) <==> Covered(free, x) || e.Has(x)
      ensures Tiles(after, rest, begin, end)
    {
      OldestTiles(free, entries, after, begin, end);
    }
  }

  lemma OldestTiles(free: seq<Extent>, entries: seq<Cached>, after: seq<Extent>, begin: nat, end: nat)
    requires Tiles(free, entries, begin, end) && entries != []
    requires forall x: nat :: Covered(after, x) <==> Covered(free, x) || entries[0].extent.Has(x)
    ensures Tiles(after, entries[1..], begin, end)
  {
    var rest := entries[1..];
    forall x: nat | begin <= x < end ensures Covered(after, x) <==> !Occupied(rest, x) {
      if Occupied(rest, x) {
        var i :| 0 <= i < |rest| && rest[i].extent.Has(x);
        assert entries[i + 1].extent.Has(x);
        assert Apart(entries[0].extent, entries[i + 1].extent);
      }
      if Occupied(entries, x) && !entries[0].extent.Has(x) {
        var i :| 0 <= i < |entries| && entries[i].extent.Has(x);
        assert rest[i - 1].extent.Has(x);
      }
    }
  }

  lemma ToYoungEnd(free: seq<Extent>, entries: seq<Cached>, i: nat, extents: map<nat, nat>, begin: nat, end: nat, alignment: nat)
    requires alignment > 0 && Tiles(free, entries, begin, end) && Sized(entries, extents, alignment) && i < |entries|
    ensures var moved := entries[..i] + entries[i + 1..] + [entries[i]];
      Tiles(free, moved, begin, end) && Sized(moved, extents, alignment) && multiset(moved) == multiset(entries)
  {
    var moved := entries[..i] + entries[i + 1..] + [entries[i]];
    assert entries == entries[..i] + [entries[i]] + entries[i + 1..];
    assert forall j :: 0 <= j < |moved| ==> moved[j] == entries[Origin(i, |entries|, j)];
    MovedTiles(free, entries, moved, i, begin, end);
    MovedSized(entries, moved, i, extents, alignment);
  }

  lemma MovedTiles(free: seq<Extent>, entries: seq<Cached>, moved: seq<Cached>, i: nat, begin: nat, end: nat)
    requires Tiles(free, entries, begin, end) && i < |entries| == |moved|
    requires forall j :: 0 <= j < |moved| ==> moved[j] == entries[Origin(i, |entries|, j)]
    ensures Tiles(free, moved, begin, end)
  {
    forall x: nat ensures Occupied(moved, x) <==> Occupied(entries, x) {
      MovedOccupied(entries, moved, i, x);
    }
    forall j, k | 0 <= j < k < |moved| ensures Apart(moved[j].extent, moved[k].extent) {
      var p, q := Origin(i, |entries|, j), Origin(i, |entries|, k);
      assert p != q;
      assert Apart(entries[if p < q then p else q].extent, entries[if p < q then q else p].extent);
    }
    hide Occupied, Apart;
  }

  lemma MovedOccupied(entries: seq<Cached>, moved: seq<Cached>, i: nat, x: nat)
    requires i < |entries| == |moved|
    requires forall j :: 0 <= j < |moved| ==> moved[j] == entries[Origin(i, |entries|, j)]
    ensures Occupied(moved, x) <==> Occupied(entries, x)
  {
    if Occupied(moved, x) {
      var j :| 0 <= j < |moved| && moved[j].extent.Has(x);
      assert entries[Origin(i, |entries|, j)].extent.Has(x);
    }
    if Occupied(entries, x) {
      var k :| 0 <= k < |entries| && entries[k].extent.Has(x);
      var j := if k == i then |entries| - 1 else if k < i then k else k - 1;
      assert Origin(i, |entries|, j) == k;
      assert moved[j].extent.Has(x);
    }
  }

  lemma MovedSized(entries: seq<Cached>, moved: seq<Cached>, i: nat, extents: map<nat, nat>, alignment: nat)
    requires alignment > 0 && Sized(entries, extents, alignment) && i < |entries| == |moved|
    requires forall j :: 0 <= j < |moved| ==> moved[j] == entries[Origin(i, |entries|, j)]
    ensures Sized(moved, extents, alignment)
  {
    forall j, k | 0 <= j < k < |moved| ensures moved[j].model != moved[k].model {
      var p, q := Origin(i, |entries|, j), Origin(i, |entries|, k);
      assert p != q;
      assert entries[if p < q then p else q].model != entries[if p < q then q else p].model;
    }
  }

  /** Where the entry at a position of the reordered list came from. */
  ghost function Origin(i: nat, n: nat, j: nat): (k: nat)
    requires i < n && j < n
    ensures k < n
  {
    if j == n - 1 then i else if j < i then j else j + 1
  }
}
