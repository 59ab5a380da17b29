/** First-fit extents with coalescing, and the model cache that lives in them. */
module Extents {
  datatype Extent = Extent(begin: nat, bytes: nat)
  {
    function End(): nat
    {
      begin + bytes
    }

    predicate Has(x: nat)
    {
      begin <= x < begin + bytes
    }
  }

  function AlignUp(value: nat, alignment: nat): nat
    requires alignment > 0
  {
    (value + alignment - 1) / alignment * alignment
  }

  /** Sorted, disjoint and fully coalesced: neighbours keep a gap. */
  ghost predicate Coalesced(free: seq<Extent>, begin: nat, end: nat)
  {
    && (forall i :: 0 <= i < |free| ==> free[i].bytes > 0 && begin <= free[i].begin && free[i].End() <= end)
    && (forall i, j :: 0 <= i < j < |free| ==> free[i].End() < free[j].begin)
  }

  ghost predicate Covered(extents: seq<Extent>, x: nat)
  {
    exists i :: 0 <= i < |extents| && extents[i].Has(x)
  }

  /** A coalesced list that covers a whole range is that one extent. */
  lemma WholeIsOne(free: seq<Extent>, begin: nat, end: nat)
    requires Coalesced(free, begin, end) && begin < end && forall x :: begin <= x < end ==> Covered(free, x)
    ensures free == [Extent(begin, end - begin)]
  {
    assert Covered(free, begin);
    var i :| 0 <= i < |free| && free[i].Has(begin);
    var firstEnd, itsBegin := free[0].End(), free[i].begin;
    assert i == 0;
    GapAfterFirst(free, begin, end);
    MoreThanOne(free, begin, end);
  }

  lemma MoreThanOne(free: seq<Extent>, begin: nat, end: nat)
    requires Coalesced(free, begin, end)
    ensures |free| > 1 ==> free[0].End() < end
  {
    if |free| > 1 {
      assert free[0].End() < free[1].begin;
    }
  }

  lemma GapAfterFirst(free: seq<Extent>, begin: nat, end: nat)
    requires Coalesced(free, begin, end) && free != []
    ensures !Covered(free, free[0].End())
  {
    forall k | 0 <= k < |free| ensures !free[k].Has(free[0].End()) {
      if k > 0 {
        assert free[0].End() < free[k].begin;
      }
    }
  }

  class ExtentAllocator {
    const begin: nat
    const end: nat
    const alignment: nat
    var free: seq<Extent>

    ghost predicate Valid()
      reads this
    {
      alignment > 0 && begin <= end && Coalesced(free, begin, end)
    }

    constructor (begin: nat, end: nat, alignment: nat)
      requires begin <= end && alignment > 0
      ensures Valid() && this.begin == begin && this.end == end && this.alignment == alignment
      ensures forall x: nat :: Covered(free, x) <==> begin <= x < end
    {
      this.begin, this.end, this.alignment := begin, end, alignment;
      free := if end > begin then [Extent(begin, end - begin)] else [];
      new;
      if end > begin {
        assert free[0] == Extent(begin, end - begin);
      }
    }

    method CanAllocate(bytes: nat) returns (fits: bool)
      requires Valid()
      ensures fits <==> exists i :: 0 <= i < |free| && free[i].bytes >= AlignUp(bytes, alignment)
    {
      var required := AlignUp(bytes, alignment);
      fits := exists i :: 0 <= i < |free| && free[i].bytes >= required;
    }

    /** Takes the front of the first extent that is long enough; fails, changing nothing, exactly
        when nothing is asked for or no extent fits. */
    method Allocate(bytes: nat) returns (ok: bool, got: Extent)
      requires Valid()
      modifies this
      ensures Valid()
      ensures ok <==> AlignUp(bytes, alignment) > 0 && exists i :: 0 <= i < |old(free)| && old(free)[i].bytes >= AlignUp(bytes, alignment)
      ensures !ok ==> free == old(free)
      ensures ok ==> got.bytes == AlignUp(bytes, alignment) && Taken(old(free), free, got)
      ensures ok ==> exists i: nat :: First(old(free), got.bytes, i) && got.begin == old(free)[i].begin
    {
      var required := AlignUp(bytes, alignment);
      if required == 0 {
        return false, Extent(0, 0);
      }
      for i := 0 to |free|
        invariant free == old(free)
        invariant forall j :: 0 <= j < i ==> free[j].bytes < required
      {
        if free[i].bytes >= required {
          got := Extent(free[i].begin, required);
          FrontTaken(free, i, required, begin, end);
          if free[i].bytes == required {
            free := free[..i] + free[i + 1..];
          } else {
            free := free[i := Extent(free[i].begin + required, free[i].bytes - required)];
          }
          assert First(old(free), required, i);
          return true, got;
        }
      }
      ok, got := false, Extent(0, 0);
    }

    /** Gives an extent back and coalesces; outside the range it raises with nothing changed, over
        free bytes it raises with the extent already sorted into a list that now overlaps itself. */
    method Release(from: nat, bytes: nat) returns (ok: bool)
      requires Valid()
      modifies this
      ensures ok <==> Inside(from, bytes, begin, end, alignment) && Releasable(old(free), from, bytes, alignment)
      ensures ok ==> Valid()
      ensures ok ==> forall x :: Covered(free, x) <==> Covered(old(free), x) || Extent(from, AlignUp(bytes, alignment)).Has(x)
      ensures !Inside(from, bytes, begin, end, alignment) ==> free == old(free)
      ensures !ok && Inside(from, bytes, begin, end, alignment) ==> !Valid()
      ensures !ok && Inside(from, bytes, begin, end, alignment) ==>
        exists at: nat :: Placed(old(free), Extent(from, AlignUp(bytes, alignment)), free, at)
    {
      var required := AlignUp(bytes, alignment);
      if required == 0 || from < begin || from % alignment != 0 || from + required > end {
        return false;
      }
      ghost var was := free;
      free := Inserted(free, Extent(from, required), begin, end);
      var merged;
      ok, merged := Merge(free, was, Extent(from, required), begin, end);
      if ok {
        free := merged;
      } else {
        Overlapping(was, Extent(from, required), free, begin, end);
      }
    }
  }

  ghost predicate First(free: seq<Extent>, required: nat, i: nat)
  {
    i < |free| && free[i].bytes >= required && forall j :: 0 <= j < i ==> free[j].bytes < required
  }

  /** Exactly the bytes of the extent stop being free. */
  ghost predicate Taken(before: seq<Extent>, after: seq<Extent>, got: Extent)
  {
    && (forall x :: got.Has(x) ==> Covered(before, x))
    && forall x :: Covered(after, x) <==> Covered(before, x) && !got.Has(x)
  }

  /** A non-empty aligned extent of the allocator's range. */
  predicate Inside(from: nat, bytes: nat, begin: nat, end: nat, alignment: nat)
    requires alignment > 0
  {
    var required := AlignUp(bytes, alignment);
    required > 0 && from >= begin && from % alignment == 0 && from + required <= end
  }

  /** None of the bytes is free already. */
  ghost predicate Releasable(free: seq<Extent>, from: nat, bytes: nat, alignment: nat)
    requires alignment > 0
  {
    forall x :: Extent(from, AlignUp(bytes, alignment)).Has(x) ==> !Covered(free, x)
  }

  lemma FrontTaken(free: seq<Extent>, i: nat, required: nat, begin: nat, end: nat)
    requires Coalesced(free, begin, end) && i < |free| && 0 < required <= free[i].bytes
    ensures var after := if free[i].bytes == required then free[..i] + free[i + 1..]
                         else free[i := Extent(free[i].begin + required, free[i].bytes - required)];
      Coalesced(after, begin, end) && Taken(free, after, Extent(free[i].begin, required))
  {
    if free[i].bytes == required {
      WholeTaken(free, i, begin, end);
    } else {
      PartTaken(free, i, required, begin, end);
    }
  }

  lemma WholeTaken(free: seq<Extent>, i: nat, begin: nat, end: nat)
    requires Coalesced(free, begin, end) && i < |free|
    ensures Coalesced(free[..i] + free[i + 1..], begin, end) && Taken(free, free[..i] + free[i + 1..], free[i])
  {
    var after := free[..i] + free[i + 1..];
    WholeCoalesced(free, i, after, begin, end);
    forall x: nat ensures Covered(after, x) <==> Covered(free, x) && !free[i].Has(x) {
      WholeCovered(free, i, after, begin, end, x);
    }
    assert forall x: nat :: free[i].Has(x) ==> Covered(free, x);
  }

  lemma WholeCoalesced(free: seq<Extent>, i: nat, after: seq<Extent>, begin: nat, end: nat)
    requires Coalesced(free, begin, end) && i < |free| && after == free[..i] + free[i + 1..]
    ensures Coalesced(after, begin, end)
  {
    assert forall j :: 0 <= j < |after| ==> after[j] == free[if j < i then j else j + 1];
  }

  lemma WholeCovered(free: seq<Extent>, i: nat, after: seq<Extent>, begin: nat, end: nat, x: nat)
    requires Coalesced(free, begin, end) && i < |free| && after == free[..i] + free[i + 1..]
    ensures Covered(after, x) <==> Covered(free, x) && !free[i].Has(x)
  {
    hide Coalesced, Extent.Has;
    if Covered(after, x) {
      var j :| 0 <= j < |after| && after[j].Has(x);
      var k := if j < i then j else j + 1;
      assert free[k] == after[j] && free[k].Has(x);
      Disjoint(free, begin, end, i, k, x);
    }
    if Covered(free, x) && !free[i].Has(x) {
      var k :| 0 <= k < |free| && free[k].Has(x);
      var j := if k < i then k else k - 1;
      assert after[j] == free[k] && after[j].Has(x);
    }
  }

  lemma Disjoint(free: seq<Extent>, begin: nat, end: nat, i: nat, k: nat, x: nat)
    requires Coalesced(free, begin, end) && i < |free| && k < |free| && i != k && free[k].Has(x)
    ensures !free[i].Has(x)
  {
    if i < k {
      assert free[i].End() < free[k].begin;
    } else {
      assert free[k].End() < free[i].begin;
    }
  }

  lemma PartTaken(free: seq<Extent>, i: nat, required: nat, begin: nat, end: nat)
    requires Coalesced(free, begin, end) && i < |free| && 0 < required < free[i].bytes
    ensures var after := free[i := Extent(free[i].begin + required, free[i].bytes - required)];
      Coalesced(after, begin, end) && Taken(free, after, Extent(free[i].begin, required))
  {
    var got := Extent(free[i].begin, required);
    var after := free[i := Extent(free[i].begin + required, free[i].bytes - required)];
    forall x ensures Covered(after, x) <==> Covered(free, x) && !got.Has(x) {
      if Covered(after, x) {
        var j :| 0 <= j < |after| && after[j].Has(x);
        assert free[j].Has(x);
      }
      if Covered(free, x) && !got.Has(x) {
        var k :| 0 <= k < |free| && free[k].Has(x);
        assert after[k].Has(x);
      }
    }
    assert forall x :: got.Has(x) ==> free[i].Has(x);
  }

  // ------------------------------------------------------------------ merging

  /** The order of the sort: by begin, then by length. */
  predicate UpTo(a: Extent, b: Extent)
  {
    a.begin < b.begin || (a.begin == b.begin && a.bytes <= b.bytes)
  }

  /** Sorted, with one extent more. */
  ghost predicate Placed(free: seq<Extent>, extra: Extent, sorted: seq<Extent>, at: nat)
  {
    && at <= |free| && sorted == free[..at] + [extra] + free[at..]
    && (forall k :: 0 <= k < at ==> UpTo(free[k], extra))
    && (forall k :: at <= k < |free| ==> UpTo(extra, free[k]))
  }

  /** A list that holds an extent and bytes of it once more is not coalesced. */
  lemma Overlapping(free: seq<Extent>, extra: Extent, sorted: seq<Extent>, begin: nat, end: nat)
    requires exists at: nat :: Placed(free, extra, sorted, at)
    requires exists x :: extra.Has(x) && Covered(free, x)
    ensures !Coalesced(sorted, begin, end)
  {
    var at: nat :| Placed(free, extra, sorted, at);
    var x :| extra.Has(x) && Covered(free, x);
    var k :| 0 <= k < |free| && free[k].Has(x);
    var i := if k < at then k else k + 1;
    assert sorted[at] == extra && sorted[i] == free[k];
    if Coalesced(sorted, begin, end) {
      Disjoint(sorted, begin, end, at, i, x);
    }
  }

  method Inserted(free: seq<Extent>, extra: Extent, ghost begin: nat, ghost end: nat) returns (sorted: seq<Extent>)
    requires Coalesced(free, begin, end)
    ensures exists at: nat :: Placed(free, extra, sorted, at)
  {
    var at := 0;
    while at < |free| && UpTo(free[at], extra)
      invariant at <= |free| && forall k :: 0 <= k < at ==> UpTo(free[k], extra)
    {
      at := at + 1;
    }
    sorted := free[..at] + [extra] + free[at..];
    assert forall k :: at < k < |free| ==> free[at].End() < free[k].begin;
    assert Placed(free, extra, sorted, at);
  }

  /** Fuses touching neighbours from left to right; overlapping ones are an error. */
  method Merge(sorted: seq<Extent>, ghost free: seq<Extent>, ghost extra: Extent, ghost begin: nat, ghost end: nat)
    returns (ok: bool, merged: seq<Extent>)
    requires Coalesced(free, begin, end) && extra.bytes > 0 && begin <= extra.begin && extra.End() <= end
    requires exists at: nat :: Placed(free, extra, sorted, at)
    ensures ok <==> forall x :: extra.Has(x) ==> !Covered(free, x)
    ensures ok ==> Coalesced(merged, begin, end)
    ensures ok ==> forall x :: Covered(merged, x) <==> Covered(free, x) || extra.Has(x)
  {
    hide Coalesced, Covered;
    ghost var at: nat :| Placed(free, extra, sorted, at);
    SortedMeans(free, extra, sorted, at, begin, end);
    merged := [];
    FusedNone(sorted, begin, end);
    for k := 0 to |sorted|
      invariant Fused(sorted, k, merged, begin, end)
      invariant forall i, j :: 0 <= i < j < k ==> sorted[i].End() <= sorted[j].begin
    {
      var e := sorted[k];
      FusedLast(sorted, k, merged, begin, end);
      if merged != [] && merged[|merged| - 1].End() == e.begin {
        var prior := merged[|merged| - 1];
        FuseOn(sorted, k, merged, begin, end);
        merged := merged[|merged| - 1 := Extent(prior.begin, prior.bytes + e.bytes)];
      } else if merged != [] && merged[|merged| - 1].End() > e.begin {
        Overlap(free, extra, sorted, at, k, begin, end);
        return false, merged;
      } else {
        FuseNew(sorted, k, merged, begin, end);
        merged := merged + [e];
      }
    }
    ok := true;
    assert sorted[..|sorted|] == sorted;
    NoOverlap(free, extra, sorted, at);
  }

  /** The first k extents, none overlapping, fused. */
  ghost predicate Fused(sorted: seq<Extent>, k: nat, merged: seq<Extent>, begin: nat, end: nat)
  {
    && k <= |sorted| && Coalesced(merged, begin, end)
    && (forall x :: Covered(merged, x) <==> Covered(sorted[..k], x))
    && (k > 0 ==> merged != [] && merged[|merged| - 1].End() == sorted[k - 1].End())
    && (k == 0 ==> merged == [])
  }

  lemma FusedNone(sorted: seq<Extent>, begin: nat, end: nat)
    ensures Fused(sorted, 0, [], begin, end)
  {
  }

  lemma SortedMeans(free: seq<Extent>, extra: Extent, sorted: seq<Extent>, at: nat, begin: nat, end: nat)
    requires Coalesced(free, begin, end) && Placed(free, extra, sorted, at)
    requires extra.bytes > 0 && begin <= extra.begin && extra.End() <= end
    ensures forall i :: 0 <= i < |sorted| ==> sorted[i].bytes > 0 && begin <= sorted[i].begin && sorted[i].End() <= end
    ensures forall i, j :: 0 <= i < j < |sorted| ==> sorted[i].begin <= sorted[j].begin
    ensures forall x :: Covered(sorted, x) <==> Covered(free, x) || extra.Has(x)
  {
    SortedCovers(free, extra, sorted, at);
    hide Covered;
    assert sorted[at] == extra;
    assert forall i :: 0 <= i < |sorted| && i != at ==> sorted[i] == free[if i < at then i else i - 1];
  }

  lemma SortedCovers(free: seq<Extent>, extra: Extent, sorted: seq<Extent>, at: nat)
    requires Placed(free, extra, sorted, at)
    ensures forall x :: Covered(sorted, x) <==> Covered(free, x) || extra.Has(x)
  {
    hide UpTo, Extent.Has;
    assert sorted[at] == extra;
    assert forall i :: 0 <= i < |sorted| && i != at ==> sorted[i] == free[if i < at then i else i - 1];
    forall x ensures Covered(sorted, x) <==> Covered(free, x) || extra.Has(x) {
      if Covered(free, x) {
        var k :| 0 <= k < |free| && free[k].Has(x);
        assert sorted[if k < at then k else k + 1].Has(x);
      }
      if extra.Has(x) {
        assert sorted[at].Has(x);
      }
    }
  }

  lemma FusedLast(sorted: seq<Extent>, k: nat, merged: seq<Extent>, begin: nat, end: nat)
    requires Fused(sorted, k, merged, begin, end) && k < |sorted|
    requires forall i, j :: 0 <= i < j < k ==> sorted[i].End() <= sorted[j].begin
    requires forall i :: 0 <= i < |sorted| ==> sorted[i].bytes > 0
    ensures merged != [] && merged[|merged| - 1].End() <= sorted[k].begin ==>
      forall i, j :: 0 <= i < j < k + 1 ==> sorted[i].End() <= sorted[j].begin
    ensures merged == [] <==> k == 0
  {
    if merged != [] && merged[|merged| - 1].End() <= sorted[k].begin {
      forall i | 0 <= i < k ensures sorted[i].End() <= sorted[k].begin {
        if i < k - 1 {
          assert sorted[i].End() <= sorted[k - 1].begin;
        }
      }
    }
  }

  lemma CoveredMore(sorted: seq<Extent>, k: nat, x: nat)
    requires k < |sorted|
    ensures Covered(sorted[..k + 1], x) <==> Covered(sorted[..k], x) || sorted[k].Has(x)
  {
    var longer := sorted[..k + 1];
    if Covered(longer, x) {
      var i :| 0 <= i < k + 1 && longer[i].Has(x);
      assert i < k ==> sorted[..k][i].Has(x);
    }
    if Covered(sorted[..k], x) {
      var i :| 0 <= i < k && sorted[..k][i].Has(x);
      assert longer[i].Has(x);
    }
    if sorted[k].Has(x) {
      assert longer[k].Has(x);
    }
  }

  lemma FuseOn(sorted: seq<Extent>, k: nat, merged: seq<Extent>, begin: nat, end: nat)
    requires Fused(sorted, k, merged, begin, end) && k < |sorted| && merged != []
    requires merged[|merged| - 1].End() == sorted[k].begin && sorted[k].bytes > 0 && sorted[k].End() <= end
    ensures var prior := merged[|merged| - 1];
      Fused(sorted, k + 1, merged[|merged| - 1 := Extent(prior.begin, prior.bytes + sorted[k].bytes)], begin, end)
  {
    var n := |merged| - 1;
    var after := merged[n := Extent(merged[n].begin, merged[n].bytes + sorted[k].bytes)];
    forall x ensures Covered(after, x) <==> Covered(sorted[..k + 1], x) {
      CoveredMore(sorted, k, x);
      if Covered(after, x) {
        var i :| 0 <= i < |after| && after[i].Has(x);
        assert merged[i].Has(x) || sorted[k].Has(x);
      }
      if Covered(merged, x) {
        var i :| 0 <= i < |merged| && merged[i].Has(x);
        assert after[i].Has(x);
      }
      if sorted[k].Has(x) {
        assert after[n].Has(x);
      }
    }
  }

  lemma FuseNew(sorted: seq<Extent>, k: nat, merged: seq<Extent>, begin: nat, end: nat)
    requires Fused(sorted, k, merged, begin, end) && k < |sorted|
    requires merged == [] || merged[|merged| - 1].End() < sorted[k].begin
    requires sorted[k].bytes > 0 && sorted[k].End() <= end && begin <= sorted[k].begin
    ensures Fused(sorted, k + 1, merged + [sorted[k]], begin, end)
  {
    var after := merged + [sorted[k]];
    forall x ensures Covered(after, x) <==> Covered(sorted[..k + 1], x) {
      CoveredMore(sorted, k, x);
      if Covered(after, x) {
        var i :| 0 <= i < |after| && after[i].Has(x);
        assert i < |merged| ==> merged[i].Has(x);
      }
      if Covered(merged, x) {
        var i :| 0 <= i < |merged| && merged[i].Has(x);
        assert after[i].Has(x);
      }
      if sorted[k].Has(x) {
        assert after[|merged|].Has(x);
      }
    }
    forall i | 0 <= i < |merged| ensures merged[i].End() < sorted[k].begin {
      if i < |merged| - 1 {
        assert merged[i].End() < merged[|merged| - 1].begin;
      }
    }
  }

  /** Neighbours that overlap are the extra extent and a free one. */
  lemma Overlap(free: seq<Extent>, extra: Extent, sorted: seq<Extent>, at: nat, k: nat, begin: nat, end: nat)
    requires Coalesced(free, begin, end) && Placed(free, extra, sorted, at) && 0 < k < |sorted| && extra.bytes > 0
    requires sorted[k - 1].End() > sorted[k].begin && sorted[k - 1].begin <= sorted[k].begin && sorted[k].bytes > 0
    ensures exists x :: extra.Has(x) && Covered(free, x)
  {
    assert sorted[at] == extra;
    assert forall i :: 0 <= i < |sorted| && i != at ==> sorted[i] == free[if i < at then i else i - 1];
    var x := sorted[k].begin;
    assert sorted[k].Has(x) && sorted[k - 1].Has(x);
    if k == at {
      assert free[k - 1].Has(x);
    } else {
      assert k - 1 == at && free[k - 1].Has(x);
    }
    assert extra.Has(x) && Covered(free, x);
  }

  lemma NoOverlap(free: seq<Extent>, extra: Extent, sorted: seq<Extent>, at: nat)
    requires Placed(free, extra, sorted, at)
    requires forall i, j :: 0 <= i < j < |sorted| ==> sorted[i].End() <= sorted[j].begin
    ensures forall x :: extra.Has(x) ==> !Covered(free, x)
  {
    assert sorted[at] == extra;
    forall k | 0 <= k < |free| ensures free[k].End() <= extra.begin || extra.End() <= free[k].begin {
      assert sorted[if k < at then k else k + 1] == free[k];
    }
  }
}
