/** The coalescing block pool: the free blocks are kept as intervals.

    Two mirrored dictionaries map each free interval from its start to its end and
    back, every block from nextUnused on is free too, and a lazy heap offers the
    interval starts (a popped start that no longer begins an interval is skipped).
    The class is proved to be the plain pool of module Pools: allocation yields
    exactly the lowest free blocks, and counts are the multiset of holders.
 */
module BlockPools {
  import opened Pools

  ghost predicate Indexed(ranges: map<nat, nat>, ends: map<nat, nat>, next: nat)
  {
    && (forall s :: s in ranges ==> s < ranges[s] < next)
    && (forall s :: s in ranges ==> ranges[s] in ends && ends[ranges[s]] == s)
    && (forall e :: e in ends ==> ends[e] in ranges && ranges[ends[e]] == e)
    && (forall s, t :: s in ranges && t in ranges && s < t ==> ranges[s] < t)
  }

  /** Block b lies in one of the free intervals. */
  ghost predicate Gap(ranges: map<nat, nat>, b: nat)
  {
    exists s :: s in ranges && s <= b < ranges[s]
  }

  /** The used blocks are those below next that no free interval contains. */
  ghost predicate Describes(ranges: map<nat, nat>, next: nat, capacity: nat, used: set<nat>)
  {
    && next <= capacity
    && forall b: nat :: b in used <==> b < next && !Gap(ranges, b)
  }

  ghost predicate Offered(ranges: map<nat, nat>, starts: multiset<nat>)
  {
    forall s :: s in ranges ==> s in starts
  }

  /** Python's heap keeps its least element first; popping needs one to exist. */
  lemma {:induction false} LeastExists(starts: multiset<nat>, some: nat)
    requires some in starts
    ensures exists least :: least in starts && forall x :: x in starts ==> least <= x
    decreases some
  {
    if exists x :: x in starts && x < some {
      var x :| x in starts && x < some;
      LeastExists(starts, x);
    }
  }

  /** The interval with the lowest start heads the free list. */
  lemma LowestInterval(ranges: map<nat, nat>, ends: map<nat, nat>, next: nat, capacity: nat,
                       used: set<nat>, begin: nat, take: nat)
    requires Indexed(ranges, ends, next) && Describes(ranges, next, capacity, used)
    requires begin in ranges && forall s :: s in ranges ==> begin <= s
    requires begin + take <= ranges[begin]
    ensures FreeFrom(used, 0, capacity) == Range(begin, take) + FreeFrom(used + Run(begin, take), 0, capacity)
  {
    forall b | begin <= b < begin + take ensures b !in used {
      assert Gap(ranges, b);
    }
    forall b: nat | b < begin ensures b in used {
      assert !Gap(ranges, b);
    }
    LowestRun(used, begin, take, capacity);
  }

  /** Without intervals the free list is exactly [next, capacity). */
  lemma TailInterval(next: nat, capacity: nat, used: set<nat>, count: nat)
    requires Describes(map[], next, capacity, used)
    requires count <= |FreeFrom(used, 0, capacity)|
    ensures next + count <= capacity
    ensures FreeFrom(used, 0, capacity) == Range(next, count) + FreeFrom(used + Run(next, count), 0, capacity)
    ensures Describes(map[], next + count, capacity, used + Run(next, count))
  {
    assert forall b: nat :: !Gap(map[], b);
    LowestRun(used, next, capacity - next, capacity);
    var full := used + Run(next, capacity - next);
    FreeSkips(full, 0, capacity, capacity);
    LowestRun(used, next, count, capacity);
  }

  /** What remains of the intervals after cutting a run off the front of one. */
  ghost function Cut(ranges: map<nat, nat>, begin: nat, take: nat): (left: map<nat, nat>)
    requires begin in ranges && begin + take <= ranges[begin]
  {
    if begin + take < ranges[begin]
    then (ranges - {begin})[begin + take := ranges[begin]]
    else ranges - {begin}
  }

  lemma CutGap(ranges: map<nat, nat>, ends: map<nat, nat>, next: nat, begin: nat, take: nat, b: nat)
    requires Indexed(ranges, ends, next)
    requires begin in ranges && 0 < take <= ranges[begin] - begin
    ensures Gap(Cut(ranges, begin, take), b) <==> Gap(ranges, b) && !(begin <= b < begin + take)
  {
    var left := Cut(ranges, begin, take);
    if Gap(ranges, b) && !(begin <= b < begin + take) {
      var s :| s in ranges && s <= b < ranges[s];
      if s == begin {
        assert begin + take in left;
      } else {
        assert s in left;
      }
    }
    if Gap(left, b) {
      var s :| s in left && s <= b < left[s];
      if s == begin + take && begin + take < ranges[begin] {
        assert begin in ranges;
      } else {
        assert s in ranges;
      }
    }
  }

  ghost function CutEnds(ranges: map<nat, nat>, ends: map<nat, nat>, begin: nat, take: nat): (left: map<nat, nat>)
    requires begin in ranges && begin + take <= ranges[begin]
  {
    if begin + take < ranges[begin]
    then (ends - {ranges[begin]})[ranges[begin] := begin + take]
    else ends - {ranges[begin]}
  }

  lemma CutIndexed(ranges: map<nat, nat>, ends: map<nat, nat>, next: nat, begin: nat, take: nat)
    requires Indexed(ranges, ends, next)
    requires begin in ranges && 0 < take <= ranges[begin] - begin
    ensures Indexed(Cut(ranges, begin, take), CutEnds(ranges, ends, begin, take), next)
  {
  }

  /** The statements that take an interval out and put its remainder back. */
  method CutMaps(ranges: map<nat, nat>, ends: map<nat, nat>, starts: multiset<nat>, begin: nat, take: nat)
    returns (ranges': map<nat, nat>, ends': map<nat, nat>, starts': multiset<nat>)
    requires begin in ranges && begin + take <= ranges[begin]
    requires forall s :: s in ranges && s != begin ==> s in starts
    ensures ranges' == Cut(ranges, begin, take) && ends' == CutEnds(ranges, ends, begin, take)
    ensures Offered(ranges', starts')
  {
    var end := ranges[begin];
    ranges', ends', starts' := ranges - {begin}, ends - {end}, starts;
    if begin + take < end {
      ranges' := ranges'[begin + take := end];
      ends' := ends'[end := begin + take];
      starts' := starts' + multiset{begin + take};
    }
  }

  lemma CutFront(ranges: map<nat, nat>, ends: map<nat, nat>, next: nat, capacity: nat,
                 used: set<nat>, begin: nat, take: nat)
    requires Indexed(ranges, ends, next) && Describes(ranges, next, capacity, used)
    requires begin in ranges && 0 < take <= ranges[begin] - begin
    ensures Describes(Cut(ranges, begin, take), next, capacity, used + Run(begin, take))
  {
    forall b: nat ensures b in used + Run(begin, take) <==> b < next && !Gap(Cut(ranges, begin, take), b) {
      CutGap(ranges, ends, next, begin, take, b);
    }
  }

  /** Where the interval around a freed block begins and ends once neighbours coalesce. */
  ghost function LeftEdge(ends: map<nat, nat>, block: nat): nat
  {
    if block in ends then ends[block] else block
  }

  ghost function RightEdge(ranges: map<nat, nat>, block: nat): nat
  {
    if block + 1 in ranges then ranges[block + 1] else block + 1
  }

  ghost function JoinRanges(ranges: map<nat, nat>, ends: map<nat, nat>, next: nat, block: nat): map<nat, nat>
  {
    if RightEdge(ranges, block) == next then (ranges - {block + 1}) - {LeftEdge(ends, block)}
    else (ranges - {block + 1})[LeftEdge(ends, block) := RightEdge(ranges, block)]
  }

  ghost function JoinNext(ranges: map<nat, nat>, ends: map<nat, nat>, next: nat, block: nat): nat
  {
    if RightEdge(ranges, block) == next then LeftEdge(ends, block) else next
  }

  /** A freed block touches at most one interval on each side, which grow into one. */
  lemma JoinGap(ranges: map<nat, nat>, ends: map<nat, nat>, next: nat, block: nat, b: nat)
    requires Indexed(ranges, ends, next)
    requires block < next && !Gap(ranges, block)
    ensures Gap(JoinRanges(ranges, ends, next, block), b) || b >= JoinNext(ranges, ends, next, block)
            <==> Gap(ranges, b) || b >= next || b == block
  {
    var joined := JoinRanges(ranges, ends, next, block);
    var left, right := LeftEdge(ends, block), RightEdge(ranges, block);
    if Gap(ranges, b) {
      var s :| s in ranges && s <= b < ranges[s];
      if s == left || s == block + 1 {
        assert right != next ==> left in joined && left <= b < joined[left];
      } else {
        assert s in joined;
      }
    }
    if b == block && right != next {
      assert left in joined && left <= b < joined[left];
    }
    if Gap(joined, b) {
      var s :| s in joined && s <= b < joined[s];
      if s == left && right != next {
        if left <= b < block {
          assert left in ranges;
        } else if block < b {
          assert block + 1 in ranges;
        }
      } else {
        assert s in ranges;
      }
    }
    if JoinNext(ranges, ends, next, block) <= b < next {
      assert right == next == block + 1;
      if b < block {
        assert left in ranges;
      }
    }
  }

  lemma JoinDescribes(ranges: map<nat, nat>, ends: map<nat, nat>, next: nat, capacity: nat,
                      used: set<nat>, block: nat)
    requires Indexed(ranges, ends, next) && Describes(ranges, next, capacity, used)
    requires block in used
    ensures Describes(JoinRanges(ranges, ends, next, block), JoinNext(ranges, ends, next, block),
                      capacity, used - {block})
  {
    forall b: nat ensures b in used - {block} <==>
        b < JoinNext(ranges, ends, next, block) && !Gap(JoinRanges(ranges, ends, next, block), b) {
      JoinGap(ranges, ends, next, block, b);
    }
    assert JoinNext(ranges, ends, next, block) <= capacity;
  }

  ghost function JoinEnds(ranges: map<nat, nat>, ends: map<nat, nat>, next: nat, block: nat): map<nat, nat>
  {
    if RightEdge(ranges, block) == next then ends - {block} - {RightEdge(ranges, block)}
    else (ends - {block} - {RightEdge(ranges, block)})[RightEdge(ranges, block) := LeftEdge(ends, block)]
  }

  lemma DropIndexed(ranges: map<nat, nat>, ends: map<nat, nat>, next: nat, start: nat)
    requires Indexed(ranges, ends, next) && start in ranges
    ensures Indexed(ranges - {start}, ends - {ranges[start]}, next)
  {
  }

  lemma InsertIndexed(ranges: map<nat, nat>, ends: map<nat, nat>, next: nat, start: nat, end: nat)
    requires Indexed(ranges, ends, next)
    requires start < end < next
    requires start !in ranges
    requires forall t :: t in ranges ==> ranges[t] < start || end < t
    ensures Indexed(ranges[start := end], ends[end := start], next)
  {
  }

  lemma LowerIndexed(ranges: map<nat, nat>, ends: map<nat, nat>, next: nat, lower: nat)
    requires Indexed(ranges, ends, next)
    requires forall t :: t in ranges ==> ranges[t] < lower
    ensures Indexed(ranges, ends, lower)
  {
  }

  /** The interval to the right of a used block, if any, leaves the index. */
  lemma DropRight(ranges: map<nat, nat>, ends: map<nat, nat>, next: nat, block: nat)
    requires Indexed(ranges, ends, next)
    requires !Gap(ranges, block)
    ensures Indexed(ranges - {block + 1}, ends - {RightEdge(ranges, block)}, next)
  {
    if block + 1 in ranges {
      DropIndexed(ranges, ends, next, block + 1);
    } else {
      assert ranges - {block + 1} == ranges;
      if block + 1 in ends {
        assert Gap(ranges, block);
      }
      assert ends - {block + 1} == ends;
    }
  }

  /** The interval to the left of a used block, if any, leaves the index. */
  lemma DropLeft(ranges: map<nat, nat>, ends: map<nat, nat>, next: nat, block: nat)
    requires Indexed(ranges, ends, next)
    requires !Gap(ranges, block)
    ensures Indexed(ranges - {LeftEdge(ends, block)}, ends - {block}, next)
  {
    if block in ends {
      DropIndexed(ranges, ends, next, ends[block]);
    } else {
      if block in ranges {
        assert Gap(ranges, block);
      }
      assert ranges - {block} == ranges && ends - {block} == ends;
    }
  }

  lemma JoinIndexed(ranges: map<nat, nat>, ends: map<nat, nat>, next: nat, block: nat)
    requires Indexed(ranges, ends, next)
    requires block < next && !Gap(ranges, block)
    ensures Indexed(JoinRanges(ranges, ends, next, block), JoinEnds(ranges, ends, next, block),
                    JoinNext(ranges, ends, next, block))
  {
    hide Indexed, Gap;
    var left, right := LeftEdge(ends, block), RightEdge(ranges, block);
    DropRight(ranges, ends, next, block);
    var ranges1, ends1 := ranges - {block + 1}, ends - {right};
    GapShrinks(ranges, block + 1, block);
    Separated(ranges, ends, next, block);
    DropLeft(ranges1, ends1, next, block);
    var ranges2 := ranges1 - {left};
    assert ends1 - {block} == ends - {block} - {right};
    if right == next {
      LowerIndexed(ranges2, ends1 - {block}, next, left);
    } else {
      InsertIndexed(ranges2, ends1 - {block}, next, left, right);
      assert ranges1[left := right] == ranges2[left := right];
    }
  }

  /** Every other interval keeps clear of the merged one. */
  lemma Separated(ranges: map<nat, nat>, ends: map<nat, nat>, next: nat, block: nat)
    requires Indexed(ranges, ends, next)
    requires block < next && !Gap(ranges, block)
    ensures var left, right := LeftEdge(ends, block), RightEdge(ranges, block);
            && LeftEdge(ends - {right}, block) == left && left < right <= next
            && forall t :: t in ranges - {block + 1} - {left} ==> ranges[t] < left || right < t
  {
    forall t | t in ranges ensures ranges[t] <= block || block < t {
      assert !(t <= block < ranges[t]);
    }
  }

  lemma UsedBlock(ranges: map<nat, nat>, next: nat, capacity: nat, used: set<nat>, block: nat)
    requires Describes(ranges, next, capacity, used) && block in used
    ensures block < next && block < capacity && !Gap(ranges, block)
  {
  }

  lemma JoinOffered(ranges: map<nat, nat>, ends: map<nat, nat>, next: nat, block: nat, starts: multiset<nat>)
    requires Indexed(ranges, ends, next) && Offered(ranges, starts)
    ensures Offered(JoinRanges(ranges, ends, next, block),
                    if block in ends || RightEdge(ranges, block) == next then starts
                    else starts + multiset{LeftEdge(ends, block)})
  {
  }

  /** The statements that put a freed block back: look up both neighbours, then merge. */
  method Joined(ranges: map<nat, nat>, ends: map<nat, nat>, starts: multiset<nat>, next: nat, block: nat)
    returns (ranges': map<nat, nat>, ends': map<nat, nat>, starts': multiset<nat>, next': nat)
    ensures ranges' == JoinRanges(ranges, ends, next, block)
    ensures ends' == JoinEnds(ranges, ends, next, block)
    ensures next' == JoinNext(ranges, ends, next, block)
    ensures starts' == if block in ends || RightEdge(ranges, block) == next then starts
                       else starts + multiset{LeftEdge(ends, block)}
  {
    var left := if block in ends then ends[block] else block;
    var right := if block + 1 in ranges then ranges[block + 1] else block + 1;
    ranges', ends', starts', next' := ranges - {block + 1}, ends - {block} - {right}, starts, next;
    if right == next {
      next' := left;
      ranges' := ranges' - {left};
    } else {
      ranges' := ranges'[left := right];
      ends' := ends'[right := left];
      if block !in ends {
        starts' := starts' + multiset{left};
      }
    }
  }

  lemma GapShrinks(ranges: map<nat, nat>, start: nat, b: nat)
    requires !Gap(ranges, b)
    ensures !Gap(ranges - {start}, b)
  {
  }

  /** A pool keeps whole blocks only. */
  function BlocksIn(bytes: nat, blockBytes: nat): (blocks: nat)
    requires blockBytes > 0
    ensures blocks * blockBytes <= bytes < (blocks + 1) * blockBytes
  {
    bytes / blockBytes
  }

  class BlockPool {
    const begin: nat
    const blockBytes: nat
    const capacity: nat
    /** A mapping from blocks to counts, as BlockReferences.References implements it. */
    var references: map<nat, nat>
    var nextUnused: nat
    var freeRanges: map<nat, nat>
    var freeEnds: map<nat, nat>
    /** A heap: only the multiset of its entries matters to a priority queue. */
    var freeStarts: multiset<nat>
    ghost var Refs: multiset<nat>

    ghost predicate Valid()
      reads this
    {
      && Counted(references, Refs)
      && Indexed(freeRanges, freeEnds, nextUnused)
      && Describes(freeRanges, nextUnused, capacity, Distinct(Refs))
      && Offered(freeRanges, freeStarts)
      && |freeStarts| <= 2 * |freeRanges| + 64
      && (freeRanges == map[] ==> freeStarts == multiset{})
    }

    ghost function Model(): Pool
      reads this
    {
      Pool(capacity, Refs)
    }

    constructor (begin: nat, end: nat, blockBytes: nat)
      requires begin <= end && blockBytes > 0
      ensures Valid()
      ensures Model() == Pool(BlocksIn(end - begin, blockBytes), multiset{})
      ensures this.begin == begin && this.blockBytes == blockBytes
    {
      this.begin := begin;
      this.blockBytes := blockBytes;
      capacity := BlocksIn(end - begin, blockBytes);
      nextUnused := 0;
      freeRanges, freeEnds, freeStarts := map[], map[], multiset{};
      references := map[];
      Refs := multiset{};
    }

    /** The lowest start on the heap: Python's heappop removes one entry of it. */
    method PopStart() returns (least: nat)
      requires freeRanges != map[] && Offered(freeRanges, freeStarts)
      modifies this`freeStarts
      ensures least in old(freeStarts) && freeStarts == old(freeStarts) - multiset{least}
      ensures forall s :: s in freeRanges ==> least <= s
      ensures forall s :: s in freeRanges && s != least ==> s in freeStarts
      ensures |freeStarts| < |old(freeStarts)|
    {
      ghost var some :| some in freeRanges;
      LeastExists(freeStarts, some);
      least :| least in freeStarts && forall x :: x in freeStarts ==> least <= x;
      freeStarts := freeStarts - multiset{least};
    }

    /** Takes a run off the front of the interval with the lowest start. */
    method CutStart(start: nat, missing: nat, ghost now: set<nat>) returns (take: nat)
      requires Indexed(freeRanges, freeEnds, nextUnused)
      requires Describes(freeRanges, nextUnused, capacity, now)
      requires start in freeRanges && missing > 0
      requires forall s :: s in freeRanges ==> start <= s
      requires forall s :: s in freeRanges && s != start ==> s in freeStarts
      modifies this`freeRanges, this`freeEnds, this`freeStarts
      ensures 0 < take <= missing
      ensures Indexed(freeRanges, freeEnds, nextUnused)
      ensures Describes(freeRanges, nextUnused, capacity, now + Run(start, take))
      ensures Offered(freeRanges, freeStarts)
      ensures FreeFrom(now, 0, capacity) == Range(start, take) + FreeFrom(now + Run(start, take), 0, capacity)
    {
      var end := freeRanges[start];
      take := if missing < end - start then missing else end - start;
      LowestInterval(freeRanges, freeEnds, nextUnused, capacity, now, start, take);
      CutFront(freeRanges, freeEnds, nextUnused, capacity, now, start, take);
      CutIndexed(freeRanges, freeEnds, nextUnused, start, take);
      freeRanges, freeEnds, freeStarts := CutMaps(freeRanges, freeEnds, freeStarts, start, take);
    }

    /** Takes the lowest free blocks out of the index. */
    method TakeLowest(count: nat, ghost used: set<nat>) returns (blocks: seq<nat>)
      requires Indexed(freeRanges, freeEnds, nextUnused)
      requires Describes(freeRanges, nextUnused, capacity, used)
      requires Offered(freeRanges, freeStarts)
      requires count <= |FreeFrom(used, 0, capacity)|
      modifies this`nextUnused, this`freeRanges, this`freeEnds, this`freeStarts
      ensures blocks == FreeFrom(used, 0, capacity)[..count]
      ensures Indexed(freeRanges, freeEnds, nextUnused)
      ensures Describes(freeRanges, nextUnused, capacity, used + Elements(blocks))
      ensures Offered(freeRanges, freeStarts)
    {
      blocks := [];
      var missing := count;
      ghost var now := used;
      while missing > 0 && freeRanges != map[]
        invariant |blocks| + missing == count
        invariant Indexed(freeRanges, freeEnds, nextUnused)
        invariant Describes(freeRanges, nextUnused, capacity, now)
        invariant Offered(freeRanges, freeStarts)
        invariant Handed(used, capacity, blocks, now)
        decreases missing, |freeStarts|
      {
        var start := PopStart();
        if start in freeRanges {
          var take := CutStart(start, missing, now);
          HandedMore(used, capacity, blocks, now, start, take);
          blocks := Extend(blocks, start, take);
          now := now + Run(start, take);
          missing := missing - take;
        }
      }
      if missing > 0 {
        TailInterval(nextUnused, capacity, now, missing);
        HandedMore(used, capacity, blocks, now, nextUnused, missing);
        blocks := Extend(blocks, nextUnused, missing);
        now := now + Run(nextUnused, missing);
        nextUnused := nextUnused + missing;
      }
    }

    /** Bounds the tombstones; the dictionary rebuild of the original changes no content. */
    method CompactFreeIndex()
      requires Offered(freeRanges, freeStarts)
      modifies this`freeStarts
      ensures Offered(freeRanges, freeStarts)
      ensures |freeStarts| <= 2 * |freeRanges| + 64
      ensures freeRanges == map[] ==> freeStarts == multiset{}
    {
      if |freeStarts| > 2 * |freeRanges| + 64 {
        freeStarts := multiset(freeRanges.Keys);
      }
      if freeRanges == map[] {
        freeStarts := multiset{};
      }
    }

    /** The reference count of a block, zero for a free one. */
    function Count(block: nat): (count: nat)
      requires Valid()
      reads this
      ensures count == Refs[block]
    {
      if block in references then references[block] else 0
    }

    method FreeBlocks() returns (free: nat)
      requires Valid()
      ensures free == Model().Free()
    {
      assert references.Keys == Distinct(Refs);
      ModelValid();
      Model().Counts();
      free := capacity - |references|;
    }

    /** Fails, changing nothing, exactly when fewer than count blocks are free. */
    method Allocate(count: nat) returns (ok: bool, blocks: seq<nat>)
      requires Valid()
      modifies this
      ensures Valid()
      ensures ok == (count <= old(Model()).Free())
      ensures ok ==> blocks == old(Model()).Lowest(count) && Model() == old(Model()).Take(count)
      ensures !ok ==> Model() == old(Model())
    {
      hide Indexed, Describes, Offered;
      var free := FreeBlocks();
      if count > free {
        return false, [];
      }
      ok := true;
      ghost var used := Distinct(Refs);
      ModelValid();
      Model().TakeKeeps(count);
      blocks := TakeLowest(count, used);
      Register(blocks);
      assert Distinct(Refs) == used + Elements(blocks);
      CompactFreeIndex();
    }

    lemma ModelValid()
      requires Valid()
      ensures Model().Valid()
    {
    }

    /** Gives newly taken blocks their first holder. */
    method Register(blocks: seq<nat>)
      requires Counted(references, Refs)
      requires Ascending(blocks) && forall b :: b in blocks ==> b !in Refs
      modifies this`Refs, this`references
      ensures Refs == old(Refs) + multiset(blocks)
      ensures Counted(references, Refs)
    {
      for i := 0 to |blocks|
        invariant Refs == old(Refs) + multiset(blocks[..i])
        invariant Counted(references, Refs)
      {
        assert blocks[..i + 1] == blocks[..i] + [blocks[i]];
        assert blocks[i] !in blocks[..i];
        references := references[blocks[i] := 1];
        Refs := Refs + multiset{blocks[i]};
      }
      assert blocks[..|blocks|] == blocks;
    }

    /** One more holder per listed block; stops at a free block, with those before it counted. */
    method Retain(blocks: seq<nat>) returns (ok: bool)
      requires Valid()
      modifies this
      ensures Valid()
      ensures !ok ==> exists i: nat :: Stopped(blocks, i, old(Refs)) && Refs == old(Refs) + multiset(blocks[..i])
      ensures ok ==> Model() == old(Model()).Retain(multiset(blocks))
      ensures ok <==> forall b :: b in blocks ==> b in old(Refs)
    {
      hide Valid;
      for i := 0 to |blocks|
        invariant Valid()
        invariant Refs == old(Refs) + multiset(blocks[..i])
        invariant forall b :: b in blocks[..i] ==> b in old(Refs)
      {
        PrefixCount(blocks, i);
        ok := RetainOne(blocks[i]);
        if !ok {
          assert Stopped(blocks, i, old(Refs));
          return;
        }
      }
      assert blocks[..|blocks|] == blocks;
      ok := true;
    }

    method RetainOne(block: nat) returns (ok: bool)
      requires Valid()
      modifies this
      ensures Valid()
      ensures ok == (block in old(Refs))
      ensures Refs == if ok then old(Refs) + multiset{block} else old(Refs)
    {
      hide Indexed, Describes, Offered;
      ok := block in references;
      if ok {
        references := references[block := references[block] + 1];
        Refs := Refs + multiset{block};
        assert Distinct(Refs) == Distinct(old(Refs));
      }
    }

    /** Drops one holder per listed block; stops at a block outside the pool or released twice, with
        those before it given up. */
    method Release(blocks: seq<nat>) returns (ok: bool)
      requires Valid()
      modifies this
      ensures Valid()
      ensures !ok ==> exists i: nat ::
        StoppedTwice(blocks, i, old(Refs)) && Refs == old(Refs) - multiset(blocks[..i])
      ensures ok <==> multiset(blocks) <= old(Refs)
      ensures ok ==> Model() == old(Model()).Release(multiset(blocks))
    {
      hide Valid;
      for i := 0 to |blocks|
        invariant Valid()
        invariant multiset(blocks[..i]) <= old(Refs)
        invariant Refs == old(Refs) - multiset(blocks[..i])
      {
        ReleaseStep(blocks, i, old(Refs));
        ok := ReleaseOne(blocks[i]);
        if !ok {
          assert Refs == old(Refs) - multiset(blocks[..i]);
          assert StoppedTwice(blocks, i, old(Refs));
          return;
        }
      }
      assert blocks[..|blocks|] == blocks;
      ok := true;
    }

    method ReleaseOne(block: nat) returns (ok: bool)
      requires Valid()
      modifies this
      ensures Valid()
      ensures ok == (block in old(Refs))
      ensures Refs == old(Refs) - multiset{block}
    {
      hide Indexed, Offered, Describes, Counted, Distinct;
      CountedMeans(references, Refs);
      if block in references {
        UsedBlock(freeRanges, nextUnused, capacity, Distinct(Refs), block);
      }
      if block >= capacity || block !in references {
        return false;
      }
      ok := true;
      DropHolder(block);
    }

    method DropHolder(block: nat)
      requires Valid() && block in references && block in Distinct(Refs)
      modifies this
      ensures Valid() && Refs == old(Refs) - multiset{block}
    {
      hide Indexed, Offered, Describes, Counted, Distinct;
      CountedDrop(references, Refs, block);
      var count := references[block] - 1;
      Refs := Refs - multiset{block};
      if count > 0 {
        references := references[block := count];
        return;
      }
      references := references - {block};
      FreeBlock(block, Distinct(old(Refs)));
    }

    /** Puts one block back into the index, coalescing it with both neighbours. */
    method FreeBlock(block: nat, ghost used: set<nat>)
      requires Indexed(freeRanges, freeEnds, nextUnused)
      requires Describes(freeRanges, nextUnused, capacity, used)
      requires Offered(freeRanges, freeStarts)
      requires block in used
      modifies this`nextUnused, this`freeRanges, this`freeEnds, this`freeStarts
      ensures Indexed(freeRanges, freeEnds, nextUnused)
      ensures Describes(freeRanges, nextUnused, capacity, used - {block})
      ensures Offered(freeRanges, freeStarts)
      ensures |freeStarts| <= 2 * |freeRanges| + 64
      ensures freeRanges == map[] ==> freeStarts == multiset{}
    {
      hide Describes, Indexed, Offered, JoinRanges, JoinEnds, JoinNext;
      JoinDescribes(freeRanges, freeEnds, nextUnused, capacity, used, block);
      UsedBlock(freeRanges, nextUnused, capacity, used, block);
      JoinIndexed(freeRanges, freeEnds, nextUnused, block);
      JoinOffered(freeRanges, freeEnds, nextUnused, block, freeStarts);
      freeRanges, freeEnds, freeStarts, nextUnused := Joined(freeRanges, freeEnds, freeStarts, nextUnused, block);
      CompactFreeIndex();
    }

    /** The byte address of a block: its bytes lie inside the pool, at the block's place. */
    method Address(block: nat) returns (ok: bool, addr: nat)
      ensures ok == (block < capacity)
      ensures ok ==> addr == AddressOf(block)
      ensures ok ==> begin <= addr && addr + blockBytes <= End()
    {
      ok := block < capacity;
      addr := if ok then begin + block * blockBytes else 0;
      if ok {
        BlockInside(block, capacity);
      }
    }

    function AddressOf(block: nat): nat
    {
      begin + block * blockBytes
    }

    /** The end of the last whole block. */
    function End(): nat
    {
      begin + capacity * blockBytes
    }

    lemma BlockInside(block: nat, next: nat)
      requires block < next
      ensures AddressOf(block) + blockBytes <= AddressOf(next)
    {
      assert next * blockBytes == (block + 1) * blockBytes + (next - block - 1) * blockBytes;
    }

    lemma BlockOrder(block: nat, next: nat)
      ensures block <= next ==> AddressOf(block) <= AddressOf(next)
    {
      if block <= next {
        assert next * blockBytes == block * blockBytes + (next - block) * blockBytes;
      }
    }

    /** Every byte of the pool belongs to exactly one block: blocks never share a byte and leave no gap. */
    lemma BlockOfByte(x: nat)
      requires blockBytes > 0 && begin <= x < End()
      ensures exists b: nat :: b < capacity && AddressOf(b) <= x < AddressOf(b) + blockBytes
      ensures forall b: nat, c: nat :: AddressOf(b) <= x < AddressOf(b) + blockBytes && AddressOf(c) <= x < AddressOf(c) + blockBytes ==> b == c
    {
      var offset := x - begin;
      var b := offset / blockBytes;
      BlockOrder(capacity, b);
      assert AddressOf(b) <= x < AddressOf(b) + blockBytes;
      forall b: nat, c: nat | AddressOf(b) <= x < AddressOf(b) + blockBytes && AddressOf(c) <= x < AddressOf(c) + blockBytes
        ensures b == c
      {
        if b < c {
          BlockInside(b, c);
        } else if c < b {
          BlockInside(c, b);
        }
      }
    }
  }

  /** The first listed block without a holder. */
  ghost predicate Stopped(blocks: seq<nat>, i: nat, refs: multiset<nat>)
  {
    i < |blocks| && blocks[i] !in refs && forall b :: b in blocks[..i] ==> b in refs
  }

  /** The first listed block whose holders the blocks before it have used up. */
  ghost predicate StoppedTwice(blocks: seq<nat>, i: nat, refs: multiset<nat>)
  {
    i < |blocks| && multiset(blocks[..i]) <= refs && !(multiset(blocks[..i + 1]) <= refs)
  }

  lemma ReleaseStep(blocks: seq<nat>, i: nat, refs: multiset<nat>)
    requires i < |blocks| && multiset(blocks[..i]) <= refs
    ensures blocks[i] in refs - multiset(blocks[..i]) <==> multiset(blocks[..i + 1]) <= refs
    ensures (refs - multiset(blocks[..i])) - multiset{blocks[i]} == refs - multiset(blocks[..i + 1])
    ensures multiset(blocks) <= refs ==> multiset(blocks[..i + 1]) <= refs
  {
    PrefixCount(blocks, i);
  }

  lemma PrefixCount(blocks: seq<nat>, i: nat)
    requires i < |blocks|
    ensures multiset(blocks[..i + 1]) == multiset(blocks[..i]) + multiset{blocks[i]}
    ensures multiset(blocks[..i + 1]) <= multiset(blocks)
    ensures multiset(blocks)[blocks[i]] > multiset(blocks[..i])[blocks[i]]
  {
    assert blocks[..i + 1] == blocks[..i] + [blocks[i]];
    assert blocks == blocks[..i + 1] + blocks[i + 1..];
  }

  /** The run appended to the blocks handed out so far. */
  method Extend(blocks: seq<nat>, begin: nat, count: nat) returns (longer: seq<nat>)
    ensures longer == blocks + Range(begin, count)
  {
    longer := blocks;
    for b := begin to begin + count
      invariant longer == blocks + Range(begin, b - begin)
    {
      assert Range(begin, b + 1 - begin) == Range(begin, b - begin) + [b];
      longer := longer + [b];
    }
  }

  /** The blocks handed out are the head of the original free list. */
  ghost predicate Handed(used: set<nat>, capacity: nat, blocks: seq<nat>, now: set<nat>)
  {
    && now == used + Elements(blocks)
    && FreeFrom(used, 0, capacity) == blocks + FreeFrom(now, 0, capacity)
  }

  lemma HandedMore(used: set<nat>, capacity: nat, blocks: seq<nat>, now: set<nat>, begin: nat, count: nat)
    requires Handed(used, capacity, blocks, now)
    requires FreeFrom(now, 0, capacity) == Range(begin, count) + FreeFrom(now + Run(begin, count), 0, capacity)
    ensures Handed(used, capacity, blocks + Range(begin, count), now + Run(begin, count))
  {
    var longer, after := blocks + Range(begin, count), now + Run(begin, count);
    RunElements(begin, count);
    assert Elements(longer) == Elements(blocks) + Elements(Range(begin, count));
    assert blocks + (Range(begin, count) + FreeFrom(after, 0, capacity)) == longer + FreeFrom(after, 0, capacity);
  }

  lemma RunElements(begin: nat, count: nat)
    ensures Run(begin, count) == Elements(Range(begin, count))
  {
    forall b: nat | begin <= b < begin + count ensures b in Range(begin, count) {
      assert Range(begin, count)[b - begin] == b;
    }
  }

  lemma CountedMeans(counts: map<nat, nat>, refs: multiset<nat>)
    requires Counted(counts, refs)
    ensures forall b: nat :: (b in counts <==> b in refs) && (b in refs <==> b in Distinct(refs))
    ensures forall b: nat :: b !in refs ==> refs - multiset{b} == refs
  {
  }

  /** Dropping one holder of a block: its count goes down, or its last reference is gone. */
  lemma CountedDrop(counts: map<nat, nat>, refs: multiset<nat>, block: nat)
    requires Counted(counts, refs) && block in counts
    ensures counts[block] > 1 ==>
      Counted(counts[block := counts[block] - 1], refs - multiset{block}) && Distinct(refs - multiset{block}) == Distinct(refs)
    ensures counts[block] <= 1 ==>
      counts[block] == 1 && Counted(counts - {block}, refs - multiset{block})
      && Distinct(refs - multiset{block}) == Distinct(refs) - {block}
  {
  }

  /** The stored counts are the multiplicities of the holders. */
  ghost predicate Counted(counts: map<nat, nat>, refs: multiset<nat>)
  {
    forall b: nat :: (b in counts <==> b in refs) && (b in counts ==> counts[b] == refs[b])
  }
}
