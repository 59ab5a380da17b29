/** What a pool of equal KV blocks means, without its index: a multiset of holders.

    The multiplicity of a block is its reference count, a block of multiplicity
    zero is free, and allocation hands out the lowest free blocks.
 */
module Pools {
  ghost function Distinct(refs: multiset<nat>): (used: set<nat>)
    ensures forall b :: b in used <==> b in refs
  {
    set b | b in refs
  }

  /** The free blocks of [from, capacity) in ascending order. */
  ghost function FreeFrom(used: set<nat>, from: nat, capacity: nat): (free: seq<nat>)
    decreases capacity - from
  {
    if from >= capacity then []
    else if from in used then FreeFrom(used, from + 1, capacity)
    else [from] + FreeFrom(used, from + 1, capacity)
  }

  ghost predicate Ascending(s: seq<nat>)
  {
    forall i, j :: 0 <= i < j < |s| ==> s[i] < s[j]
  }

  lemma AscendingPrepend(first: nat, rest: seq<nat>)
    requires Ascending(rest) && forall b :: b in rest ==> first < b
    ensures Ascending([first] + rest)
  {
    forall i | 0 <= i < |rest| ensures first < rest[i] {
      assert rest[i] in rest;
    }
  }

  /** The free list holds exactly the free blocks, each once, in ascending order. */
  lemma {:induction false} FreeFromExact(used: set<nat>, from: nat, capacity: nat)
    ensures forall b :: b in FreeFrom(used, from, capacity) <==> from <= b < capacity && b !in used
    ensures Ascending(FreeFrom(used, from, capacity))
    decreases capacity - from
  {
    if from < capacity {
      FreeFromExact(used, from + 1, capacity);
      AscendingPrepend(from, FreeFrom(used, from + 1, capacity));
    }
  }

  /** A pool has as many free blocks as its capacity exceeds its used blocks. */
  lemma {:induction false} FreeCount(used: set<nat>, from: nat, capacity: nat)
    requires from <= capacity
    requires forall b :: b in used ==> from <= b < capacity
    ensures |FreeFrom(used, from, capacity)| == capacity - from - |used|
    decreases capacity - from
  {
    if from == capacity {
      assert used == {};
    } else if from in used {
      FreeIgnores(used, from, from + 1, capacity);
      FreeCount(used - {from}, from + 1, capacity);
    } else {
      FreeCount(used, from + 1, capacity);
    }
  }

  /** Blocks below the scanned interval do not matter. */
  lemma {:induction false} FreeIgnores(used: set<nat>, low: nat, from: nat, capacity: nat)
    requires low < from
    ensures FreeFrom(used, from, capacity) == FreeFrom(used - {low}, from, capacity)
    decreases capacity - from
  {
    if from < capacity {
      FreeIgnores(used, low, from + 1, capacity);
    }
  }

  datatype Pool = Pool(capacity: nat, refs: multiset<nat>)
  {
    ghost predicate Valid()
    {
      forall b :: b in refs ==> b < capacity
    }

    ghost function FreeList(): seq<nat>
    {
      FreeFrom(Distinct(refs), 0, capacity)
    }

    ghost function Free(): nat
    {
      |FreeList()|
    }

    ghost function Lowest(count: nat): seq<nat>
      requires count <= Free()
    {
      FreeList()[..count]
    }

    ghost function Take(count: nat): Pool
      requires count <= Free()
    {
      Pool(capacity, refs + multiset(Lowest(count)))
    }

    ghost function Retain(blocks: multiset<nat>): Pool
    {
      Pool(capacity, refs + blocks)
    }

    ghost function Release(blocks: multiset<nat>): Pool
    {
      Pool(capacity, refs - blocks)
    }

    lemma Counts()
      requires Valid()
      ensures Free() == capacity - |Distinct(refs)|
      ensures |Distinct(refs)| <= capacity
    {
      FreeCount(Distinct(refs), 0, capacity);
    }

    /** Allocation takes free blocks only, each once, and uses up exactly that many. */
    lemma TakeKeeps(count: nat)
      requires Valid() && count <= Free()
      ensures Take(count).Valid()
      ensures Take(count).Free() == Free() - count
      ensures |Lowest(count)| == count && Ascending(Lowest(count))
      ensures forall b :: b in Lowest(count) ==> b !in refs && b < capacity
      ensures forall b :: b in Lowest(count) ==> Take(count).refs[b] == 1
    {
      FreeFromExact(Distinct(refs), 0, capacity);
      var taken := Lowest(count);
      assert forall b :: b in taken ==> b in FreeList();
      AscendingDistinct(taken);
      TakeCount(count);
    }

    lemma TakeCount(count: nat)
      requires Valid() && count <= Free()
      requires forall b :: b in Lowest(count) ==> b !in refs && b < capacity
      requires Ascending(Lowest(count))
      ensures Take(count).Free() == Free() - count
    {
      Counts();
      Take(count).Counts();
      AscendingSize(Lowest(count));
      assert Distinct(Take(count).refs) == Distinct(refs) + Elements(Lowest(count));
    }
  }

  /** Nothing becomes used that was free. */
  ghost predicate Shrinks(before: Pool, after: Pool)
  {
    && after.capacity == before.capacity
    && forall b :: b in after.refs ==> b in before.refs
  }

  lemma ShrinksFree(before: Pool, after: Pool)
    requires before.Valid() && Shrinks(before, after)
    ensures after.Valid() && after.Free() >= before.Free()
  {
    before.Counts();
    after.Counts();
    SubsetSize(Distinct(after.refs), Distinct(before.refs));
  }

  lemma SubsetSize(a: set<nat>, b: set<nat>)
    requires a <= b
    ensures |a| <= |b|
  {
    assert b == a + (b - a);
  }

  /** An ascending sequence repeats nothing. */
  lemma {:induction false} AscendingDistinct(s: seq<nat>)
    requires Ascending(s)
    ensures forall b :: b in s ==> multiset(s)[b] == 1
  {
    if |s| > 0 {
      var front := s[..|s| - 1];
      assert s == front + [s[|s| - 1]];
      AscendingDistinct(front);
      assert s[|s| - 1] !in front;
    }
  }

  ghost function Elements(s: seq<nat>): (elements: set<nat>)
    ensures forall b :: b in elements <==> b in s
  {
    set b | b in s
  }

  lemma {:induction false} AscendingSize(s: seq<nat>)
    requires Ascending(s)
    ensures |Elements(s)| == |s|
  {
    if |s| > 0 {
      var front, last := s[..|s| - 1], s[|s| - 1];
      AscendingSize(front);
      assert s == front + [last];
      assert Elements(s) == Elements(front) + {last};
      assert last !in front;
    }
  }

  ghost function Range(begin: nat, count: nat): (run: seq<nat>)
    ensures |run| == count
    ensures forall k :: 0 <= k < count ==> run[k] == begin + k
  {
    seq(count, i => begin + i)
  }

  ghost function Run(begin: nat, count: nat): (run: set<nat>)
    ensures forall b: nat :: b in run <==> begin <= b < begin + count
    decreases count
  {
    if count == 0 then {} else {begin} + Run(begin + 1, count - 1)
  }

  /** Used blocks ahead of the scan are skipped. */
  lemma {:induction false} FreeSkips(used: set<nat>, from: nat, to: nat, capacity: nat)
    requires from <= to <= capacity
    requires forall b :: from <= b < to ==> b in used
    ensures FreeFrom(used, from, capacity) == FreeFrom(used, to, capacity)
    decreases capacity - from
  {
    if from < to {
      FreeSkips(used, from + 1, to, capacity);
    }
  }

  /** A run of consecutive free blocks below which nothing is free heads the free list. */
  lemma {:induction false} LowestRun(used: set<nat>, begin: nat, count: nat, capacity: nat)
    requires begin + count <= capacity
    requires forall b: nat :: b < begin ==> b in used
    requires forall b :: begin <= b < begin + count ==> b !in used
    ensures FreeFrom(used, 0, capacity) == Range(begin, count) + FreeFrom(used + Run(begin, count), 0, capacity)
    decreases count
  {
    if count == 0 {
      assert used + Run(begin, 0) == used;
    } else {
      FreeSkips(used, 0, begin, capacity);
      var more := used + {begin};
      FreeSkips(more, 0, begin + 1, capacity);
      FreeIgnores(more, begin, begin + 1, capacity);
      assert more - {begin} == used;
      LowestRun(more, begin + 1, count - 1, capacity);
      assert more + Run(begin + 1, count - 1) == used + Run(begin, count);
      assert Range(begin, count) == [begin] + Range(begin + 1, count - 1);
    }
  }
}
