/** Logical pages rotate over the memory stacks: per stripe every stack holds one page, and the
    starting stack changes with the mapping group.
 */
module StackGeometry {
  import opened Modular

  datatype Geometry = Geometry(
    stacks: nat, channelsPerStack: nat, diesPerChannel: nat, planesPerDie: nat, blocksPerPlane: nat,
    pagesPerBlock: nat, pageSize: nat, entriesPerPage: nat, rotation: nat -> nat)
  {
    /** The rotation stands for the mixed group number modulo the number of stacks. */
    ghost predicate Valid()
    {
      && stacks > 0 && channelsPerStack > 0 && diesPerChannel > 0 && planesPerDie > 0 && blocksPerPlane > 0
      && pagesPerBlock > 0 && pageSize > 0 && entriesPerPage > 0
      && forall group :: rotation(group) < stacks
    }

    function PlanesPerStack(): nat
    {
      channelsPerStack * diesPerChannel * planesPerDie
    }

    function PagesPerPlane(): nat
    {
      blocksPerPlane * pagesPerBlock
    }

    function Planes(): nat
    {
      stacks * PlanesPerStack()
    }

    function CapacityPages(): nat
    {
      Planes() * PagesPerPlane()
    }

    function GroupPages(): nat
    {
      stacks * entriesPerPage
    }

    function Group(lpn: nat): nat
      requires Valid()
    {
      (lpn / stacks) / entriesPerPage
    }

    function StackOf(lpn: nat): (stack: nat)
      requires Valid()
      ensures stack < stacks
    {
      var lane, turn := lpn % stacks, rotation(Group(lpn));
      if lane >= stacks - turn then lane - (stacks - turn) else lane + turn
    }
  }

  lemma GroupIs(g: Geometry, lpn: nat)
    requires g.Valid()
    ensures g.GroupPages() > 0 && g.Group(lpn) == lpn / g.GroupPages()
  {
    DivDiv(lpn, g.stacks, g.entriesPerPage);
  }

  /** The case distinction computes the rotated lane. */
  lemma StackIs(g: Geometry, lpn: nat)
    requires g.Valid()
    ensures g.StackOf(lpn) == (lpn + g.rotation(g.Group(lpn))) % g.stacks
    ensures g.StackOf(lpn) == (lpn % g.stacks + g.rotation(g.Group(lpn))) % g.stacks
  {
    var lane, turn := lpn % g.stacks, g.rotation(g.Group(lpn));
    ModAdd(lpn, turn, g.stacks);
    if lane >= g.stacks - turn {
      DivModUnique(lane + turn, g.stacks, 1, lane + turn - g.stacks);
    } else {
      DivModUnique(lane + turn, g.stacks, 0, lane + turn);
    }
  }

  // -------------------------------------------------------------- histograms

  /** How many of n pages from first on lie on a stack. */
  ghost function Pages(g: Geometry, first: nat, n: nat, stack: nat): nat
    requires g.Valid()
  {
    if n == 0 then 0 else Pages(g, first, n - 1, stack) + (if g.StackOf(first + n - 1) == stack then 1 else 0)
  }

  /** How many of n bytes from an address on lie on a stack: the meaning of every decomposition. */
  ghost function Bytes(g: Geometry, address: nat, n: nat, stack: nat): nat
    requires g.Valid()
  {
    if n == 0 then 0
    else Bytes(g, address, n - 1, stack) + (if g.StackOf((address + n - 1) / g.pageSize) == stack then 1 else 0)
  }

  lemma {:induction false} PagesSplit(g: Geometry, first: nat, a: nat, b: nat, stack: nat)
    requires g.Valid()
    ensures Pages(g, first, a + b, stack) == Pages(g, first, a, stack) + Pages(g, first + a, b, stack)
  {
    if b > 0 {
      PagesSplit(g, first, a, b - 1, stack);
    }
  }

  lemma {:induction false} BytesSplit(g: Geometry, address: nat, a: nat, b: nat, stack: nat)
    requires g.Valid()
    ensures Bytes(g, address, a + b, stack) == Bytes(g, address, a, stack) + Bytes(g, address + a, b, stack)
  {
    if b > 0 {
      BytesSplit(g, address, a, b - 1, stack);
    }
  }

  /** All bytes of one page lie on its stack. */
  lemma {:induction false} BytesInPage(g: Geometry, page: nat, offset: nat, n: nat, stack: nat)
    requires g.Valid() && offset + n <= g.pageSize
    ensures Bytes(g, page * g.pageSize + offset, n, stack) == if g.StackOf(page) == stack then n else 0
  {
    if n > 0 {
      BytesInPage(g, page, offset, n - 1, stack);
      DivModUnique(page * g.pageSize + offset + n - 1, g.pageSize, page, offset + n - 1);
    }
  }

  /** Whole pages count page by page. */
  lemma {:induction false} BytesOfPages(g: Geometry, first: nat, n: nat, stack: nat)
    requires g.Valid()
    ensures Bytes(g, first * g.pageSize, n * g.pageSize, stack) == Pages(g, first, n, stack) * g.pageSize
  {
    if n > 0 {
      BytesOfPages(g, first, n - 1, stack);
      assert n * g.pageSize == (n - 1) * g.pageSize + g.pageSize;
      BytesSplit(g, first * g.pageSize, (n - 1) * g.pageSize, g.pageSize, stack);
      assert first * g.pageSize + (n - 1) * g.pageSize == (first + n - 1) * g.pageSize + 0;
      BytesInPage(g, first + n - 1, 0, g.pageSize, stack);
      var last := if g.StackOf(first + n - 1) == stack then 1 else 0;
      assert (Pages(g, first, n - 1, stack) + last) * g.pageSize == Pages(g, first, n - 1, stack) * g.pageSize + last * g.pageSize;
    }
  }

  /** Inside one group the pages hit the stacks in turn. */
  lemma {:induction false} PagesInGroup(g: Geometry, first: nat, n: nat, group: nat, stack: nat)
    requires g.Valid() && forall j :: first <= j < first + n ==> g.Group(j) == group
    ensures Pages(g, first, n, stack) == Hits(first + g.rotation(group), n, stack, g.stacks)
  {
    if n > 0 {
      PagesInGroup(g, first, n - 1, group, stack);
      StackIs(g, first + n - 1);
      assert g.Group(first + n - 1) == group;
      assert first + g.rotation(group) + n - 1 == first + n - 1 + g.rotation(group);
    }
  }

  lemma SameGroup(g: Geometry, group: nat, first: nat, n: nat)
    requires g.Valid() && g.GroupPages() > 0
    requires group * g.GroupPages() <= first && first + n <= (group + 1) * g.GroupPages()
    ensures forall j :: first <= j < first + n ==> g.Group(j) == group
  {
    forall j | first <= j < first + n ensures g.Group(j) == group {
      GroupIs(g, j);
      assert (group + 1) * g.GroupPages() == group * g.GroupPages() + g.GroupPages();
      DivModUnique(j, g.GroupPages(), group, j - group * g.GroupPages());
    }
  }

  // ------------------------------------------------------------ conservation

  ghost function Total(counts: nat -> nat, n: nat): nat
  {
    if n == 0 then 0 else Total(counts, n - 1) + counts(n - 1)
  }

  lemma {:induction false} TotalAdds(a: nat -> nat, b: nat -> nat, hit: nat, n: nat)
    requires forall s :: b(s) == a(s) + (if s == hit then 1 else 0)
    ensures Total(b, n) == Total(a, n) + (if hit < n then 1 else 0)
  {
    if n > 0 {
      TotalAdds(a, b, hit, n - 1);
    }
  }

  lemma {:induction false} TotalZero(counts: nat -> nat, n: nat)
    requires forall s :: counts(s) == 0
    ensures Total(counts, n) == 0
  {
    if n > 0 {
      TotalZero(counts, n - 1);
    }
  }

  /** No byte is lost or counted twice. */
  lemma {:induction false} BytesConserved(g: Geometry, address: nat, n: nat)
    requires g.Valid()
    ensures Total((s: nat) => Bytes(g, address, n, s), g.stacks) == n
  {
    var now := (s: nat) => Bytes(g, address, n, s);
    if n == 0 {
      TotalZero(now, g.stacks);
    } else {
      BytesConserved(g, address, n - 1);
      TotalAdds((s: nat) => Bytes(g, address, n - 1, s), now, g.StackOf((address + n - 1) / g.pageSize), g.stacks);
    }
  }
}
