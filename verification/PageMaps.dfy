/** Logical pages on the physical fabric: the static address of a page, and the mapping pages
    that a dense range needs.
 */
module PageMaps {
  import opened Modular
  import opened StackGeometry

  datatype Option<T> = None | Some(value: T)

  // ------------------------------------------------------------- static map

  /** A number of two digits in a mixed radix. */
  function Compose(high: nat, low: nat, radix: nat): nat
  {
    high * radix + low
  }

  lemma Decompose(high: nat, low: nat, radix: nat)
    requires low < radix
    ensures Compose(high, low, radix) / radix == high && Compose(high, low, radix) % radix == low
  {
    DivModUnique(Compose(high, low, radix), radix, high, low);
  }

  lemma Composed(x: nat, radix: nat)
    requires radix > 0
    ensures x == Compose(x / radix, x % radix, radix)
  {
  }

  /** It stays below the product of the radices. */
  lemma Digits(high: nat, low: nat, radix: nat, count: nat)
    requires low < radix
    ensures high < count <==> Compose(high, low, radix) < count * radix
  {
    MultiplesOrdered(high, count, radix);
    MultiplesOrdered(count, high, radix);
  }

  /** The physical page of a logical page: its stack, then its plane and page in the stack. */
  function PhysicalPage(g: Geometry, page: nat): nat
    requires g.Valid() && g.PlanesPerStack() > 0
  {
    var index := page / g.stacks;
    Compose(Compose(g.StackOf(page), index % g.PlanesPerStack(), g.PlanesPerStack()), index / g.PlanesPerStack(), g.PagesPerPlane())
  }

  /** Pages beyond the capacity have no address. */
  function StaticAddress(g: Geometry, page: nat): Option<nat>
    requires g.Valid() && g.PlanesPerStack() > 0
  {
    if page >= g.CapacityPages() then None else Some(PhysicalPage(g, page) * g.pageSize)
  }

  /** The logical page kept at a physical one: every step of the map undone. */
  ghost function LogicalPage(g: Geometry, ppn: nat): nat
    requires g.Valid() && g.PlanesPerStack() > 0 && g.PagesPerPlane() > 0
  {
    LogicalAt(g, ppn, g.PlanesPerStack(), g.PagesPerPlane())
  }

  ghost function LogicalAt(g: Geometry, ppn: nat, planes: nat, pages: nat): nat
    requires g.Valid() && planes > 0 && pages > 0
  {
    var plane, within := ppn / pages, ppn % pages;
    var index := Compose(within, plane % planes, planes);
    Compose(index, Unrotated(plane / planes, g.rotation(index / g.entriesPerPage), g.stacks), g.stacks)
  }

  ghost function Unrotated(stack: nat, turn: nat, m: nat): (lane: nat)
    requires m > 0 && turn < m
    ensures lane < m
  {
    (stack + (m - turn)) % m
  }

  lemma TurnBack(lane: nat, turn: nat, m: nat)
    requires turn < m && lane < m
    ensures Unrotated((lane + turn) % m, turn, m) == lane
    ensures (Unrotated(lane, turn, m) + turn) % m == lane
  {
    ModAdd(lane + turn, m - turn, m);
    ModMultiple(lane, 1, m);
    DivModUnique(lane, m, 0, lane);
    ModAdd(lane + (m - turn), turn, m);
  }

  lemma Sizes(g: Geometry)
    requires g.Valid()
    ensures g.PlanesPerStack() > 0 && g.PagesPerPlane() > 0 && g.CapacityPages() == g.stacks * (g.PlanesPerStack() * g.PagesPerPlane())
  {
    MultiplesOrdered(0, g.channelsPerStack, g.diesPerChannel);
    MultiplesOrdered(0, g.channelsPerStack * g.diesPerChannel, g.planesPerDie);
    MultiplesOrdered(0, g.blocksPerPlane, g.pagesPerBlock);
    assert (g.stacks * g.PlanesPerStack()) * g.PagesPerPlane() == g.stacks * (g.PlanesPerStack() * g.PagesPerPlane());
  }

  /** From logical to physical and back.  The page lies on its stack, and the rows of pages go over the
      stack's planes in turn. */
  lemma PhysicalRoundTrip(g: Geometry, page: nat)
    requires g.Valid() && g.PlanesPerStack() > 0 && g.PagesPerPlane() > 0 && page < g.CapacityPages()
    ensures PhysicalPage(g, page) < g.CapacityPages() && LogicalPage(g, PhysicalPage(g, page)) == page
    ensures var plane, row := PhysicalPage(g, page) / g.PagesPerPlane(), page / g.stacks;
      && plane / g.PlanesPerStack() == g.StackOf(page) && plane % g.PlanesPerStack() == row % g.PlanesPerStack()
      && PhysicalPage(g, page) % g.PagesPerPlane() == row / g.PlanesPerStack()
  {
    hide Compose, Unrotated, Geometry.StackOf;
    Sizes(g);
    var m, planes, pages := g.stacks, g.PlanesPerStack(), g.PagesPerPlane();
    hide Geometry.PlanesPerStack, Geometry.PagesPerPlane, Geometry.CapacityPages;
    var index, lane := page / m, page % m;
    var stack, local, within := g.StackOf(page), index % planes, index / planes;
    Composed(page, m);
    Composed(index, planes);
    PhysicalDigits(m, planes, pages, index, lane, stack, local, within);
    StackIs(g, page);
    TurnBack(lane, g.rotation(index / g.entriesPerPage), m);
  }

  lemma PhysicalDigits(m: nat, planes: nat, pages: nat, index: nat, lane: nat, stack: nat, local: nat, within: nat)
    requires lane < m && stack < m && local < planes && pages > 0
    requires index == Compose(within, local, planes) && Compose(index, lane, m) < m * (planes * pages)
    ensures var ppn := Compose(Compose(stack, local, planes), within, pages);
      && ppn < m * (planes * pages) && ppn / pages == Compose(stack, local, planes) && ppn % pages == within
    ensures Compose(stack, local, planes) / planes == stack && Compose(stack, local, planes) % planes == local
  {
    hide Compose;
    Products(m, planes, pages);
    Digits(index, lane, m, planes * pages);
    Digits(within, local, planes, pages);
    Decompose(stack, local, planes);
    Digits(stack, local, planes, m);
    var plane := Compose(stack, local, planes);
    Decompose(plane, within, pages);
    Digits(plane, within, pages, m * planes);
  }

  lemma Products(m: nat, planes: nat, pages: nat)
    ensures (planes * pages) * m == m * (planes * pages)
    ensures pages * planes == planes * pages
    ensures (m * planes) * pages == m * (planes * pages)
  {
  }

  /** From physical to logical and back: no physical page is left out. */
  lemma LogicalRoundTrip(g: Geometry, ppn: nat)
    requires g.Valid() && g.PlanesPerStack() > 0 && g.PagesPerPlane() > 0 && ppn < g.CapacityPages()
    ensures LogicalPage(g, ppn) < g.CapacityPages() && PhysicalPage(g, LogicalPage(g, ppn)) == ppn
  {
    hide Compose, Unrotated, Geometry.StackOf;
    Sizes(g);
    var m, planes, pages := g.stacks, g.PlanesPerStack(), g.PagesPerPlane();
    hide Geometry.PlanesPerStack, Geometry.PagesPerPlane, Geometry.CapacityPages;
    var plane, within := ppn / pages, ppn % pages;
    var stack, local := plane / planes, plane % planes;
    Composed(ppn, pages);
    Composed(plane, planes);
    StackBelow(m, planes, pages, plane, within, stack, local);
    var index := Compose(within, local, planes);
    var turn := g.rotation(index / g.entriesPerPage);
    var lane := Unrotated(stack, turn, m);
    LogicalDigits(m, planes, pages, index, lane, local, within);
    TurnBack(stack, turn, m);
    StackIs(g, Compose(index, lane, m));
  }

  lemma StackBelow(m: nat, planes: nat, pages: nat, plane: nat, within: nat, stack: nat, local: nat)
    requires Compose(plane, within, pages) < m * (planes * pages) && within < pages
    requires plane == Compose(stack, local, planes) && local < planes
    ensures stack < m
  {
    hide Compose;
    Products(m, planes, pages);
    Digits(plane, within, pages, m * planes);
    Digits(stack, local, planes, m);
  }

  lemma LogicalDigits(m: nat, planes: nat, pages: nat, index: nat, lane: nat, local: nat, within: nat)
    requires lane < m && local < planes && within < pages && index == Compose(within, local, planes)
    ensures Compose(index, lane, m) < m * (planes * pages)
    ensures Compose(index, lane, m) / m == index && Compose(index, lane, m) % m == lane
    ensures index / planes == within && index % planes == local
  {
    hide Compose;
    Products(m, planes, pages);
    Digits(within, local, planes, pages);
    Digits(index, lane, m, planes * pages);
    Decompose(index, lane, m);
    Decompose(within, local, planes);
  }

  /** The static map is a bijection from the logical pages onto the page-aligned addresses. */
  lemma StaticBijection(g: Geometry)
    requires g.Valid()
    ensures g.PlanesPerStack() > 0
    ensures forall page: nat :: page < g.CapacityPages() ==>
      StaticAddress(g, page).Some? && AlignedBelow(StaticAddress(g, page).value, g)
    ensures forall p: nat, q: nat :: p < g.CapacityPages() && q < g.CapacityPages() && StaticAddress(g, p) == StaticAddress(g, q) ==> p == q
    ensures forall address: nat :: AlignedBelow(address, g) ==> exists page: nat :: StaticAddress(g, page) == Some(address)
  {
    Sizes(g);
    forall page: nat | page < g.CapacityPages() ensures AlignedBelow(StaticAddress(g, page).value, g) {
      PhysicalRoundTrip(g, page);
      Scale(PhysicalPage(g, page), g.CapacityPages(), g.pageSize);
    }
    forall p: nat, q: nat | p < g.CapacityPages() && q < g.CapacityPages() && StaticAddress(g, p) == StaticAddress(g, q) ensures p == q {
      PhysicalRoundTrip(g, p);
      PhysicalRoundTrip(g, q);
      Cancel(PhysicalPage(g, p), PhysicalPage(g, q), g.pageSize);
    }
    forall address: nat | AlignedBelow(address, g) ensures exists page: nat :: StaticAddress(g, page) == Some(address) {
      var ppn := address / g.pageSize;
      assert address == ppn * g.pageSize;
      Scale(ppn, g.CapacityPages(), g.pageSize);
      LogicalRoundTrip(g, ppn);
      assert StaticAddress(g, LogicalPage(g, ppn)) == Some(address);
    }
  }

  ghost predicate AlignedBelow(address: nat, g: Geometry)
    requires g.Valid()
  {
    address % g.pageSize == 0 && address < g.CapacityPages() * g.pageSize
  }

  lemma Scale(a: nat, b: nat, m: nat)
    requires m > 0
    ensures a < b <==> a * m < b * m
    ensures (a * m) % m == 0 && (a * m) / m == a
  {
    MultiplesOrdered(a, b, m);
    MultiplesOrdered(b, a, m);
    DivModUnique(a * m, m, a, 0);
  }

  lemma Cancel(a: nat, b: nat, m: nat)
    requires m > 0 && a * m == b * m
    ensures a == b
  {
    DivModUnique(a * m, m, a, 0);
    DivModUnique(b * m, m, b, 0);
  }

  // ----------------------------------------------------------- mapping pages

  /** The stack-local mapping page of a logical page. */
  function Vpn(g: Geometry, lpn: nat): nat
    requires g.Valid()
  {
    g.Group(lpn) * g.stacks + (lpn % g.stacks + g.rotation(g.Group(lpn))) % g.stacks
  }

  /** The mapping pages of a dense range. */
  ghost function Vpns(g: Geometry, first: nat, n: nat): set<nat>
    requires g.Valid()
  {
    set lpn | first <= lpn < first + n :: Vpn(g, lpn)
  }

  /** The mapping page lies on the page's own stack. */
  lemma VpnIs(g: Geometry, lpn: nat)
    requires g.Valid()
    ensures Vpn(g, lpn) == g.Group(lpn) * g.stacks + g.StackOf(lpn)
    ensures g.Group(lpn) * g.stacks <= Vpn(g, lpn) < g.Group(lpn) * g.stacks + g.stacks
    ensures g.Group(lpn) * g.stacks + g.stacks == (g.Group(lpn) + 1) * g.stacks
  {
    StackIs(g, lpn);
    assert (g.Group(lpn) + 1) * g.stacks == g.Group(lpn) * g.stacks + g.stacks;
  }

  lemma VpnsSplit(g: Geometry, first: nat, a: nat, b: nat)
    requires g.Valid()
    ensures Vpns(g, first, a + b) == Vpns(g, first, a) + Vpns(g, first + a, b)
  {
  }

  /** Up to one stripe inside a group needs a mapping page per logical page. */
  lemma {:induction false} VpnsFew(g: Geometry, first: nat, n: nat, group: nat)
    requires g.Valid() && n <= g.stacks && forall j :: first <= j < first + n ==> g.Group(j) == group
    ensures |Vpns(g, first, n)| == n
  {
    hide Vpn, Geometry.Group;
    if n == 0 {
      assert Vpns(g, first, 0) == {};
    } else {
      VpnsFew(g, first, n - 1, group);
      VpnsSplit(g, first, n - 1, 1);
      var last := first + n - 1;
      assert Vpns(g, last, 1) == {Vpn(g, last)};
      VpnNew(g, first, n - 1, group);
    }
  }

  lemma VpnNew(g: Geometry, first: nat, n: nat, group: nat)
    requires g.Valid() && n < g.stacks && forall j :: first <= j < first + n + 1 ==> g.Group(j) == group
    ensures Vpn(g, first + n) !in Vpns(g, first, n)
  {
    var base := first + g.rotation(group);
    var stack := g.StackOf(first + n);
    VpnIs(g, first + n);
    assert g.Group(first + n) == group;
    StackIs(g, first + n);
    assert stack == (base + (n + 1) - 1) % g.stacks by {
      assert first + n + g.rotation(group) == base + (n + 1) - 1;
    }
    HitsOnce(base, n + 1, stack, g.stacks);
    HitsWitness(base, n, stack, g.stacks);
    forall lpn | first <= lpn < first + n ensures Vpn(g, lpn) != Vpn(g, first + n) {
      VpnIs(g, lpn);
      StackIs(g, lpn);
      assert lpn + g.rotation(group) == base + (lpn - first);
      assert !Leaves(base, lpn - first, stack, g.stacks);
    }
  }

  ghost function Interval(begin: nat, n: nat): (numbers: set<nat>)
    ensures forall v :: v in numbers <==> begin <= v < begin + n
    ensures |numbers| == n
  {
    if n == 0 then {} else Interval(begin, n - 1) + {begin + n - 1}
  }

  /** Inside one group: a mapping page per logical page, but at most one per stack. */
  lemma VpnsInGroup(g: Geometry, first: nat, n: nat, group: nat)
    requires g.Valid() && forall j :: first <= j < first + n ==> g.Group(j) == group
    ensures |Vpns(g, first, n)| == (if n < g.stacks then n else g.stacks)
  {
    hide Geometry.Group;
    if n <= g.stacks {
      VpnsFew(g, first, n, group);
    } else {
      VpnsFew(g, first, g.stacks, group);
      VpnsSplit(g, first, g.stacks, n - g.stacks);
      VpnsWithin(g, first, n, group);
      Squeezed(Vpns(g, first, g.stacks), Vpns(g, first, n), Interval(group * g.stacks, g.stacks));
    }
  }

  lemma VpnsWithin(g: Geometry, first: nat, n: nat, group: nat)
    requires g.Valid() && forall j :: first <= j < first + n ==> g.Group(j) == group
    ensures Vpns(g, first, n) <= Interval(group * g.stacks, g.stacks)
  {
    hide Vpn, Geometry.Group, Interval;
    forall v | v in Vpns(g, first, n) ensures v in Interval(group * g.stacks, g.stacks) {
      var lpn :| first <= lpn < first + n && v == Vpn(g, lpn);
      VpnIs(g, lpn);
    }
  }

  lemma Squeezed(a: set<nat>, b: set<nat>, c: set<nat>)
    requires a <= b <= c && |a| == |c|
    ensures |b| == |c|
  {
    Subsets(a, b);
    Subsets(b, c);
  }

  lemma Subsets(a: set<nat>, b: set<nat>)
    requires a <= b
    ensures |a| <= |b|
  {
    assert b == a + (b - a);
  }

  /** Different groups share no mapping page. */
  lemma GroupsApart(g: Geometry, first: nat, a: nat, b: nat, split: nat)
    requires g.Valid() && forall j :: first <= j < first + a ==> g.Group(j) < split
    requires forall j :: first + a <= j < first + a + b ==> g.Group(j) >= split
    ensures |Vpns(g, first, a + b)| == |Vpns(g, first, a)| + |Vpns(g, first + a, b)|
  {
    VpnsSplit(g, first, a, b);
    forall v | v in Vpns(g, first, a) ensures v !in Vpns(g, first + a, b) {
      var lpn :| first <= lpn < first + a && v == Vpn(g, lpn);
      VpnIs(g, lpn);
      MultiplesOrdered(g.Group(lpn) + 1, split, g.stacks);
      forall q | first + a <= q < first + a + b ensures Vpn(g, q) != v {
        VpnIs(g, q);
        MultiplesOrdered(split, g.Group(q), g.stacks);
      }
    }
  }

  lemma GroupBounds(g: Geometry, lpn: nat, group: nat)
    requires g.Valid()
    ensures g.GroupPages() > 0
    ensures g.Group(lpn) < group <==> lpn < group * g.GroupPages()
  {
    GroupIs(g, lpn);
    var q, r := g.Group(lpn), lpn % g.GroupPages();
    assert lpn == q * g.GroupPages() + r;
    Digits(q, r, g.GroupPages(), group);
  }

  lemma {:induction false} WholeGroups(g: Geometry, group: nat, n: nat)
    requires g.Valid()
    ensures |Vpns(g, group * g.GroupPages(), n * g.GroupPages())| == n * g.stacks
    decreases n
  {
    hide Vpns, Vpn, Geometry.Group, Geometry.GroupPages;
    var size := g.GroupPages();
    if n == 0 {
      NoVpns(g, group * size);
    } else {
      WholeGroups(g, group, n - 1);
      var last := group + (n - 1);
      assert n * size == (n - 1) * size + size && group * size + (n - 1) * size == last * size;
      assert n * g.stacks == (n - 1) * g.stacks + g.stacks;
      WholeBounds(g, group * size, (n - 1) * size, size, last);
      GroupsApart(g, group * size, (n - 1) * size, size, last);
      StripesFit(g);
      VpnsInGroup(g, last * size, size, last);
    }
  }

  lemma NoVpns(g: Geometry, first: nat)
    requires g.Valid()
    ensures Vpns(g, first, 0) == {}
  {
  }

  lemma StripesFit(g: Geometry)
    requires g.Valid()
    ensures g.stacks <= g.GroupPages()
  {
    MultiplesOrdered(1, g.entriesPerPage, g.stacks);
    assert g.entriesPerPage * g.stacks == g.GroupPages();
  }

  /** Around a group boundary. */
  lemma WholeBounds(g: Geometry, first: nat, a: nat, b: nat, group: nat)
    requires g.Valid() && first + a == group * g.GroupPages() && b <= g.GroupPages()
    ensures forall j :: first <= j < first + a ==> g.Group(j) < group
    ensures forall j :: first + a <= j < first + a + b ==> g.Group(j) == group
  {
    assert (group + 1) * g.GroupPages() == group * g.GroupPages() + g.GroupPages();
    forall j | first <= j < first + a ensures g.Group(j) < group {
      GroupBounds(g, j, group);
    }
    forall j | first + a <= j < first + a + b ensures g.Group(j) == group {
      GroupBounds(g, j, group);
      GroupBounds(g, j, group + 1);
    }
  }

  function Least(a: nat, b: nat): nat
  {
    if a < b then a else b
  }

  /** The mapping pages of a dense range, counted from its edges: exactly the size of their set. */
  method DenseMappingPages(first: nat, pages: nat, g: Geometry) returns (count: Option<nat>)
    requires g.Valid()
    ensures count.None? <==> pages > 0 && first + pages - 1 >= 0x8000_0000_0000_0000 / g.pageSize
    ensures count.Some? ==> count.value == |Vpns(g, first, pages)|
  {
    if pages == 0 {
      assert Vpns(g, first, 0) == {};
      return Some(0);
    }
    var last := first + pages - 1;
    if last >= 0x8000_0000_0000_0000 / g.pageSize {
      return None;
    }
    var value := CountMappingPages(first, pages, g);
    count := Some(value);
  }

  method CountMappingPages(first: nat, pages: nat, g: Geometry) returns (count: nat)
    requires g.Valid() && pages > 0
    ensures count == |Vpns(g, first, pages)|
  {
    hide Vpns, Vpn, Geometry.Group;
    var last := first + pages - 1;
    var groupPages := g.GroupPages();
    GroupBounds(g, 0, 0);
    var firstGroup, from := DivideBy(first, groupPages);
    var lastGroup, upTo := DivideBy(last, groupPages);
    if firstGroup == lastGroup {
      OneGroup(g, first, pages, firstGroup, from, upTo);
      return Least(g.stacks, pages);
    }
    LaterGroup(first, last, groupPages, firstGroup, from, lastGroup, upTo);
    var firstEdge := groupPages - from;
    var lastEdge := upTo + 1;
    var interior := lastGroup - firstGroup - 1;
    ThreeParts(g, first, pages, firstGroup, from, lastGroup, upTo);
    count := Least(g.stacks, firstEdge) + interior * g.stacks + Least(g.stacks, lastEdge);
  }

  method DivideBy(x: nat, m: nat) returns (q: nat, r: nat)
    requires m > 0
    ensures x == q * m + r && r < m
  {
    q, r := x / m, x % m;
  }

  lemma LaterGroup(first: nat, last: nat, size: nat, firstGroup: nat, from: nat, lastGroup: nat, upTo: nat)
    requires first <= last && first == firstGroup * size + from && last == lastGroup * size + upTo && from < size && upTo < size
    ensures firstGroup <= lastGroup
  {
    MultiplesOrdered(lastGroup, firstGroup, size);
  }

  lemma OneGroup(g: Geometry, first: nat, pages: nat, group: nat, from: nat, upTo: nat)
    requires g.Valid() && pages > 0 && first == group * g.GroupPages() + from && first + pages - 1 == group * g.GroupPages() + upTo
    requires upTo < g.GroupPages()
    ensures |Vpns(g, first, pages)| == Least(g.stacks, pages)
  {
    hide Vpns, Geometry.Group;
    assert (group + 1) * g.GroupPages() == group * g.GroupPages() + g.GroupPages();
    SameGroup(g, group, first, pages);
    VpnsInGroup(g, first, pages, group);
  }

  lemma ThreeParts(g: Geometry, first: nat, pages: nat, firstGroup: nat, from: nat, lastGroup: nat, upTo: nat)
    requires g.Valid() && pages > 0 && firstGroup < lastGroup && from < g.GroupPages() && upTo < g.GroupPages()
    requires first == firstGroup * g.GroupPages() + from && first + pages - 1 == lastGroup * g.GroupPages() + upTo
    ensures |Vpns(g, first, pages)| ==
      Least(g.stacks, g.GroupPages() - from) + (lastGroup - firstGroup - 1) * g.stacks + Least(g.stacks, upTo + 1)
  {
    hide Vpns, Geometry.Group, Geometry.GroupPages;
    var size := g.GroupPages();
    var a, n := size - from, lastGroup - firstGroup - 1;
    var middle := firstGroup + 1;
    assert middle * size == firstGroup * size + size && lastGroup * size == middle * size + n * size;
    assert first + a == middle * size && first + a + n * size == lastGroup * size;
    assert pages == a + n * size + (upTo + 1);
    EdgePart(g, first, a, firstGroup);
    WholeGroups(g, middle, n);
    EdgePart(g, lastGroup * size, upTo + 1, lastGroup);
    Boundary(g, first, a, n * size, middle);
    GroupsApart(g, first, a, n * size, middle);
    Boundary(g, first, a + n * size, upTo + 1, lastGroup);
    GroupsApart(g, first, a + n * size, upTo + 1, lastGroup);
  }

  lemma EdgePart(g: Geometry, first: nat, n: nat, group: nat)
    requires g.Valid() && group * g.GroupPages() <= first && first + n <= group * g.GroupPages() + g.GroupPages()
    ensures |Vpns(g, first, n)| == Least(g.stacks, n)
  {
    hide Vpns, Geometry.Group;
    GroupBounds(g, 0, 0);
    assert (group + 1) * g.GroupPages() == group * g.GroupPages() + g.GroupPages();
    SameGroup(g, group, first, n);
    VpnsInGroup(g, first, n, group);
  }

  lemma Boundary(g: Geometry, first: nat, a: nat, b: nat, group: nat)
    requires g.Valid() && first + a == group * g.GroupPages()
    ensures forall j :: first <= j < first + a ==> g.Group(j) < group
    ensures forall j :: first + a <= j < first + a + b ==> g.Group(j) >= group
  {
    forall j | first <= j < first + a + b ensures g.Group(j) < group <==> j < first + a {
      GroupBounds(g, j, group);
    }
  }
}
