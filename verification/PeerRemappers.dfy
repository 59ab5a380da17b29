/** Exclusive homes for a growing KV range: a unit is born in an HBM slot on its first write, the
    least recently used unit is demoted to a flash home under pressure, and nothing comes back.
 */
module PeerRemappers {
  import opened Modular
  import opened Intervals

  datatype Option<T> = None | Some(value: T)

  datatype Config = Config(
    addressSpace: nat, kvBegin: nat, kvEnd: nat, granularity: nat, chunk: nat, slots: nat, homes: nat, isStatic: bool)
  {
    ghost predicate Valid()
    {
      granularity > 0 && chunk > 0 && slots > 0 && kvBegin < kvEnd <= addressSpace && (isStatic ==> homes == 0)
    }

    /** Room for one more unit. */
    predicate Holds(live: nat)
    {
      !(isStatic && live > slots) && live <= slots + homes
    }
  }

  // ----------------------------------------------------------------- segments

  datatype Place = Static(address: nat) | Kv(unit: nat, offset: nat)

  /** Where a canonical byte belongs: the range around the KV is compacted, the KV is cut in units. */
  ghost function PlaceOf(c: Config, address: nat): Place
    requires c.Valid()
  {
    if address < c.kvBegin then Static(address)
    else if address >= c.kvEnd then Static(address - (c.kvEnd - c.kvBegin))
    else Kv((address - c.kvBegin) / c.granularity, (address - c.kvBegin) % c.granularity)
  }

  /** No two canonical bytes share a place, and the compacted image has no room to spare. */
  lemma PlacesDistinct(c: Config, a: nat, b: nat)
    requires c.Valid() && a < c.addressSpace && b < c.addressSpace && PlaceOf(c, a) == PlaceOf(c, b)
    ensures a == b
    ensures PlaceOf(c, a).Static? ==> PlaceOf(c, a).address < c.addressSpace - (c.kvEnd - c.kvBegin)
  {
    if PlaceOf(c, a).Kv? {
      var x, y := a - c.kvBegin, b - c.kvBegin;
      assert x == x / c.granularity * c.granularity + x % c.granularity;
      assert y == y / c.granularity * c.granularity + y % c.granularity;
    }
  }

  /** A run of bytes at consecutive places. */
  datatype Segment = Segment(place: Place, bytes: nat)

  ghost function At(place: Place, i: nat): Place
  {
    match place
    case Static(address) => Static(address + i)
    case Kv(unit, offset) => Kv(unit, offset + i)
  }

  ghost function Expand(segments: seq<Segment>): (places: seq<Place>)
  {
    if segments == [] then []
    else
      var last := segments[|segments| - 1];
      Expand(segments[..|segments| - 1]) + seq(last.bytes, i requires 0 <= i => At(last.place, i))
  }

  ghost function Places(c: Config, address: nat, n: nat): (places: seq<Place>)
    requires c.Valid()
  {
    seq(n, i requires 0 <= i => PlaceOf(c, address + i))
  }

  /** Cuts an access at the borders of the KV range and of the units, byte for byte in order. */
  method Segments(c: Config, address: nat, bytes: nat) returns (segments: Option<seq<Segment>>)
    requires c.Valid()
    ensures segments.None? <==> address + bytes > c.addressSpace
    ensures segments.Some? ==> Expand(segments.value) == Places(c, address, bytes)
    ensures segments.Some? ==> forall i :: 0 <= i < |segments.value| ==> InUnit(c, segments.value[i])
  {
    if address + bytes > c.addressSpace {
      return None;
    }
    hide PlaceOf, Expand, At;
    var end := address + bytes;
    var list: seq<Segment> := [];
    var cursor := address;
    ExpandNone();
    assert Places(c, address, 0) == [];
    while cursor < end
      invariant address <= cursor <= end && Expand(list) == Places(c, address, cursor - address)
      invariant forall i :: 0 <= i < |list| ==> InUnit(c, list[i])
    {
      var past, place := NextSegment(c, cursor, end);
      ExpandMore(c, list, address, cursor, past, place);
      list := list + [Segment(place, past - cursor)];
      cursor := past;
    }
    segments := Some(list);
  }

  /** A KV segment stays inside its unit. */
  ghost predicate InUnit(c: Config, segment: Segment)
  {
    segment.bytes > 0 && (segment.place.Kv? ==> segment.place.offset + segment.bytes <= c.granularity)
  }

  lemma ExpandNone()
    ensures Expand([]) == []
  {
  }

  method NextSegment(c: Config, cursor: nat, end: nat) returns (past: nat, place: Place)
    requires c.Valid() && cursor < end
    ensures cursor < past <= end && InUnit(c, Segment(place, past - cursor))
    ensures forall i: nat :: i < past - cursor ==> PlaceOf(c, cursor + i) == At(place, i)
  {
    hide PlaceOf;
    BeforeAndBehind(c);
    if cursor < c.kvBegin {
      past := if end < c.kvBegin then end else c.kvBegin;
      place := Static(cursor);
    } else if cursor >= c.kvEnd {
      past := end;
      place := Static(cursor - (c.kvEnd - c.kvBegin));
    } else {
      var unit, offset := UnitOf(cursor - c.kvBegin, c.granularity);
      var border := if end < c.kvEnd then end else c.kvEnd;
      past := if border < cursor + c.granularity - offset then border else cursor + c.granularity - offset;
      place := Kv(unit, offset);
      KvRun(c, cursor, past, unit, offset);
    }
  }

  lemma BeforeAndBehind(c: Config)
    requires c.Valid()
    ensures forall a: nat :: a < c.kvBegin ==> PlaceOf(c, a) == Static(a)
    ensures forall a: nat :: a >= c.kvEnd ==> PlaceOf(c, a) == Static(a - (c.kvEnd - c.kvBegin))
  {
  }

  method UnitOf(x: nat, granularity: nat) returns (unit: nat, offset: nat)
    requires granularity > 0
    ensures x == unit * granularity + offset && offset < granularity
  {
    unit, offset := x / granularity, x % granularity;
  }

  lemma KvRun(c: Config, cursor: nat, past: nat, unit: nat, offset: nat)
    requires c.Valid() && c.kvBegin <= cursor < past <= c.kvEnd
    requires cursor - c.kvBegin == unit * c.granularity + offset && offset + (past - cursor) <= c.granularity
    ensures forall i: nat :: i < past - cursor ==> PlaceOf(c, cursor + i) == At(Kv(unit, offset), i)
  {
    forall i: nat | i < past - cursor ensures PlaceOf(c, cursor + i) == At(Kv(unit, offset), i) {
      DivModUnique(cursor + i - c.kvBegin, c.granularity, unit, offset + i);
    }
  }

  lemma ExpandMore(c: Config, list: seq<Segment>, address: nat, cursor: nat, past: nat, place: Place)
    requires c.Valid() && address <= cursor < past && Expand(list) == Places(c, address, cursor - address)
    requires forall i: nat :: i < past - cursor ==> PlaceOf(c, cursor + i) == At(place, i)
    ensures Expand(list + [Segment(place, past - cursor)]) == Places(c, address, past - address)
  {
    var longer, n := list + [Segment(place, past - cursor)], past - cursor;
    assert longer[..|longer| - 1] == list;
    hide PlaceOf, At;
    SameRun(c, cursor, n, place);
    PlacesSplit(c, address, cursor - address, n);
  }

  lemma SameRun(c: Config, cursor: nat, n: nat, place: Place)
    requires c.Valid() && forall i: nat :: i < n ==> PlaceOf(c, cursor + i) == At(place, i)
    ensures seq(n, i requires 0 <= i => At(place, i)) == Places(c, cursor, n)
  {
  }

  lemma PlacesNext(c: Config, address: nat, n: nat)
    requires c.Valid()
    ensures Places(c, address, n + 1) == Places(c, address, n) + [PlaceOf(c, address + n)]
  {
  }

  lemma {:induction false} PlacesSplit(c: Config, address: nat, a: nat, b: nat)
    requires c.Valid()
    ensures Places(c, address, a + b) == Places(c, address, a) + Places(c, address + a, b)
  {
    hide PlaceOf, Places;
    if b > 0 {
      PlacesSplit(c, address, a, b - 1);
      PlacesNext(c, address, a + b - 1);
      PlacesNext(c, address + a, b - 1);
      assert address + (a + b - 1) == address + a + (b - 1);
    } else {
      NoPlaces(c, address + a);
    }
  }

  lemma NoPlaces(c: Config, address: nat)
    requires c.Valid()
    ensures Places(c, address, 0) == []
  {
  }

  // ---------------------------------------------------------- the written bytes

  /** What a unit has received so far. */
  type Written = map<nat, set<nat>>

  datatype Access = Access(write: bool, segment: Segment)

  ghost function Bytes(lo: nat, n: nat): (bytes: set<nat>)
    ensures forall x :: x in bytes <==> lo <= x < lo + n
  {
    if n == 0 then {} else Bytes(lo, n - 1) + {lo + n - 1}
  }

  /** One access in a world without placement: None where a read finds unwritten bytes or where one
      unit too many would be born. */
  ghost function Follow(c: Config, w: Written, access: Access): Option<Written>
  {
    if access.segment.place.Static? then Some(w)
    else
      var unit := access.segment.place.unit;
      var bytes := Bytes(access.segment.place.offset, access.segment.bytes);
      if access.write then
        if unit !in w && !c.Holds(|w| + 1) then None
        else Some(w[unit := (if unit in w then w[unit] else {}) + bytes])
      else if unit in w && bytes <= w[unit] then Some(w) else None
  }

  ghost function FollowAll(c: Config, w: Written, accesses: seq<Access>): Option<Written>
  {
    if accesses == [] then Some(w)
    else
      match FollowAll(c, w, accesses[..|accesses| - 1])
      case None => None
      case Some(next) => Follow(c, next, accesses[|accesses| - 1])
  }

  lemma {:induction false} FollowStops(c: Config, w: Written, accesses: seq<Access>, i: nat)
    requires i <= |accesses| && FollowAll(c, w, accesses[..i]).None?
    ensures FollowAll(c, w, accesses).None?
    decreases |accesses|
  {
    if i < |accesses| {
      assert accesses[..|accesses| - 1][..i] == accesses[..i];
      FollowStops(c, w, accesses[..|accesses| - 1], i);
    } else {
      assert accesses[..i] == accesses;
    }
  }

  // --------------------------------------------------------------------- units

  datatype Unit = Unit(ranges: seq<Interval>, slot: Option<nat>, home: Option<nat>)

  ghost function WrittenIn(ranges: seq<Interval>): (bytes: set<nat>)
    ensures forall x :: x in bytes <==> In(ranges, x)
  {
    if ranges == [] then (Nothing(); {})
    else
      var last := ranges[|ranges| - 1];
      assert ranges == ranges[..|ranges| - 1] + [last];
      InAll(ranges[..|ranges| - 1], [last]);
      SingleMeans(last);
      WrittenIn(ranges[..|ranges| - 1]) + (if last.lo < last.hi then Bytes(last.lo, last.hi - last.lo) else {})
  }

  /** One interval has the whole range exactly when every byte of it has been written. */
  method Covers(ranges: seq<Interval>, begin: nat, end: nat) returns (covered: bool)
    requires Normal(ranges) && begin < end
    ensures covered <==> Bytes(begin, end - begin) <= WrittenIn(ranges)
  {
    covered := exists i :: 0 <= i < |ranges| && ranges[i].lo <= begin && end <= ranges[i].hi;
    CoversExact(ranges, begin, end);
  }

  lemma CoversExact(ranges: seq<Interval>, begin: nat, end: nat)
    requires Normal(ranges) && begin < end
    ensures (exists i :: 0 <= i < |ranges| && ranges[i].lo <= begin && end <= ranges[i].hi)
      <==> Bytes(begin, end - begin) <= WrittenIn(ranges)
  {
    if i :| 0 <= i < |ranges| && ranges[i].lo <= begin && end <= ranges[i].hi {
      forall x | x in Bytes(begin, end - begin) ensures In(ranges, x) {
        assert ranges[i].Has(x);
      }
    }
    if Bytes(begin, end - begin) <= WrittenIn(ranges) {
      assert begin in Bytes(begin, end - begin) && In(ranges, begin);
      var i :| 0 <= i < |ranges| && ranges[i].Has(begin);
      if ranges[i].hi < end {
        var edge := ranges[i].hi;
        assert edge in Bytes(begin, end - begin) && In(ranges, edge);
        EdgeFree(ranges, i);
        assert false;
      }
      assert ranges[i].lo <= begin && end <= ranges[i].hi;
    }
  }

  lemma EdgeFree(ranges: seq<Interval>, i: nat)
    requires Normal(ranges) && i < |ranges|
    ensures !In(ranges, ranges[i].hi)
  {
    forall j | 0 <= j < |ranges| ensures !ranges[j].Has(ranges[i].hi) {
      if j < i {
        assert ranges[j].hi < ranges[i].lo;
      } else if i < j {
        assert ranges[i].hi < ranges[j].lo;
      }
    }
  }

  /** Adds a range to a unit's list: earlier ones stay, touching ones are absorbed, later ones follow. */
  method Extend(ranges: seq<Interval>, begin: nat, end: nat) returns (merged: seq<Interval>)
    requires Normal(ranges) && begin < end
    ensures Normal(merged) && forall x: nat :: In(merged, x) <==> In(ranges, x) || begin <= x < end
  {
    hide Normal, In;
    var lo: nat, hi: nat := begin, end;
    merged := [];
    ExtendStarts(ranges, begin, end);
    for i := 0 to |ranges|
      invariant lo < hi && Extending(ranges, i, merged, lo, hi, begin, end)
    {
      var next := ranges[i];
      ExtendStep(ranges, i, merged, lo, hi, begin, end);
      if next.hi < lo {
        merged := merged + [next];
      } else if hi < next.lo {
        merged := merged + [Interval(lo, hi)];
        lo, hi := next.lo, next.hi;
      } else {
        lo, hi := if lo < next.lo then lo else next.lo, if hi < next.hi then next.hi else hi;
      }
    }
    ExtendEnds(ranges, merged, lo, hi, begin, end);
    merged := merged + [Interval(lo, hi)];
  }

  /** What is merged so far, with the interval in hand behind it, has the bytes seen so far; what
      follows starts behind everything merged. */
  ghost predicate Extending(ranges: seq<Interval>, i: nat, merged: seq<Interval>, lo: nat, hi: nat, begin: nat, end: nat)
  {
    && i <= |ranges| && Normal(ranges) && Normal(merged + [Interval(lo, hi)])
    && (forall x: nat :: In(merged + [Interval(lo, hi)], x) <==> In(ranges[..i], x) || begin <= x < end)
    && (forall k :: 0 <= k < |merged| && i < |ranges| ==> merged[k].hi < ranges[i].lo)
  }

  lemma ExtendStarts(ranges: seq<Interval>, begin: nat, end: nat)
    requires Normal(ranges) && begin < end
    ensures Extending(ranges, 0, [], begin, end, begin, end)
  {
    SingleMeans(Interval(begin, end));
    Nothing();
    assert ranges[..0] == [] && [] + [Interval(begin, end)] == [Interval(begin, end)];
  }

  lemma ExtendStep(ranges: seq<Interval>, i: nat, merged: seq<Interval>, lo: nat, hi: nat, begin: nat, end: nat)
    requires Extending(ranges, i, merged, lo, hi, begin, end) && lo < hi && i < |ranges|
    ensures ranges[i].lo < ranges[i].hi
    ensures var next := ranges[i];
      && (next.hi < lo ==> Extending(ranges, i + 1, merged + [next], lo, hi, begin, end))
      && (next.hi >= lo && hi < next.lo ==> Extending(ranges, i + 1, merged + [Interval(lo, hi)], next.lo, next.hi, begin, end))
      && (next.hi >= lo && hi >= next.lo ==>
           Extending(ranges, i + 1, merged, if lo < next.lo then lo else next.lo, if hi < next.hi then next.hi else hi, begin, end))
  {
    var next, hand := ranges[i], Interval(lo, hi);
    assert ranges[..i + 1] == ranges[..i] + [next];
    InAll(ranges[..i], [next]);
    InAll(merged, [hand]);
    SingleMeans(next);
    SingleMeans(hand);
    if next.hi < lo {
      StepBefore(ranges, i, merged, hand);
    } else if hi < next.lo {
      StepBehind(ranges, i, merged, hand);
    } else {
      StepJoin(ranges, i, merged, hand);
      var joined := Interval(if lo < next.lo then lo else next.lo, if hi < next.hi then next.hi else hi);
      forall x: nat ensures In(merged + [joined], x) <==> In(ranges[..i + 1], x) || begin <= x < end {
        assert In(merged + [hand], x) <==> In(ranges[..i], x) || begin <= x < end;
      }
    }
  }

  lemma StepBefore(ranges: seq<Interval>, i: nat, merged: seq<Interval>, hand: Interval)
    requires i < |ranges| && Normal(ranges) && Normal(merged + [hand]) && ranges[i].hi < hand.lo
    requires forall k :: 0 <= k < |merged| ==> merged[k].hi < ranges[i].lo
    ensures Normal(merged + [ranges[i]] + [hand])
    ensures forall x: nat :: In(merged + [ranges[i]] + [hand], x) <==> In(merged, x) || ranges[i].Has(x) || hand.Has(x)
    ensures forall k :: 0 <= k < |merged + [ranges[i]]| && i + 1 < |ranges| ==> (merged + [ranges[i]])[k].hi < ranges[i + 1].lo
  {
    InAll(merged + [ranges[i]], [hand]);
    InAll(merged, [ranges[i]]);
    SingleMeans(ranges[i]);
    SingleMeans(hand);
    var before := merged + [hand];
    assert forall k :: 0 <= k < |merged| ==> before[k] == merged[k];
    assert before[|merged|] == hand;
  }

  lemma StepBehind(ranges: seq<Interval>, i: nat, merged: seq<Interval>, hand: Interval)
    requires i < |ranges| && Normal(ranges) && Normal(merged + [hand]) && hand.hi < ranges[i].lo
    requires forall k :: 0 <= k < |merged| ==> merged[k].hi < ranges[i].lo
    ensures Normal(merged + [hand] + [Interval(ranges[i].lo, ranges[i].hi)])
    ensures forall x: nat :: In(merged + [hand] + [Interval(ranges[i].lo, ranges[i].hi)], x) <==>
      In(merged, x) || ranges[i].Has(x) || hand.Has(x)
    ensures forall k :: 0 <= k < |merged + [hand]| && i + 1 < |ranges| ==> (merged + [hand])[k].hi < ranges[i + 1].lo
  {
    InAll(merged + [hand], [Interval(ranges[i].lo, ranges[i].hi)]);
    InAll(merged, [hand]);
    SingleMeans(ranges[i]);
    SingleMeans(Interval(ranges[i].lo, ranges[i].hi));
    SingleMeans(hand);
  }

  lemma StepJoin(ranges: seq<Interval>, i: nat, merged: seq<Interval>, hand: Interval)
    requires i < |ranges| && Normal(ranges) && Normal(merged + [hand]) && ranges[i].hi >= hand.lo && hand.hi >= ranges[i].lo
    requires forall k :: 0 <= k < |merged| ==> merged[k].hi < ranges[i].lo
    ensures var joined := Interval(if hand.lo < ranges[i].lo then hand.lo else ranges[i].lo,
                                   if hand.hi < ranges[i].hi then ranges[i].hi else hand.hi);
      && Normal(merged + [joined])
      && (forall x: nat :: In(merged + [joined], x) <==> In(merged, x) || ranges[i].Has(x) || hand.Has(x))
    ensures forall k :: 0 <= k < |merged| && i + 1 < |ranges| ==> merged[k].hi < ranges[i + 1].lo
  {
    var joined := Interval(if hand.lo < ranges[i].lo then hand.lo else ranges[i].lo,
                           if hand.hi < ranges[i].hi then ranges[i].hi else hand.hi);
    InAll(merged, [joined]);
    InAll(merged, [hand]);
    SingleMeans(joined);
    SingleMeans(hand);
    var before := merged + [hand];
    assert forall k :: 0 <= k < |merged| ==> before[k] == merged[k];
    assert before[|merged|] == hand;
  }

  lemma ExtendEnds(ranges: seq<Interval>, merged: seq<Interval>, lo: nat, hi: nat, begin: nat, end: nat)
    requires Extending(ranges, |ranges|, merged, lo, hi, begin, end)
    ensures Normal(merged + [Interval(lo, hi)])
    ensures forall x: nat :: In(merged + [Interval(lo, hi)], x) <==> In(ranges, x) || begin <= x < end
  {
    assert ranges[..|ranges|] == ranges;
  }
}
