/** The peer remapper at work: slots, homes, demotion, and what a read finds. */
module PeerHomes {
  import opened Intervals
  import opened PeerRemappers

  datatype Places = Places(units: map<nat, Unit>, resident: seq<nat>, nextSlot: nat, nextHome: nat)

  /** Exclusive homes: every unit is in one HBM slot or one flash home of its own; slots fill up
      first, and as many units have been demoted as do not fit the slots. */
  ghost predicate Homed(c: Config, p: Places)
  {
    Wellformed(p) && Listed(p) && Exclusive(p) && Counted(c, p)
  }

  ghost predicate Wellformed(p: Places)
  {
    forall u :: u in p.units ==> Sound(p, p.units[u])
  }

  ghost predicate Sound(p: Places, u: Unit)
  {
    && Normal(u.ranges) && (u.slot.Some? <==> u.home.None?)
    && (u.slot.Some? ==> u.slot.value < p.nextSlot) && (u.home.Some? ==> u.home.value < p.nextHome)
  }

  ghost predicate Listed(p: Places)
  {
    && (forall i, j :: 0 <= i < j < |p.resident| ==> p.resident[i] != p.resident[j])
    && (forall u: nat :: u in p.resident <==> u in p.units && p.units[u].slot.Some?)
  }

  ghost predicate Exclusive(p: Places)
  {
    forall u, v :: u in p.units && v in p.units && u != v ==> Elsewhere(p.units[u], p.units[v])
  }

  ghost predicate Counted(c: Config, p: Places)
  {
    && |p.resident| == p.nextSlot <= c.slots && p.nextHome == |p.units| - p.nextSlot <= c.homes
    && (p.nextHome > 0 ==> p.nextSlot == c.slots)
  }

  ghost predicate Elsewhere(a: Unit, b: Unit)
  {
    && (a.slot.Some? && b.slot.Some? ==> a.slot != b.slot)
    && (a.home.Some? && b.home.Some? ==> a.home != b.home)
  }

  /** Demotions are exactly the units beyond the slots. */
  lemma DemotionsExact(c: Config, p: Places)
    requires Homed(c, p)
    ensures p.nextHome == if |p.units| > c.slots then |p.units| - c.slots else 0
    ensures |p.units| <= c.slots + c.homes
  {
  }

  ghost function Holding(u: Unit, hbm: Content, flash: Content, x: nat): nat
  {
    if u.slot.Some? then hbm(u.slot.value, x) else if u.home.Some? then flash(u.home.value, x) else 0
  }

  /** Every written byte is where its unit lives, with the value written last. */
  ghost predicate Intact(p: Places, hbm: Content, flash: Content, flat: Content)
  {
    forall u, x: nat :: u in p.units && In(p.units[u].ranges, x) ==> Holding(p.units[u], hbm, flash, x) == flat(u, x)
  }

  ghost function Known(p: Places): Written
  {
    map u | u in p.units :: WrittenIn(p.units[u].ranges)
  }

  // ------------------------------------------------------------------- births

  lemma BornFresh(c: Config, p: Places, unit: nat)
    requires Homed(c, p) && unit !in p.units && p.nextSlot < c.slots
    ensures Homed(c, Places(p.units[unit := Unit([], Some(p.nextSlot), None)], p.resident + [unit], p.nextSlot + 1, p.nextHome))
  {
    hide Normal, Elsewhere, Sound;
    var q := Places(p.units[unit := Unit([], Some(p.nextSlot), None)], p.resident + [unit], p.nextSlot + 1, p.nextHome);
    assert q.units.Keys == p.units.Keys + {unit};
    FreshListed(p, q, unit);
    FreshSound(p, q, unit);
    FreshExclusive(p, q, unit);
    hide Listed, Wellformed, Exclusive;
  }

  lemma FreshExclusive(p: Places, q: Places, unit: nat)
    requires Wellformed(p) && Exclusive(p) && unit !in p.units && q.units == p.units[unit := Unit([], Some(p.nextSlot), None)]
    ensures Exclusive(q)
  {
    hide Wellformed, Elsewhere;
    forall u, v | u in q.units && v in q.units && u != v ensures Elsewhere(q.units[u], q.units[v]) {
      FreshElsewhere(p, u, v, unit);
    }
  }

  lemma FreshListed(p: Places, q: Places, unit: nat)
    requires Listed(p) && unit !in p.units && q.resident == p.resident + [unit]
    requires q.units == p.units[unit := Unit([], Some(p.nextSlot), None)]
    ensures Listed(q)
  {
    assert unit !in p.resident;
  }

  lemma FreshSound(p: Places, q: Places, unit: nat)
    requires Wellformed(p) && unit !in p.units && q.nextSlot == p.nextSlot + 1 && q.nextHome == p.nextHome
    requires q.units == p.units[unit := Unit([], Some(p.nextSlot), None)]
    ensures Wellformed(q)
  {
    Nothing();
    hide Normal;
    forall u | u in q.units ensures Sound(q, q.units[u]) {
      assert u != unit ==> Sound(p, p.units[u]);
    }
  }

  lemma FreshElsewhere(p: Places, u: nat, v: nat, unit: nat)
    requires Wellformed(p) && Exclusive(p) && unit !in p.units && u != v
    requires (u in p.units || u == unit) && (v in p.units || v == unit)
    ensures var units := p.units[unit := Unit([], Some(p.nextSlot), None)]; Elsewhere(units[u], units[v])
  {
    if u in p.units && v in p.units {
      assert Elsewhere(p.units[u], p.units[v]);
    } else if u in p.units {
      assert Sound(p, p.units[u]);
    } else if v in p.units {
      assert Sound(p, p.units[v]);
    }
  }

  /** The oldest resident moves out, and the new unit takes over its slot. */
  ghost function Relieved(p: Places, unit: nat): Places
    requires p.resident != [] && p.resident[0] in p.units
  {
    var oldest := p.resident[0];
    var out := p.units[oldest].(slot := None, home := Some(p.nextHome));
    Places(p.units[oldest := out][unit := Unit([], p.units[oldest].slot, None)], p.resident[1..] + [unit], p.nextSlot, p.nextHome + 1)
  }

  lemma BornByDemotion(c: Config, p: Places, unit: nat)
    requires Homed(c, p) && unit !in p.units && p.nextSlot == c.slots > 0 && c.Holds(|p.units| + 1)
    ensures p.resident != [] && p.resident[0] in p.units && p.units[p.resident[0]].slot.Some?
    ensures Homed(c, Relieved(p, unit))
  {
    hide Normal, Elsewhere, Sound;
    var oldest := p.resident[0];
    assert oldest in p.resident;
    assert unit !in p.resident;
    RelievedSize(p, unit);
    RelievedListed(p, unit);
    RelievedSound(p, unit);
    RelievedElsewhere(c, p, unit);
  }

  lemma RelievedListed(p: Places, unit: nat)
    requires Listed(p) && unit !in p.units && p.resident != [] && p.resident[0] in p.units && p.units[p.resident[0]].slot.Some?
    ensures Listed(Relieved(p, unit))
  {
    var oldest, rest, q := p.resident[0], p.resident[1..], Relieved(p, unit);
    assert forall k :: 0 <= k < |rest| ==> rest[k] == p.resident[k + 1];
    forall u: nat ensures u in q.resident <==> u in q.units && q.units[u].slot.Some? {
      assert u in p.resident <==> u == oldest || u in rest;
    }
  }

  lemma RelievedSound(p: Places, unit: nat)
    requires Wellformed(p) && unit !in p.units && p.resident != [] && p.resident[0] in p.units && p.units[p.resident[0]].slot.Some?
    ensures Wellformed(Relieved(p, unit))
  {
    var q := Relieved(p, unit);
    Nothing();
    hide Normal;
    assert Sound(p, p.units[p.resident[0]]);
    forall u | u in q.units ensures Sound(q, q.units[u]) {
      assert u != unit ==> Sound(p, p.units[u]);
    }
  }

  lemma RelievedSize(p: Places, unit: nat)
    requires unit !in p.units && p.resident != [] && p.resident[0] in p.units
    ensures |Relieved(p, unit).units| == |p.units| + 1
  {
    var oldest := p.resident[0];
    var out := p.units[oldest].(slot := None, home := Some(p.nextHome));
    var moved := p.units[oldest := out];
    assert moved.Keys == p.units.Keys;
    assert Relieved(p, unit).units.Keys == p.units.Keys + {unit};
  }

  lemma RelievedElsewhere(c: Config, p: Places, unit: nat)
    requires Wellformed(p) && Exclusive(p) && unit !in p.units
    requires p.resident != [] && p.resident[0] in p.units && p.units[p.resident[0]].slot.Some?
    ensures Exclusive(Relieved(p, unit))
  {
    hide Normal;
    var q := Relieved(p, unit);
    assert forall u :: u in p.units ==> Sound(p, p.units[u]);
    forall u, v | u in q.units && v in q.units && u != v ensures Elsewhere(q.units[u], q.units[v]) {
      if u != unit && v != unit {
        assert Elsewhere(p.units[u], p.units[v]);
      } else {
        var w, oldest := if u == unit then v else u, p.resident[0];
        if w != oldest {
          assert Elsewhere(p.units[w], p.units[oldest]);
        }
      }
    }
  }

  class PeerRemapper {
    const c: Config
    var units: map<nat, Unit>
    /** Least recently used first. */
    var resident: seq<nat>
    var nextSlot: nat
    var nextHome: nat
    ghost var Hbm: Content
    ghost var Flash: Content
    /** What each canonical byte was last given. */
    ghost var Flat: Content

    ghost function P(): Places
      reads this
    {
      Places(units, resident, nextSlot, nextHome)
    }

    ghost predicate Valid()
      reads this
    {
      c.Valid() && Homed(c, P()) && Intact(P(), Hbm, Flash, Flat)
    }

    constructor (c: Config, ghost hbm: Content, ghost flash: Content, ghost flat: Content)
      requires c.Valid()
      ensures Valid() && this.c == c && units == map[] && Known(P()) == map[]
    {
      this.c := c;
      units, resident, nextSlot, nextHome := map[], [], 0, 0;
      Hbm, Flash, Flat := hbm, flash, flat;
    }

    /** Walks through a trace without placing anything: only birth counts and written ranges. */
    method Preflight(accesses: seq<Access>) returns (ok: bool)
      requires c.Valid() && forall i :: 0 <= i < |accesses| ==> InUnit(c, accesses[i].segment)
      ensures ok <==> FollowAll(c, map[], accesses).Some?
    {
      hide Follow, Normal, InUnit;
      var seen: map<nat, seq<Interval>> := map[];
      assert Ranges(seen) == map[];
      for i := 0 to |accesses|
        invariant AllNormal(seen) && FollowAll(c, map[], accesses[..i]) == Some(Ranges(seen))
      {
        assert accesses[..i + 1][..i] == accesses[..i];
        ok, seen := Check(accesses[i], seen);
        if !ok {
          FollowStops(c, map[], accesses, i + 1);
          return;
        }
      }
      assert accesses[..|accesses|] == accesses;
      ok := true;
    }

    method Check(access: Access, seen: map<nat, seq<Interval>>) returns (ok: bool, next: map<nat, seq<Interval>>)
      requires c.Valid() && InUnit(c, access.segment) && AllNormal(seen)
      ensures ok <==> Follow(c, Ranges(seen), access).Some?
      ensures ok ==> AllNormal(next) && Follow(c, Ranges(seen), access) == Some(Ranges(next))
    {
      hide Normal, WrittenIn, In;
      var place := access.segment.place;
      RangesKeys(seen);
      ok, next := true, seen;
      if place.Static? {
        return;
      }
      var begin, end := place.offset, place.offset + access.segment.bytes;
      if access.write {
        ok := place.unit in seen || c.Holds(|seen| + 1);
        if ok {
          NoRanges();
          var merged := Extend(if place.unit in seen then seen[place.unit] else [], begin, end);
          ExtendedKnown(seen, place.unit, merged, begin, end);
          next := seen[place.unit := merged];
        }
      } else {
        ok := place.unit in seen;
        if ok {
          ok := Covers(seen[place.unit], begin, end);
        }
      }
    }

    /** Copies the oldest resident's written ranges, chunk by chunk and nothing else, to a new home. */
    method CopyOut(unit: nat, home: nat)
      requires c.Valid() && unit in units && units[unit].slot.Some?
      modifies this`Flash
      ensures forall x: nat :: In(units[unit].ranges, x) ==> Flash(home, x) == Hbm(units[unit].slot.value, x)
      ensures forall h: nat, x: nat :: h != home || !In(units[unit].ranges, x) ==> Flash(h, x) == old(Flash)(h, x)
    {
      var ranges, slot := units[unit].ranges, units[unit].slot.value;
      Nothing();
      assert ranges[..0] == [];
      for i := 0 to |ranges|
        invariant forall x: nat :: In(ranges[..i], x) ==> Flash(home, x) == Hbm(slot, x)
        invariant forall h: nat, x: nat :: h != home || !In(ranges[..i], x) ==> Flash(h, x) == old(Flash)(h, x)
      {
        ghost var before := Flash;
        CopyRange(slot, home, ranges[i]);
        assert ranges[..i + 1] == ranges[..i] + [ranges[i]];
        InAll(ranges[..i], [ranges[i]]);
        SingleMeans(ranges[i]);
      }
      assert ranges[..|ranges|] == ranges;
    }

    method CopyRange(slot: nat, home: nat, range: Interval)
      requires c.Valid()
      modifies this`Flash
      ensures forall x: nat :: range.Has(x) ==> Flash(home, x) == Hbm(slot, x)
      ensures forall h: nat, x: nat :: h != home || !range.Has(x) ==> Flash(h, x) == old(Flash)(h, x)
    {
      var cursor := range.lo;
      while cursor < range.hi
        invariant range.lo <= cursor
        invariant forall x: nat :: range.lo <= x < cursor && x < range.hi ==> Flash(home, x) == Hbm(slot, x)
        invariant forall h: nat, x: nat :: h != home || !(range.lo <= x < cursor && x < range.hi) ==> Flash(h, x) == old(Flash)(h, x)
      {
        var count := if range.hi - cursor < c.chunk then range.hi - cursor else c.chunk;
        Flash := Stored(Flash, home, cursor, cursor + count, Row(Hbm, slot));
        cursor := cursor + count;
      }
    }

    /** A unit is born in a slot never used, or in the slot of the least recently used unit. */
    method Bear(unit: nat)
      requires Valid() && unit !in units && c.Holds(|units| + 1)
      modifies this
      ensures Valid() && Flat == old(Flat) && units.Keys == old(units).Keys + {unit}
      ensures units[unit].ranges == [] && units[unit].slot.Some?
      ensures forall u :: u in old(units) ==> units[u].ranges == old(units)[u].ranges
      ensures Turn(c, old(P()), P(), unit)
    {
      hide Homed, In, Turn;
      ghost var p := P();
      Nothing();
      if nextSlot < c.slots {
        BornFresh(c, p, unit);
        FreshTurn(c, p, unit);
        BornIntact(p, unit, nextSlot, Hbm, Flash, Flat);
        units := units[unit := Unit([], Some(nextSlot), None)];
        resident := resident + [unit];
        nextSlot := nextSlot + 1;
        return;
      }
      SlotsFull(c, p);
      BornByDemotion(c, p, unit);
      RelievedTurn(c, p, unit);
      var oldest := resident[0];
      ghost var flash := Flash;
      CopyOut(oldest, nextHome);
      DemotedIntact(c, p, unit, Hbm, flash, Flash, Flat);
      var slot := units[oldest].slot;
      units := units[oldest := units[oldest].(slot := None, home := Some(nextHome))][unit := Unit([], slot, None)];
      nextHome := nextHome + 1;
      resident := resident[1..] + [unit];
      assert P() == Relieved(p, unit);
    }

    /** One access.  It raises exactly when a reader without placement would: a read of unwritten
        bytes, or one unit too many.  Afterwards the unit's only place holds, for every byte of the
        access, what was written there last. */
    method Touch(access: Access, ghost data: nat -> nat) returns (ok: bool)
      requires Valid() && InUnit(c, access.segment)
      modifies this
      ensures ok <==> Follow(c, old(Known(P())), access).Some?
      ensures ok ==> Valid() && Follow(c, old(Known(P())), access) == Some(Known(P()))
      ensures ok ==> Flat == Updated(old(Flat), access, data)
      ensures ok ==> Shown(P(), access, Hbm, Flash, Flat) && Turns(c, old(P()), P(), access)
    {
      hide Homed, Intact, Sound, WrittenIn, Follow, Updated, Shown, InUnit, Turn;
      var place := access.segment.place;
      if place.Static? {
        StaticAccess(c, P(), access, Hbm, Flash, Flat, data);
        return true;
      }
      KnownMeans(c, P());
      if access.write {
        ok := TouchWrite(access, place.unit, place.offset, access.segment.bytes, data);
      } else {
        ok := TouchRead(access, place.unit, place.offset, access.segment.bytes, data);
      }
    }

    method TouchRead(access: Access, unit: nat, begin: nat, bytes: nat, ghost data: nat -> nat) returns (ok: bool)
      requires Valid() && InUnit(c, access.segment) && access == Access(false, Segment(Kv(unit, begin), bytes))
      modifies this`resident
      ensures ok <==> Follow(c, Known(old(P())), access).Some?
      ensures ok ==> Valid() && Follow(c, Known(old(P())), access) == Some(Known(P()))
      ensures ok ==> Flat == Updated(Flat, access, data) && Shown(P(), access, Hbm, Flash, Flat) && Turn(c, old(P()), P(), unit)
    {
      hide Homed, Intact, Sound, WrittenIn, Normal, In, Turn;
      ghost var p := P();
      KnownMeans(c, p);
      if unit !in units {
        return false;
      }
      SoundMeans(p, units[unit]);
      ok := Covers(units[unit].ranges, begin, begin + bytes);
      if ok {
        ReadIntact(p, unit, begin, begin + bytes, Hbm, Flash, Flat);
        Use(unit);
        UsedKnown(p, P());
      }
    }

    method TouchWrite(access: Access, unit: nat, begin: nat, bytes: nat, ghost data: nat -> nat) returns (ok: bool)
      requires Valid() && InUnit(c, access.segment) && access == Access(true, Segment(Kv(unit, begin), bytes))
      modifies this
      ensures ok <==> Follow(c, old(Known(P())), access).Some?
      ensures ok ==> Valid() && Follow(c, old(Known(P())), access) == Some(Known(P()))
      ensures ok ==> Flat == Updated(old(Flat), access, data) && Shown(P(), access, Hbm, Flash, Flat) && Turn(c, old(P()), P(), unit)
    {
      hide Homed, Intact, Sound, WrittenIn, Normal, In, Known, Stored, Follow, Turn, SamePlaces;
      ghost var known, first := Known(P()), P();
      ok := EnsureBorn(unit);
      if ok {
        ghost var p := P();
        Store(unit, begin, begin + bytes, data);
        TurnKept(c, first, p, P(), unit);
      }
      WriteFollows(c, known, access, ok, Known(P()));
    }

    /** Makes sure that the unit has a place. */
    method EnsureBorn(unit: nat) returns (ok: bool)
      requires Valid()
      modifies this
      ensures Flat == old(Flat)
      ensures ok <==> unit in old(Known(P())) || c.Holds(|old(Known(P()))| + 1)
      ensures !ok ==> Known(P()) == old(Known(P()))
      ensures ok ==> Valid() && unit in units
      ensures ok ==> Known(P()) == if unit in old(Known(P())) then old(Known(P())) else old(Known(P()))[unit := {}]
      ensures ok ==> Turn(c, old(P()), P(), unit)
    {
      hide Homed, Intact, Sound, WrittenIn, Normal, In, Turn;
      ghost var p := P();
      KnownMeans(c, p);
      ok := unit in units || c.Holds(|units| + 1);
      if ok {
        if unit !in units {
          Bear(unit);
          BornKnown(p, P(), unit);
        }
        ghost var born := P();
        Use(unit);
        UsedKnown(born, P());
        if unit !in p.units {
          ResidentsDiffer(c, born);
          TurnTwice(c, p, born, P(), unit);
        }
      }
    }

    /** Puts data where the unit lives. */
    method Store(unit: nat, begin: nat, end: nat, ghost data: nat -> nat)
      requires Valid() && unit in units && begin < end
      modifies this
      ensures Valid() && unit in units && unit in old(Known(P()))
      ensures Known(P()) == old(Known(P()))[unit := old(Known(P()))[unit] + Bytes(begin, end - begin)]
      ensures Flat == Stored(old(Flat), unit, begin, end, data)
      ensures forall x :: x in Bytes(begin, end - begin) ==> Holding(units[unit], Hbm, Flash, x) == Flat(unit, x)
      ensures SamePlaces(old(P()), P())
    {
      hide Homed, Intact, WrittenIn, In, SamePlaces, Stays, Normal, Sound, Holding;
      ghost var q := P();
      KnownMeans(c, q);
      SoundMeans(q, units[unit]);
      var merged := Extend(units[unit].ranges, begin, end);
      WriteIntact(c, q, unit, merged, begin, end, Hbm, Flash, Flat, data);
      if units[unit].slot.Some? {
        Hbm := Stored(Hbm, units[unit].slot.value, begin, end, data);
      } else {
        Flash := Stored(Flash, units[unit].home.value, begin, end, data);
      }
      Flat := Stored(Flat, unit, begin, end, data);
      WrittenPlaces(q, unit, merged);
      units := units[unit := units[unit].(ranges := merged)];
    }

    /** A resident unit becomes the most recently used one. */
    method Use(unit: nat)
      requires Valid() && unit in units
      modifies this`resident
      ensures Valid() && units == old(units) && Turn(c, old(P()), P(), unit)
    {
      if units[unit].slot.Some? {
        ghost var p := P();
        MovedToEnd(c, p, unit);
        OthersOrder(resident, unit);
        resident := Others(resident, unit) + [unit];
      }
    }

    /** A whole trace, access by access, until one raises.  All the while the places show what flat
        memory would: `views` is what they were after each access. */
    method Remap(accesses: seq<Access>, ghost data: nat -> nat -> nat) returns (ok: bool, ghost views: seq<Moment>)
      requires Valid() && forall i :: 0 <= i < |accesses| ==> InUnit(c, accesses[i].segment)
      modifies this
      ensures ok <==> FollowAll(c, old(Known(P())), accesses).Some?
      ensures ok ==> Valid() && FollowAll(c, old(Known(P())), accesses) == Some(Known(P()))
      ensures ok ==> Flat == UpdatedAll(old(Flat), accesses, data)
      ensures ok ==> Refines(old(Flat), accesses, data, views) && Taken(c, old(P()), accesses, views)
    {
      hide Homed, Intact, Follow, Updated, Shown, Turns, Refines, Taken;
      views := [];
      NoMoments(c, P(), Flat, accesses, data);
      for i := 0 to |accesses|
        invariant Valid() && FollowAll(c, old(Known(P())), accesses[..i]) == Some(Known(P()))
        invariant Flat == UpdatedAll(old(Flat), accesses[..i], data) && Refines(old(Flat), accesses[..i], data, views)
        invariant |views| == i && Taken(c, old(P()), accesses[..i], views) && P() == PlacesAt(old(P()), views, i)
      {
        assert accesses[..i + 1][..i] == accesses[..i];
        ghost var before := P();
        ok := Touch(accesses[i], data(i));
        if !ok {
          assert FollowAll(c, old(Known(P())), accesses[..i + 1]).None?;
          FollowStops(c, old(Known(P())), accesses, i + 1);
          return;
        }
        ghost var now := Moment(P(), Hbm, Flash, Flat);
        OneMoment(old(Flat), accesses, data, views, i, now);
        OneTaken(c, old(P()), accesses, views, i, now);
        views := views + [now];
      }
      assert accesses[..|accesses|] == accesses;
      ok := true;
    }

    /** On a fresh remapper a trace that passes the preflight is remapped without raising, refines flat
        memory, and the demotions are exactly the units that do not fit the slots. */
    method Serve(accesses: seq<Access>, ghost data: nat -> nat -> nat) returns (passed: bool, ok: bool, ghost views: seq<Moment>)
      requires Valid() && Known(P()) == map[] && forall i :: 0 <= i < |accesses| ==> InUnit(c, accesses[i].segment)
      modifies this
      ensures passed <==> FollowAll(c, map[], accesses).Some?
      ensures passed ==> ok && Valid() && nextHome == if |units| > c.slots then |units| - c.slots else 0
      ensures passed ==> Flat == UpdatedAll(old(Flat), accesses, data) && Refines(old(Flat), accesses, data, views)
      ensures passed ==> Taken(c, old(P()), accesses, views)
      ensures !passed ==> Flat == old(Flat)
    {
      hide Refines, Taken;
      passed := Preflight(accesses);
      ok, views := false, [];
      if passed {
        ok, views := Remap(accesses, data);
        DemotionsExact(c, P());
      }
    }
  }

  /** The places and what is in them, beside flat memory. */
  datatype Moment = Moment(p: Places, hbm: Content, flash: Content, flat: Content)

  // ------------------------------------------------------- who lives in which slot

  /** The unit is the youngest, and the others keep their order. */
  ghost predicate Youngest(before: seq<nat>, after: seq<nat>, unit: nat)
  {
    exists i: nat :: i < |before| && before[i] == unit && after == before[..i] + before[i + 1..] + [unit]
  }

  ghost predicate Stays(p: Places, q: Places, units: set<nat>)
  {
    forall u :: u in units && u in p.units ==> u in q.units && q.units[u].slot == p.units[u].slot && q.units[u].home == p.units[u].home
  }

  /** What one access does to the places.  A resident unit becomes the youngest, a demoted one stays in
      flash; a new unit takes the next slot, or else the slot of the oldest resident, which moves to
      the next home in flash. */
  ghost predicate Turn(c: Config, p: Places, q: Places, unit: nat)
  {
    if unit in p.units then
      && q.nextSlot == p.nextSlot && q.nextHome == p.nextHome && Stays(p, q, p.units.Keys)
      && if p.units[unit].slot.Some? then Youngest(p.resident, q.resident, unit) else q.resident == p.resident
    else if p.nextSlot < c.slots then
      && q.nextSlot == p.nextSlot + 1 && q.nextHome == p.nextHome && Stays(p, q, p.units.Keys)
      && q.resident == p.resident + [unit] && Settled(q, unit, Some(p.nextSlot), None)
    else
      && p.resident != [] && p.resident[0] in p.units
      && q.nextSlot == p.nextSlot && q.nextHome == p.nextHome + 1 && Stays(p, q, p.units.Keys - {p.resident[0]})
      && q.resident == p.resident[1..] + [unit] && Settled(q, unit, p.units[p.resident[0]].slot, None)
      && Settled(q, p.resident[0], None, Some(p.nextHome))
  }

  ghost predicate Settled(p: Places, unit: nat, slot: Option<nat>, home: Option<nat>)
  {
    unit in p.units && p.units[unit].slot == slot && p.units[unit].home == home
  }

  ghost predicate Turns(c: Config, p: Places, q: Places, access: Access)
  {
    match access.segment.place
    case Static(_) => q == p
    case Kv(unit, _) => Turn(c, p, q, unit)
  }

  /** The same places, whatever has been written there. */
  ghost predicate SamePlaces(p: Places, q: Places)
  {
    q.resident == p.resident && q.nextSlot == p.nextSlot && q.nextHome == p.nextHome && q.units.Keys == p.units.Keys
    && Stays(p, q, p.units.Keys)
  }

  lemma WrittenPlaces(p: Places, unit: nat, ranges: seq<Interval>)
    requires unit in p.units
    ensures SamePlaces(p, p.(units := p.units[unit := p.units[unit].(ranges := ranges)]))
  {
  }

  lemma FreshTurn(c: Config, p: Places, unit: nat)
    requires unit !in p.units && p.nextSlot < c.slots
    ensures Turn(c, p, Places(p.units[unit := Unit([], Some(p.nextSlot), None)], p.resident + [unit], p.nextSlot + 1, p.nextHome), unit)
  {
  }

  lemma RelievedTurn(c: Config, p: Places, unit: nat)
    requires unit !in p.units && p.nextSlot >= c.slots && p.resident != [] && p.resident[0] in p.units
    ensures Turn(c, p, Relieved(p, unit), unit)
  {
  }

  lemma ResidentsDiffer(c: Config, p: Places)
    requires Homed(c, p)
    ensures forall i, j :: 0 <= i < j < |p.resident| ==> p.resident[i] != p.resident[j]
  {
  }

  lemma TurnKept(c: Config, p: Places, q: Places, r: Places, unit: nat)
    requires Turn(c, p, q, unit) && SamePlaces(q, r)
    ensures Turn(c, p, r, unit)
  {
    hide Youngest;
  }

  /** A unit that has just been born is the youngest already. */
  lemma TurnTwice(c: Config, p: Places, q: Places, r: Places, unit: nat)
    requires unit !in p.units && Turn(c, p, q, unit) && Turn(c, q, r, unit) && r.units == q.units
    requires forall i, j :: 0 <= i < j < |q.resident| ==> q.resident[i] != q.resident[j]
    requires q.units[unit].slot.Some?
    ensures Turn(c, p, r, unit)
  {
    assert r.resident == q.resident by {
      var n := |q.resident| - 1;
      var i: nat :| i < |q.resident| && q.resident[i] == unit && r.resident == q.resident[..i] + q.resident[i + 1..] + [unit];
      assert q.resident[n] == unit;
      assert i == n;
      assert q.resident == q.resident[..n] + [unit];
    }
    hide Youngest;
    assert r == q;
  }

  lemma OthersOrder(s: seq<nat>, unit: nat)
    requires unit in s
    ensures Youngest(s, Others(s, unit) + [unit], unit)
  {
    var i := Left(s, unit);
    assert Others(s, unit) + [unit] == s[..i] + s[i + 1..] + [unit];
  }

  /** The unit leaves its place. */
  lemma {:induction false} Left(s: seq<nat>, unit: nat) returns (i: nat)
    requires unit in s
    ensures i < |s| && s[i] == unit && Others(s, unit) == s[..i] + s[i + 1..]
  {
    if s[0] == unit {
      i := 0;
      assert Others(s, unit) == s[..0] + s[1..];
    } else {
      var k := Left(s[1..], unit);
      i := k + 1;
      assert s[..i] == [s[0]] + s[1..][..k] && s[i + 1..] == s[1..][k + 1..];
    }
  }

  lemma NoMoments(c: Config, first: Places, flat: Content, accesses: seq<Access>, data: nat -> nat -> nat)
    ensures Refines(flat, accesses[..0], data, []) && Taken(c, first, accesses[..0], [])
  {
  }

  /** The places before access i. */
  ghost function PlacesAt(first: Places, views: seq<Moment>, i: nat): Places
    requires i <= |views|
  {
    if i == 0 then first else views[i - 1].p
  }

  /** Access by access, the places change as they have to. */
  ghost predicate Taken(c: Config, first: Places, accesses: seq<Access>, views: seq<Moment>)
  {
    |views| == |accesses| && forall i :: 0 <= i < |accesses| ==> Turns(c, PlacesAt(first, views, i), views[i].p, accesses[i])
  }

  lemma OneTaken(c: Config, first: Places, accesses: seq<Access>, views: seq<Moment>, i: nat, now: Moment)
    requires i < |accesses| && Taken(c, first, accesses[..i], views) && Turns(c, PlacesAt(first, views, i), now.p, accesses[i])
    ensures Taken(c, first, accesses[..i + 1], views + [now])
  {
    hide Turns;
    var longer, more := accesses[..i + 1], views + [now];
    forall k | 0 <= k < |longer| ensures Turns(c, PlacesAt(first, more, k), more[k].p, longer[k]) {
      if k < i {
        assert Turns(c, PlacesAt(first, views, k), views[k].p, accesses[..i][k]);
      }
    }
  }

  /** Flat memory after a trace. */
  ghost function UpdatedAll(flat: Content, accesses: seq<Access>, data: nat -> nat -> nat): Content
  {
    if accesses == [] then flat
    else
      var n := |accesses| - 1;
      Updated(UpdatedAll(flat, accesses[..n], data), accesses[n], data(n))
  }

  /** After every access flat memory is as the trace so far has left it, and the bytes accessed are
      in place as they are there. */
  ghost predicate Refines(flat: Content, accesses: seq<Access>, data: nat -> nat -> nat, views: seq<Moment>)
  {
    |views| == |accesses| && forall i :: 0 <= i < |accesses| ==> RefinesAt(flat, accesses, data, views[i], i)
  }

  ghost predicate RefinesAt(flat: Content, accesses: seq<Access>, data: nat -> nat -> nat, view: Moment, i: nat)
    requires i < |accesses|
  {
    view.flat == UpdatedAll(flat, accesses[..i + 1], data) && Shown(view.p, accesses[i], view.hbm, view.flash, view.flat)
  }

  lemma OneMoment(flat: Content, accesses: seq<Access>, data: nat -> nat -> nat, views: seq<Moment>, i: nat, now: Moment)
    requires i < |accesses| && Refines(flat, accesses[..i], data, views)
    requires now.flat == Updated(UpdatedAll(flat, accesses[..i], data), accesses[i], data(i))
    requires Shown(now.p, accesses[i], now.hbm, now.flash, now.flat)
    ensures now.flat == UpdatedAll(flat, accesses[..i + 1], data) && Refines(flat, accesses[..i + 1], data, views + [now])
  {
    hide Shown, Updated;
    var longer := accesses[..i + 1];
    assert longer[..i] == accesses[..i];
    forall k | 0 <= k < |longer| ensures RefinesAt(flat, longer, data, (views + [now])[k], k) {
      if k < i {
        assert RefinesAt(flat, accesses[..i], data, views[k], k);
        assert accesses[..i][..k + 1] == longer[..k + 1];
      } else {
        assert longer[..k + 1] == longer;
      }
    }
  }

  ghost function Ranges(seen: map<nat, seq<Interval>>): Written
  {
    map u | u in seen :: WrittenIn(seen[u])
  }

  ghost predicate AllNormal(seen: map<nat, seq<Interval>>)
  {
    forall u :: u in seen ==> Normal(seen[u])
  }

  lemma RangesKeys(seen: map<nat, seq<Interval>>)
    ensures Ranges(seen).Keys == seen.Keys && |Ranges(seen)| == |seen|
    ensures forall u :: u in seen ==> Ranges(seen)[u] == WrittenIn(seen[u])
  {
    hide WrittenIn;
    SameSize(Ranges(seen), seen);
  }

  lemma NoRanges()
    ensures Normal([])
  {
  }

  lemma ExtendedKnown(seen: map<nat, seq<Interval>>, unit: nat, merged: seq<Interval>, begin: nat, end: nat)
    requires begin < end
    requires forall x: nat :: In(merged, x) <==> In(if unit in seen then seen[unit] else [], x) || begin <= x < end
    ensures Ranges(seen[unit := merged]) ==
      Ranges(seen)[unit := (if unit in Ranges(seen) then Ranges(seen)[unit] else {}) + Bytes(begin, end - begin)]
  {
    hide In;
    Nothing();
    var before := if unit in seen then WrittenIn(seen[unit]) else {};
    assert WrittenIn(merged) == before + Bytes(begin, end - begin);
  }

  lemma KnownMeans(c: Config, p: Places)
    requires Homed(c, p)
    ensures Known(p).Keys == p.units.Keys && |Known(p)| == |p.units|
    ensures forall u :: u in p.units ==> Known(p)[u] == WrittenIn(p.units[u].ranges)
    ensures forall u :: u in p.units ==> Sound(p, p.units[u])
  {
    hide Normal, Elsewhere, Sound, WrittenIn;
    SameSize(Known(p), p.units);
  }

  lemma SameSize<S, T>(a: map<nat, S>, b: map<nat, T>)
    requires a.Keys == b.Keys
    ensures |a| == |b|
  {
    assert |a.Keys| == |a| && |b.Keys| == |b|;
  }

  lemma SoundMeans(p: Places, u: Unit)
    requires Sound(p, u)
    ensures Normal(u.ranges) && (u.slot.Some? <==> u.home.None?)
  {
  }

  lemma WriteFollows(c: Config, known: Written, access: Access, ok: bool, after: Written)
    requires access.write && access.segment.place.Kv?
    requires var unit := access.segment.place.unit;
      var born := if unit in known then known else known[unit := {}];
      && (ok <==> unit in known || c.Holds(|known| + 1))
      && (ok ==> after == born[unit := born[unit] + Bytes(access.segment.place.offset, access.segment.bytes)])
    ensures ok <==> Follow(c, known, access).Some?
    ensures ok ==> Follow(c, known, access) == Some(after)
  {
    if ok {
      var unit := access.segment.place.unit;
      var born := if unit in known then known else known[unit := {}];
      assert after == known[unit := born[unit] + Bytes(access.segment.place.offset, access.segment.bytes)];
    }
  }

  /** What an access makes of the flat memory. */
  ghost function Updated(flat: Content, access: Access, data: nat -> nat): Content
  {
    if access.write && access.segment.place.Kv?
    then Stored(flat, access.segment.place.unit, access.segment.place.offset,
                access.segment.place.offset + access.segment.bytes, data)
    else flat
  }

  /** The accessed bytes stand at the unit's place as the flat memory has them. */
  ghost predicate Shown(p: Places, access: Access, hbm: Content, flash: Content, flat: Content)
  {
    access.segment.place.Kv? ==>
      && access.segment.place.unit in p.units
      && forall x :: x in Bytes(access.segment.place.offset, access.segment.bytes) ==>
           Holding(p.units[access.segment.place.unit], hbm, flash, x) == flat(access.segment.place.unit, x)
  }

  lemma StaticAccess(c: Config, p: Places, access: Access, hbm: Content, flash: Content, flat: Content, data: nat -> nat)
    requires access.segment.place.Static?
    ensures Follow(c, Known(p), access) == Some(Known(p)) && Updated(flat, access, data) == flat && Shown(p, access, hbm, flash, flat)
  {
  }

  lemma SlotsFull(c: Config, p: Places)
    requires Homed(c, p) && p.nextSlot >= c.slots
    ensures p.nextSlot == c.slots
  {
  }

  lemma BornIntact(p: Places, unit: nat, slot: nat, hbm: Content, flash: Content, flat: Content)
    requires Intact(p, hbm, flash, flat) && unit !in p.units
    ensures Intact(p.(units := p.units[unit := Unit([], Some(slot), None)]), hbm, flash, flat)
    ensures forall q: Places :: q.units == p.units[unit := Unit([], Some(slot), None)] ==> Intact(q, hbm, flash, flat)
  {
    Nothing();
  }

  /** The copy holds the demoted unit's written bytes; nobody else's home was touched. */
  lemma DemotedIntact(c: Config, p: Places, unit: nat, hbm: Content, before: Content, after: Content, flat: Content)
    requires Homed(c, p) && Intact(p, hbm, before, flat) && unit !in p.units
    requires p.resident != [] && p.resident[0] in p.units && p.units[p.resident[0]].slot.Some?
    requires var oldest := p.units[p.resident[0]];
      && (forall x: nat :: In(oldest.ranges, x) ==> after(p.nextHome, x) == hbm(oldest.slot.value, x))
      && (forall h: nat, x: nat :: h != p.nextHome || !In(oldest.ranges, x) ==> after(h, x) == before(h, x))
    ensures Intact(Relieved(p, unit), hbm, after, flat)
  {
    Nothing();
    var q, oldest := Relieved(p, unit), p.resident[0];
    forall u, x: nat | u in q.units && In(q.units[u].ranges, x) ensures Holding(q.units[u], hbm, after, x) == flat(u, x) {
      if u != unit {
        assert Holding(p.units[u], hbm, before, x) == flat(u, x);
      }
    }
  }

  lemma ReadIntact(p: Places, unit: nat, begin: nat, end: nat, hbm: Content, flash: Content, flat: Content)
    requires Intact(p, hbm, flash, flat) && unit in p.units && begin < end
    requires Bytes(begin, end - begin) <= WrittenIn(p.units[unit].ranges)
    ensures forall x :: x in Bytes(begin, end - begin) ==> Holding(p.units[unit], hbm, flash, x) == flat(unit, x)
  {
  }

  lemma BornKnown(p: Places, q: Places, unit: nat)
    requires q.units.Keys == p.units.Keys + {unit} && unit !in p.units && q.units[unit].ranges == []
    requires forall u :: u in p.units ==> q.units[u].ranges == p.units[u].ranges
    ensures Known(q) == Known(p)[unit := {}]
  {
    assert WrittenIn([]) == {};
  }

  lemma UsedKnown(p: Places, q: Places)
    requires q.units == p.units
    ensures Known(q) == Known(p)
  {
  }

  /** A write lands at the unit's only place, and only there. */
  lemma WriteIntact(c: Config, p: Places, unit: nat, merged: seq<Interval>, begin: nat, end: nat, hbm: Content, flash: Content,
                    flat: Content, data: nat -> nat)
    requires Homed(c, p) && Intact(p, hbm, flash, flat) && unit in p.units && begin < end && Normal(merged)
    requires forall x: nat :: In(merged, x) <==> In(p.units[unit].ranges, x) || begin <= x < end
    ensures var u := p.units[unit];
      var q := p.(units := p.units[unit := u.(ranges := merged)]);
      var hbm' := if u.slot.Some? then Stored(hbm, u.slot.value, begin, end, data) else hbm;
      var flash' := if u.slot.Some? then flash else if u.home.Some? then Stored(flash, u.home.value, begin, end, data) else flash;
      && Homed(c, q) && Intact(q, hbm', flash', Stored(flat, unit, begin, end, data))
      && Known(q) == Known(p)[unit := Known(p)[unit] + Bytes(begin, end - begin)]
      && forall x :: x in Bytes(begin, end - begin) ==> Holding(q.units[unit], hbm', flash', x) == Stored(flat, unit, begin, end, data)(unit, x)
  {
    var u := p.units[unit];
    var q := p.(units := p.units[unit := u.(ranges := merged)]);
    WriteHomed(c, p, q, unit, merged);
    WriteHolds(c, p, q, unit, merged, begin, end, hbm, flash, flat, data);
    WriteKnown(p, q, unit, merged, begin, end);
    assert Sound(p, u);
    hide Homed, Intact, In, Normal, Known, WrittenIn;
  }

  lemma WriteKnown(p: Places, q: Places, unit: nat, merged: seq<Interval>, begin: nat, end: nat)
    requires unit in p.units && begin < end && q == p.(units := p.units[unit := p.units[unit].(ranges := merged)])
    requires forall x: nat :: In(merged, x) <==> In(p.units[unit].ranges, x) || begin <= x < end
    ensures Known(q) == Known(p)[unit := Known(p)[unit] + Bytes(begin, end - begin)]
  {
    hide In;
    assert WrittenIn(merged) == WrittenIn(p.units[unit].ranges) + Bytes(begin, end - begin);
  }

  lemma WriteHomed(c: Config, p: Places, q: Places, unit: nat, merged: seq<Interval>)
    requires Homed(c, p) && unit in p.units && Normal(merged) && q == p.(units := p.units[unit := p.units[unit].(ranges := merged)])
    ensures Homed(c, q)
  {
    hide Normal, Elsewhere;
    SameSize(q.units, p.units);
    forall u | u in q.units ensures Sound(q, q.units[u]) {
      assert Sound(p, p.units[u]);
    }
    WriteExclusive(p, q, unit, merged);
    hide Sound, Exclusive;
  }

  lemma WriteExclusive(p: Places, q: Places, unit: nat, merged: seq<Interval>)
    requires Exclusive(p) && unit in p.units && q == p.(units := p.units[unit := p.units[unit].(ranges := merged)])
    ensures Exclusive(q)
  {
    forall u, v | u in q.units && v in q.units && u != v ensures Elsewhere(q.units[u], q.units[v]) {
      assert Elsewhere(p.units[u], p.units[v]);
    }
  }

  lemma WriteHolds(c: Config, p: Places, q: Places, unit: nat, merged: seq<Interval>, begin: nat, end: nat, hbm: Content, flash: Content,
                   flat: Content, data: nat -> nat)
    requires Exclusive(p) && Wellformed(p) && Intact(p, hbm, flash, flat) && unit in p.units
    requires q == p.(units := p.units[unit := p.units[unit].(ranges := merged)])
    requires forall x: nat :: In(merged, x) <==> In(p.units[unit].ranges, x) || begin <= x < end
    ensures var u := p.units[unit];
      var hbm' := if u.slot.Some? then Stored(hbm, u.slot.value, begin, end, data) else hbm;
      var flash' := if u.slot.Some? then flash else if u.home.Some? then Stored(flash, u.home.value, begin, end, data) else flash;
      Intact(q, hbm', flash', Stored(flat, unit, begin, end, data))
  {
    var u := p.units[unit];
    var hbm' := if u.slot.Some? then Stored(hbm, u.slot.value, begin, end, data) else hbm;
    var flash' := if u.slot.Some? then flash else if u.home.Some? then Stored(flash, u.home.value, begin, end, data) else flash;
    forall v, x: nat | v in q.units && In(q.units[v].ranges, x)
      ensures Holding(q.units[v], hbm', flash', x) == Stored(flat, unit, begin, end, data)(v, x)
    {
      if v != unit {
        assert Elsewhere(p.units[v], p.units[unit]);
        assert Holding(p.units[v], hbm, flash, x) == flat(v, x);
      } else if !(begin <= x < end) {
        assert Holding(p.units[v], hbm, flash, x) == flat(v, x);
      }
    }
  }

  function Others(s: seq<nat>, unit: nat): (rest: seq<nat>)
  {
    if s == [] then [] else if s[0] == unit then s[1..] else [s[0]] + Others(s[1..], unit)
  }

  lemma {:induction false} OthersIs(s: seq<nat>, unit: nat)
    requires (forall i, j :: 0 <= i < j < |s| ==> s[i] != s[j]) && unit in s
    ensures forall p :: p in Others(s, unit) <==> p in s && p != unit
    ensures forall i, j :: 0 <= i < j < |Others(s, unit)| ==> Others(s, unit)[i] != Others(s, unit)[j]
    ensures |Others(s, unit)| == |s| - 1
  {
    if s[0] == unit {
      assert forall p :: p in s[1..] ==> p != unit;
    } else {
      OthersIs(s[1..], unit);
      forall k | 0 <= k < |Others(s[1..], unit)| ensures Others(s[1..], unit)[k] != s[0] {
        assert Others(s[1..], unit)[k] in s[1..];
      }
    }
  }

  lemma MovedToEnd(c: Config, p: Places, unit: nat)
    requires Homed(c, p) && unit in p.units && p.units[unit].slot.Some?
    ensures Homed(c, p.(resident := Others(p.resident, unit) + [unit]))
  {
    hide Elsewhere, Wellformed, Exclusive;
    var q := p.(resident := Others(p.resident, unit) + [unit]);
    assert unit in p.resident;
    MovedListed(p, unit);
    OrderFree(p, q);
  }

  /** Soundness and exclusiveness do not depend on the order of use. */
  lemma OrderFree(p: Places, q: Places)
    requires Wellformed(p) && Exclusive(p) && q == p.(resident := q.resident)
    ensures Wellformed(q) && Exclusive(q)
  {
    hide Elsewhere, Normal;
    assert forall u :: u in p.units ==> (Sound(p, p.units[u]) <==> Sound(q, p.units[u]));
  }

  lemma MovedListed(p: Places, unit: nat)
    requires Listed(p) && unit in p.resident
    ensures Listed(p.(resident := Others(p.resident, unit) + [unit])) && |Others(p.resident, unit)| == |p.resident| - 1
  {
    OthersIs(p.resident, unit);
    var longer := Others(p.resident, unit) + [unit];
    assert forall k :: 0 <= k < |Others(p.resident, unit)| ==> Others(p.resident, unit)[k] in Others(p.resident, unit);
  }
}
