/** Copy-on-write checkpoints in an append-only flash arena, and recovery from retained media. */
module Recoveries {
  import opened Modular

  /** Bytes [offset, offset + bytes) of a KV item, at an HBM address. */
  datatype Segment = Segment(offset: nat, address: nat, bytes: nat)

  /** The KV objects of live requests, each in the order of its writes. */
  type Live = map<nat, seq<Segment>>

  datatype Version = Version(item: nat, base: nat, bytes: nat, segments: seq<Segment>)

  datatype Previous = Nothing | Previous(body: Body)

  /** The committed manifest.  Equal digests stand for equal bodies. */
  datatype Body = Body(epoch: nat, versions: seq<Version>, begin: nat, previous: Previous)

  datatype Record = Record(body: Body, published: bool, log: nat, logBytes: nat, next: nat)

  type Bytes = nat -> nat

  /** Sizes, and the contents that committed bytes have. */
  datatype Setting = Setting(page: nat, root: nat, capacity: nat, encoded: Body -> nat, logByte: (Body, nat) -> nat, rootByte: (Body, nat) -> nat, kv: (nat, nat) -> nat)
  {
    ghost predicate Valid()
    {
      page > 0
    }

    function Rounded(n: nat): (m: nat)
      requires page > 0
      ensures n <= m < n + page
    {
      RoundUp(n, page)
    }

    function Arena(): nat
    {
      root + page
    }
  }

  // ------------------------------------------------------------------ extents

  /** The end of the last of some versions that are laid out from `begin` on. */
  function LayoutEnd(setting: Setting, versions: seq<Version>, begin: nat): nat
    requires setting.page > 0
  {
    if versions == [] then begin
    else versions[|versions| - 1].base + setting.Rounded(versions[|versions| - 1].bytes)
  }

  ghost predicate LaidOut(setting: Setting, versions: seq<Version>, begin: nat)
    requires setting.page > 0
  {
    forall i :: 0 <= i < |versions| ==> versions[i].base == LayoutEnd(setting, versions[..i], begin)
  }

  ghost predicate WellPlaced(setting: Setting, record: Record)
    requires setting.page > 0
  {
    && setting.Arena() <= record.body.begin
    && LaidOut(setting, record.body.versions, record.body.begin)
    && record.log == LayoutEnd(setting, record.body.versions, record.body.begin)
    && record.logBytes == setting.Rounded(setting.encoded(record.body))
    && record.next == record.log + record.logBytes
  }

  /** A body has only one place. */
  lemma PlacedOnce(setting: Setting, a: Record, b: Record)
    requires setting.Valid() && WellPlaced(setting, a) && WellPlaced(setting, b) && a.body == b.body
    ensures a.log == b.log && a.logBytes == b.logBytes && a.next == b.next
  {
  }

  lemma {:induction false} LayoutGrows(setting: Setting, versions: seq<Version>, begin: nat, i: nat)
    requires setting.Valid() && LaidOut(setting, versions, begin) && i <= |versions|
    ensures begin <= LayoutEnd(setting, versions[..i], begin) <= LayoutEnd(setting, versions, begin)
    decreases |versions|
  {
    if versions != [] {
      var n := |versions| - 1;
      assert forall k :: 0 <= k < n ==> versions[..n][..k] == versions[..k];
      if i <= n {
        LayoutGrows(setting, versions[..n], begin, i);
        assert versions[..n][..i] == versions[..i];
      } else {
        LayoutGrows(setting, versions[..n], begin, n);
        assert versions[..i] == versions && versions[..n][..n] == versions[..n];
      }
    }
  }

  /** Versions lie apart, inside the part of the arena between the record's ends and below its log. */
  lemma VersionsApart(setting: Setting, record: Record, i: nat, j: nat)
    requires setting.Valid() && WellPlaced(setting, record) && i <= j < |record.body.versions|
    ensures record.body.begin <= record.body.versions[i].base
    ensures record.body.versions[j].base + record.body.versions[j].bytes <= record.log <= record.next
    ensures i < j ==> record.body.versions[i].base + record.body.versions[i].bytes <= record.body.versions[j].base
  {
    LaidApart(setting, record.body.versions, record.body.begin, i, j);
  }

  lemma LaidApart(setting: Setting, versions: seq<Version>, begin: nat, i: nat, j: nat)
    requires setting.Valid() && LaidOut(setting, versions, begin) && i <= j < |versions|
    ensures begin <= versions[i].base && versions[j].base + versions[j].bytes <= LayoutEnd(setting, versions, begin)
    ensures i < j ==> versions[i].base + versions[i].bytes <= versions[j].base
  {
    LayoutGrows(setting, versions, begin, i);
    LayoutGrows(setting, versions, begin, j + 1);
    assert versions[..j + 1][j] == versions[j];
    if i < j {
      var front := versions[..j];
      assert forall k :: 0 <= k < j ==> front[..k] == versions[..k];
      LayoutGrows(setting, front, begin, i + 1);
      assert front[..i + 1][i] == versions[i];
    }
  }

  // ----------------------------------------------------------------- contents

  ghost predicate VersionHeld(setting: Setting, flash: Bytes, v: Version)
  {
    forall x: nat :: v.base <= x < v.base + v.bytes ==> flash(x) == setting.kv(v.item, x - v.base)
  }

  ghost predicate LogHeld(setting: Setting, flash: Bytes, record: Record)
  {
    forall x: nat :: record.log <= x < record.log + record.logBytes ==> flash(x) == setting.logByte(record.body, x - record.log)
  }

  /** The media still has every committed byte of a checkpoint, data and log. */
  ghost predicate Holds(setting: Setting, flash: Bytes, record: Record)
  {
    && (forall i :: 0 <= i < |record.body.versions| ==> VersionHeld(setting, flash, record.body.versions[i]))
    && LogHeld(setting, flash, record)
  }

  /** Only the root page and the free end of the arena may change.  The weights lie below the root. */
  ghost predicate AppendOnly(setting: Setting, before: Bytes, after: Bytes, cursor: nat)
  {
    forall x: nat :: x < setting.root || setting.Arena() <= x < cursor ==> after(x) == before(x)
  }

  /** Later checkpoints leave earlier ones alone. */
  lemma HoldsAppend(setting: Setting, before: Bytes, after: Bytes, cursor: nat, record: Record)
    requires setting.Valid() && WellPlaced(setting, record) && Holds(setting, before, record)
    requires record.next <= cursor && AppendOnly(setting, before, after, cursor)
    ensures Holds(setting, after, record)
  {
    LayoutGrows(setting, record.body.versions, record.body.begin, 0);
    forall i | 0 <= i < |record.body.versions| ensures VersionHeld(setting, after, record.body.versions[i]) {
      VersionsApart(setting, record, i, i);
      assert VersionHeld(setting, before, record.body.versions[i]);
    }
  }

  /** Retained media: what a checkpoint left on flash. */
  datatype Image = Image(record: Record, flash: Bytes)

  /** The image holds its own checkpoint and the publication that came before it. */
  ghost predicate Sound(setting: Setting, image: Image)
    requires setting.page > 0
  {
    && WellPlaced(setting, image.record) && Holds(setting, image.flash, image.record)
    && forall p: Record :: image.record.body.previous == Previous(p.body) && WellPlaced(setting, p) ==>
      Holds(setting, image.flash, p) && p.next <= image.record.body.begin
  }

  /** The conditions under which recovery takes the media for a published checkpoint. */
  predicate Accepts(media: Record, published: Record)
  {
    && published.published
    && (media.body == published.body
        || (!media.published && media.body.previous == Previous(published.body) && media.body.begin == published.next))
  }

  /** Accepted media holds every committed byte of the publication. */
  lemma AcceptedHolds(setting: Setting, media: Image, published: Record)
    requires setting.Valid() && Sound(setting, media) && WellPlaced(setting, published) && Accepts(media.record, published)
    ensures Holds(setting, media.flash, published)
  {
    if media.record.body == published.body {
      PlacedOnce(setting, media.record, published);
    }
  }

  // ------------------------------------------------------------- live objects

  function End(segments: seq<Segment>): nat
  {
    if segments == [] then 0 else segments[|segments| - 1].offset + segments[|segments| - 1].bytes
  }

  /** Segments cover the object's bytes from the first one on without a gap. */
  ghost predicate Contiguous(segments: seq<Segment>)
  {
    forall k :: 0 <= k < |segments| ==> segments[k].offset == End(segments[..k]) && segments[k].bytes > 0
  }

  ghost predicate InPlace(setting: Setting, hot: Bytes, item: nat, s: Segment)
  {
    forall x: nat :: s.address <= x < s.address + s.bytes ==> hot(x) == setting.kv(item, s.offset + (x - s.address))
  }

  /** HBM has every byte of the live objects. */
  ghost predicate Resident(setting: Setting, hot: Bytes, live: Live)
  {
    forall o: nat, k: nat :: o in live && k < |live[o]| ==> InPlace(setting, hot, o, live[o][k])
  }

  predicate Apart(a: Segment, b: Segment)
  {
    a.address + a.bytes <= b.address || b.address + b.bytes <= a.address
  }

  /** Every object is covered, and no two segments share HBM. */
  ghost predicate Orderly(live: Live)
  {
    && (forall o :: o in live ==> Contiguous(live[o]))
    && forall o: nat, p: nat, k: nat, l: nat :: o in live && p in live && k < |live[o]| && l < |live[p]| && (o != p || k != l) ==>
      Apart(live[o][k], live[p][l])
  }

  /** The extent is new to every live object. */
  ghost predicate Fresh(live: Live, s: Segment)
  {
    forall o: nat, k: nat :: o in live && k < |live[o]| ==> Apart(live[o][k], s)
  }

  function Lookup(live: Live, o: nat): seq<Segment>
  {
    if o in live then live[o] else []
  }

  /** Copies n bytes from one memory to another. */
  function Copy(target: Bytes, to: nat, n: nat, source: Bytes, from: nat): (after: Bytes)
    ensures forall x: nat :: after(x) == if to <= x < to + n then source(from + (x - to)) else target(x)
  {
    (x: nat) => if to <= x < to + n then source(from + (x - to)) else target(x)
  }

  /** One more write at the end of an object, joined to the last segment when HBM continues it. */
  function Extended(segments: seq<Segment>, s: Segment): (longer: seq<Segment>)
    ensures Contiguous(segments) && s.offset == End(segments) && s.bytes > 0 ==> Contiguous(longer) && End(longer) == s.offset + s.bytes
  {
    if segments == [] then [s]
    else
      var n := |segments| - 1;
      var last := segments[n];
      if last.address + last.bytes == s.address then
        var longer := segments[..n] + [last.(bytes := last.bytes + s.bytes)];
        assert forall k :: 0 <= k <= n ==> longer[..k] == segments[..k];
        longer
      else
        var longer := segments + [s];
        assert forall k :: 0 <= k <= |segments| ==> longer[..k] == segments[..k];
        assert segments[..|segments|] == segments;
        longer
  }

  /** A segment of the longer list is an old one, the new one, or the last one grown by it. */
  lemma ExtendedAt(segments: seq<Segment>, s: Segment, k: nat)
    requires k < |Extended(segments, s)|
    ensures
      var t := Extended(segments, s)[k];
      || (k < |segments| && t == segments[k])
      || (k == |segments| && t == s)
      || (k == |segments| - 1 && t == segments[k].(bytes := segments[k].bytes + s.bytes)
          && segments[k].address + segments[k].bytes == s.address)
  {
    hide Contiguous, End;
  }

  /** A segment that does not grow stays apart from all others. */
  lemma StaysApart(live: Live, o: nat, s: Segment, p: nat, k: nat, q: nat, l: nat)
    requires Orderly(live) && Fresh(live, s) && q in live && l < |live[q]| && (p != q || k != l)
    requires p in live[o := Extended(Lookup(live, o), s)] && k < |live[o := Extended(Lookup(live, o), s)][p]| && s.bytes > 0
    ensures Apart(live[o := Extended(Lookup(live, o), s)][p][k], live[q][l])
  {
    assert Contiguous(live[q]) && live[q][l].bytes > 0;
    assert Apart(live[q][l], s);
    hide Contiguous, End, Extended;
    if p == o {
      ExtendedAt(Lookup(live, o), s, k);
      if k < |Lookup(live, o)| {
        assert Apart(live[o][k], live[q][l]);
      }
    } else {
      assert Apart(live[p][k], live[q][l]);
    }
  }

  lemma ExtendedOrderly(live: Live, o: nat, s: Segment)
    requires Orderly(live) && Fresh(live, s) && s.offset == End(Lookup(live, o)) && s.bytes > 0
    ensures Orderly(live[o := Extended(Lookup(live, o), s)])
  {
    var longer := Extended(Lookup(live, o), s);
    var after := live[o := longer];
    assert Contiguous(Lookup(live, o)) && Contiguous(longer);
    hide Contiguous, End, Extended, Orderly, Fresh, Apart;
    forall p: nat, q: nat, k: nat, l: nat | p in after && q in after && k < |after[p]| && l < |after[q]| && (p != q || k != l)
      ensures Apart(after[p][k], after[q][l])
    {
      if p == o {
        ExtendedAt(Lookup(live, o), s, k);
      }
      if q == o {
        ExtendedAt(Lookup(live, o), s, l);
      }
      if q in live && l < |live[q]| && after[q][l] == live[q][l] {
        StaysApart(live, o, s, p, k, q, l);
      } else {
        StaysApart(live, o, s, q, l, p, k);
        ApartBoth(after[q][l], after[p][k]);
      }
    }
    AllContiguous(live, o, longer, after);
    Assemble(after);
  }

  lemma ApartBoth(a: Segment, b: Segment)
    ensures Apart(a, b) == Apart(b, a)
  {
  }

  lemma AllContiguous(live: Live, o: nat, longer: seq<Segment>, after: Live)
    requires Orderly(live) && Contiguous(longer) && after == live[o := longer]
    ensures forall p :: p in after ==> Contiguous(after[p])
  {
  }

  lemma Assemble(live: Live)
    requires forall o :: o in live ==> Contiguous(live[o])
    requires forall o: nat, p: nat, k: nat, l: nat :: o in live && p in live && k < |live[o]| && l < |live[p]| && (o != p || k != l) ==>
      Apart(live[o][k], live[p][l])
    ensures Orderly(live)
  {
  }

  /** Writing apart from a segment leaves it in place. */
  lemma StaysInPlace(setting: Setting, hot: Bytes, o: nat, t: Segment, to: nat, n: nat, source: Bytes, from: nat)
    requires InPlace(setting, hot, o, t) && (t.address + t.bytes <= to || to + n <= t.address)
    ensures InPlace(setting, Copy(hot, to, n, source, from), o, t)
  {
  }

  /** The new bytes of an object, at the end of a segment. */
  lemma GrowsInPlace(setting: Setting, hot: Bytes, o: nat, t: Segment, s: Segment, source: Bytes)
    requires InPlace(setting, hot, o, t) && t.address + t.bytes == s.address && t.offset + t.bytes == s.offset
    requires forall i: nat :: i < s.bytes ==> source(i) == setting.kv(o, s.offset + i)
    ensures InPlace(setting, Copy(hot, s.address, s.bytes, source, 0), o, t.(bytes := t.bytes + s.bytes))
  {
    var after := Copy(hot, s.address, s.bytes, source, 0);
    forall x: nat | t.address <= x < t.address + t.bytes + s.bytes ensures after(x) == setting.kv(o, t.offset + (x - t.address)) {
      if x >= s.address {
        var i: nat := x - s.address;
        assert source(i) == setting.kv(o, s.offset + i);
      }
    }
  }

  lemma WrittenInPlace(setting: Setting, hot: Bytes, o: nat, s: Segment, source: Bytes)
    requires forall i: nat :: i < s.bytes ==> source(i) == setting.kv(o, s.offset + i)
    ensures InPlace(setting, Copy(hot, s.address, s.bytes, source, 0), o, s)
  {
  }

  /** Writing fresh HBM leaves the other objects alone. */
  lemma ExtendedResident(setting: Setting, hot: Bytes, live: Live, o: nat, s: Segment, source: Bytes)
    requires Resident(setting, hot, live) && Fresh(live, s) && s.offset == End(Lookup(live, o))
    requires forall i: nat :: i < s.bytes ==> source(i) == setting.kv(o, s.offset + i)
    ensures Resident(setting, Copy(hot, s.address, s.bytes, source, 0), live[o := Extended(Lookup(live, o), s)])
  {
    var after, written := live[o := Extended(Lookup(live, o), s)], Copy(hot, s.address, s.bytes, source, 0);
    hide InPlace, Copy, Contiguous, Extended;
    forall p: nat, k: nat | p in after && k < |after[p]| ensures InPlace(setting, written, p, after[p][k]) {
      if p in live && k < |live[p]| {
        assert InPlace(setting, hot, p, live[p][k]) && Apart(live[p][k], s);
        StaysInPlace(setting, hot, p, live[p][k], s.address, s.bytes, source, 0);
      }
      if p == o {
        ExtendedAt(Lookup(live, o), s, k);
        WrittenInPlace(setting, hot, o, s, source);
        if p in live && k == |live[o]| - 1 && live[o][k].address + live[o][k].bytes == s.address {
          GrowsInPlace(setting, hot, o, live[o][k], s, source);
        }
      }
    }
  }

  // ------------------------------------------------------------------- copies

  lemma SegmentWithin(segments: seq<Segment>, k: nat)
    requires Contiguous(segments) && k < |segments|
    ensures segments[k].offset + segments[k].bytes <= End(segments)
    decreases |segments|
  {
    if k < |segments| - 1 {
      var n := |segments| - 1;
      assert forall i :: 0 <= i <= n ==> segments[..n][..i] == segments[..i];
      SegmentWithin(segments[..n], k);
    }
  }

  /** The manifest describes whole objects. */
  ghost predicate Manifest(versions: seq<Version>)
  {
    && (forall i :: 0 <= i < |versions| ==> Contiguous(versions[i].segments) && versions[i].bytes == End(versions[i].segments))
    && forall i, j :: 0 <= i < j < |versions| ==> versions[i].item < versions[j].item
  }

  /** The manifest names exactly the live objects, with their segments. */
  ghost predicate Matches(live: Live, versions: seq<Version>)
  {
    && (forall i :: 0 <= i < |versions| ==> versions[i].item in live && live[versions[i].item] == versions[i].segments)
    && forall o :: o in live ==> exists i :: 0 <= i < |versions| && versions[i].item == o
  }
}
