/** The recovery executor: recording completed writes, checkpointing, and restoring. */
module Checkpoints {
  import opened PrefixKeys
  import opened Recoveries
  import opened Projections

  datatype Publication = Unpublished | Published(record: Record)

  datatype Media = Blank | Retained(record: Record)

  datatype Outcome = Exhausted | Written(record: Record)

  /** A publication whose bytes are on flash, below the free end of the arena. */
  ghost predicate Kept(setting: Setting, flash: Bytes, cursor: nat, publication: Publication)
    requires setting.page > 0
  {
    publication.Published? ==>
      WellPlaced(setting, publication.record) && Holds(setting, flash, publication.record) && publication.record.next <= cursor
  }

  class Executor {
    const setting: Setting
    const media: Media
    var live: Live
    var hot: Bytes
    var flash: Bytes
    var cursor: nat
    var epoch: nat
    var published: Publication

    ghost predicate Valid()
      reads this
    {
      && setting.Valid() && setting.Arena() <= cursor && Kept(setting, flash, cursor, published)
      && Orderly(live) && Resident(setting, hot, live)
    }

    constructor (setting: Setting, hot: Bytes, flash: Bytes)
      requires setting.Valid()
      ensures Valid() && this.setting == setting && media == Blank && live == map[] && published == Unpublished
      ensures cursor == setting.Arena() && this.flash == flash && epoch == 0
    {
      this.setting, media, live, this.hot, this.flash := setting, Blank, map[], hot, flash;
      cursor, epoch, published := setting.Arena(), 0, Unpublished;
    }

    /** A fresh executor over the media that a checkpoint left behind. */
    constructor Restart(setting: Setting, image: Image, hot: Bytes)
      requires setting.Valid() && Sound(setting, image)
      ensures Valid() && this.setting == setting && media == Retained(image.record) && live == map[] && published == Unpublished
      ensures cursor == image.record.next && flash == image.flash && epoch == image.record.body.epoch + 1
    {
      LayoutGrows(setting, image.record.body.versions, image.record.body.begin, 0);
      this.setting, media, live, this.hot, flash := setting, Retained(image.record), map[], hot, image.flash;
      cursor, epoch, published := image.record.next, image.record.body.epoch + 1, Unpublished;
    }

    /** A completed KV write: the bytes are in HBM, and the object's frontier advances, unless the
        write does not start there. */
    method RecordWrite(o: nat, offset: nat, address: nat, bytes: nat) returns (ok: bool)
      requires Valid() && bytes > 0 && Fresh(live, Segment(offset, address, bytes))
      modifies this`live, this`hot
      ensures Valid() && (ok <==> offset == End(Lookup(old(live), o)))
      ensures live == if ok then old(live)[o := Extended(Lookup(old(live), o), Segment(offset, address, bytes))] else old(live)
    {
      var s := Segment(offset, address, bytes);
      ok := offset == End(Lookup(live, o));
      var source := (i: nat) => setting.kv(o, offset + i);
      if ok {
        ExtendedOrderly(live, o, s);
        ExtendedResident(setting, hot, live, o, s, source);
        live := live[o := Extended(Lookup(live, o), s)];
      } else {
        UntouchedResident(setting, hot, live, s, source);
      }
      hot := Copy(hot, address, bytes, source, 0);
    }

    /** Copies every live object, the log and, when publishing, the root into new flash.  The media it
        leaves is sound, and neither the weights below the root nor the used part of the arena changes. */
    method PublishCheckpoint(publish: bool) returns (outcome: Outcome)
      requires Valid()
      modifies this`flash, this`cursor, this`epoch, this`published
      ensures Valid()
      ensures outcome.Exhausted? <==> cursor > setting.capacity
      ensures outcome.Exhausted? ==> flash == old(flash) && published == old(published)
      ensures outcome.Written? ==> Sound(setting, Image(outcome.record, flash)) && AppendOnly(setting, old(flash), flash, old(cursor))
      ensures outcome.Written? ==> outcome.record.body.begin == old(cursor) && cursor == outcome.record.next
      ensures outcome.Written? ==> Matches(live, outcome.record.body.versions) && Manifest(outcome.record.body.versions)
      ensures outcome.Written? ==> Committed(outcome.record)
      ensures outcome.Written? ==> outcome.record.published == publish && outcome.record.body.epoch == old(epoch) && epoch == old(epoch) + 1
      ensures outcome.Written? ==> published == if publish then Published(outcome.record) else old(published)
      ensures outcome.Written? && publish ==> RootIs(setting, flash, outcome.record.body)
    {
      hide Holds, VersionHeld, LogHeld, Orderly, Resident, AppendOnly, WellPlaced, Manifest, Matches, Sound;
      var record := Draw(publish);
      ghost var begin := cursor;
      DrawnFurther(setting, record);
      cursor := record.next;
      StillKept(setting, flash, begin, cursor, published);
      if cursor > setting.capacity {
        return Exhausted;
      }
      Store(record);
      LiveCommitted(live, record);
      WrittenSound(setting, old(flash), flash, record, published);
      epoch := epoch + 1;
      if publish {
        published := Published(record);
      }
      outcome := Written(record);
    }

    /** The manifest of the next checkpoint and its place in the arena. */
    method Draw(publish: bool) returns (record: Record)
      requires Valid()
      ensures WellPlaced(setting, record) && record.body.begin == cursor && record.published == publish && record.body.epoch == epoch
      ensures record.body.previous == if published.Published? then Previous(published.record.body) else Nothing
      ensures Matches(live, record.body.versions) && Manifest(record.body.versions)
    {
      hide Manifest, Matches, Orderly, Resident, Kept, LaidOut;
      var versions := Layout(cursor);
      var body := Body(epoch, versions, cursor, if published.Published? then Previous(published.record.body) else Nothing);
      LayoutGrows(setting, versions, cursor, 0);
      var log := LayoutEnd(setting, versions, cursor);
      var logBytes := setting.Rounded(setting.encoded(body));
      record := Record(body, publish, log, logBytes, log + logBytes);
    }

    /** Data, then log, then root. */
    method Store(record: Record)
      requires setting.Valid() && WellPlaced(setting, record) && Resident(setting, hot, live)
      requires Matches(live, record.body.versions) && Manifest(record.body.versions)
      modifies this`flash
      ensures Holds(setting, flash, record) && AppendOnly(setting, old(flash), flash, record.body.begin)
      ensures record.published ==> RootIs(setting, flash, record.body)
    {
      hide Holds, Resident, AppendOnly, Manifest, Matches, Held, LaidOut;
      CopyVersions(record.body.versions, record.body.begin, record.log);
      ghost var data := flash;
      flash := Overwritten(flash, record.log, record.logBytes, (i: nat) => setting.logByte(record.body, i));
      LogWritten(setting, old(flash), data, flash, record);
      if record.published {
        ghost var logged := flash;
        flash := Overwritten(flash, setting.root, setting.page, (i: nat) => setting.rootByte(record.body, i));
        RootWritten(setting, old(flash), logged, flash, record);
      }
    }

    /** Reserves page-aligned space for every live object, in the order of their names. */
    method Layout(begin: nat) returns (versions: seq<Version>)
      requires setting.Valid() && Orderly(live)
      ensures LaidOut(setting, versions, begin) && Matches(live, versions) && Manifest(versions)
    {
      versions := [];
      var rest := live.Keys;
      while rest != {}
        invariant LaidOut(setting, versions, begin) && Listing(live, rest, versions)
        decreases rest
      {
        var o := Smallest(rest);
        var v := Version(o, LayoutEnd(setting, versions, begin), End(live[o]), live[o]);
        OneVersion(setting, versions, begin, v);
        OneListed(live, rest, versions, v);
        versions := versions + [v];
        rest := rest - {o};
      }
    }

    /** The data copies: every version gets the bytes of its object. */
    method CopyVersions(versions: seq<Version>, begin: nat, end: nat)
      requires setting.Valid() && Resident(setting, hot, live) && Matches(live, versions) && Manifest(versions)
      requires LaidOut(setting, versions, begin) && end == LayoutEnd(setting, versions, begin)
      modifies this`flash
      ensures Held(setting, flash, versions, |versions|) && Below(old(flash), flash, begin)
    {
      hide Resident, VersionHeld, Contiguous, LaidOut;
      for n := 0 to |versions|
        invariant Held(setting, flash, versions, n) && Below(old(flash), flash, begin)
      {
        ghost var before := flash;
        CopyVersion(versions[n]);
        OneHeld(setting, before, flash, versions, begin, n);
      }
    }

    method CopyVersion(v: Version)
      requires v.item in live && live[v.item] == v.segments && Contiguous(v.segments) && v.bytes == End(v.segments)
      requires Resident(setting, hot, live)
      modifies this`flash
      ensures VersionHeld(setting, flash, v)
      ensures forall x: nat :: x < v.base || v.base + v.bytes <= x ==> flash(x) == old(flash)(x)
    {
      var done: nat := 0;
      for k := 0 to |v.segments|
        invariant done == End(v.segments[..k]) && done <= v.bytes
        invariant forall x: nat :: v.base <= x < v.base + done ==> flash(x) == setting.kv(v.item, x - v.base)
        invariant forall x: nat :: x < v.base || v.base + v.bytes <= x ==> flash(x) == old(flash)(x)
      {
        var s := v.segments[k];
        assert v.segments[..k + 1][..k] == v.segments[..k];
        SegmentWithin(v.segments, k);
        assert InPlace(setting, hot, v.item, s);
        ghost var before := flash;
        flash := Copy(flash, v.base + s.offset, s.bytes, hot, s.address);
        CopiedOut(setting, hot, before, v, s);
        done := done + s.bytes;
      }
      assert v.segments[..|v.segments|] == v.segments;
    }

    /** A completed write operation, extent by extent. */
    method RecordOperation(write: Write) returns (ok: bool)
      requires Valid() && write.WellFormed() && FreshWrite(live, write)
      modifies this`live, this`hot
      ensures Valid() && (ok <==> Note(old(live), write).Some?) && (ok ==> live == Note(old(live), write).value)
    {
      hide Orderly, Resident, Kept, Fresh, Extended, Note, Length;
      ghost var start := live;
      NothingWritten(start, write);
      var done := 0;
      for k := 0 to |write.pieces|
        invariant Valid() && done == Length(write.pieces[..k])
        invariant Note(start, write.(pieces := write.pieces[..k])) == Some(live)
        invariant StillFresh(live, write, k)
      {
        var piece := write.pieces[k];
        FreshNext(live, write, k);
        NotePush(start, write, k);
        LengthPush(write.pieces, k);
        ghost var before := live;
        ok := RecordWrite(write.item, write.offset + done, piece.address, piece.bytes);
        if !ok {
          NoteStops(start, write, k + 1);
          return;
        }
        StaysFresh(before, write, k);
        done := done + piece.bytes;
      }
      assert write.pieces[..|write.pieces|] == write.pieces;
      ok := true;
    }

    /** The segments that the committed schedules build up again. */
    method ReplayWrites(writes: seq<Write>) returns (ok: bool)
      modifies this`live
      ensures (ok <==> NoteAll(old(live), writes).Some?) && (ok ==> live == NoteAll(old(live), writes).value)
    {
      hide NoteOne, Note, NoteAll;
      ghost var start := live;
      NothingNoted(start);
      for n := 0 to |writes|
        invariant NoteAll(start, writes[..n]) == Some(live)
      {
        ghost var before := live;
        var done := 0;
        var write := writes[n];
        NoteAllPush(start, writes, n);
        NothingWritten(before, write);
        for k := 0 to |write.pieces|
          invariant Note(before, write.(pieces := write.pieces[..k])) == Some(live) && done == Length(write.pieces[..k])
        {
          NotePush(before, write, k);
          assert write.pieces[..k + 1][..k] == write.pieces[..k];
          var next := NoteOne(live, write.item, write.offset + done, write.pieces[k]);
          if next.None? {
            NoteStops(before, write, k + 1);
            NoteAllStops(start, writes, n + 1);
            return false;
          }
          live := next.value;
          done := done + write.pieces[k].bytes;
        }
        assert write.pieces[..|write.pieces|] == write.pieces && write.(pieces := write.pieces) == write;
      }
      assert writes[..|writes|] == writes;
      ok := true;
    }

    /** Takes the media for a published checkpoint, if it may, replays the committed writes, and
        refills HBM when they come to the committed segments.  Otherwise the replay's segments are all
        that has changed. */
    method RestoreCheckpoint(record: Record, writes: seq<Write>) returns (ok: bool)
      requires Valid() && live == map[] && media.Retained?
      requires WellPlaced(setting, record) && Manifest(record.body.versions) && Committed(record)
      requires Sound(setting, Image(media.record, flash)) && cursor == media.record.next
      modifies this`live, this`hot, this`published
      ensures ok <==>
        && Accepts(media.record, record) && NoteAll(map[], writes).Some?
        && Matches(NoteAll(map[], writes).value, record.body.versions)
      ensures ok ==> Valid() && live == NoteAll(map[], writes).value && published == Published(record)
      ensures !ok ==> hot == old(hot) && published == old(published)
      ensures !ok && !Accepts(media.record, record) ==> live == map[]
      ensures !ok && Accepts(media.record, record) && NoteAll(map[], writes).Some? ==> live == NoteAll(map[], writes).value
    {
      hide Orderly, Manifest, Matches, Holds, Resident, WellPlaced, Sound, Accepts, NoteAll;
      if !Accepts(media.record, record) {
        return false;
      }
      ok := ReplayWrites(writes);
      if !ok {
        return;
      }
      ok := Compare(live, record.body.versions);
      if !ok {
        return;
      }
      AcceptedHolds(setting, Image(media.record, flash), record);
      AcceptedBelow(setting, Image(media.record, flash), record);
      Refill(record, live);
      published := Published(record);
    }

    method Compare(replayed: Live, versions: seq<Version>) returns (same: bool)
      requires Manifest(versions)
      ensures same <==> Matches(replayed, versions)
    {
      var items: set<nat> := {};
      for n := 0 to |versions|
        invariant forall i :: 0 <= i < n ==> versions[i].item in replayed && replayed[versions[i].item] == versions[i].segments
        invariant forall o :: o in items <==> exists i :: 0 <= i < n && versions[i].item == o
      {
        if versions[n].item !in replayed || replayed[versions[n].item] != versions[n].segments {
          return false;
        }
        items := items + {versions[n].item};
      }
      same := items == replayed.Keys;
    }

    /** Copies every committed version back to where its object lives now. */
    method Refill(record: Record, replayed: Live)
      requires setting.Valid() && Holds(setting, flash, record) && Manifest(record.body.versions)
      requires Orderly(replayed) && Matches(replayed, record.body.versions)
      modifies this`hot
      ensures Resident(setting, hot, replayed)
    {
      hide Orderly, Contiguous, Manifest;
      var versions := record.body.versions;
      for n := 0 to |versions|
        invariant Placed(setting, hot, versions[..n])
      {
        var v := versions[n];
        assert VersionHeld(setting, flash, v);
        VersionContiguous(versions, n);
        assert v in versions && v.item in replayed && replayed[v.item] == v.segments;
        NoneFilled(setting, hot, v);
        for k := 0 to |v.segments|
          invariant Placed(setting, hot, versions[..n])
          invariant Filled(setting, hot, v, k)
        {
          var s := v.segments[k];
          SegmentWithin(v.segments, k);
          ghost var before := hot;
          hot := Copy(hot, s.address, s.bytes, flash, v.base + s.offset);
          CopiedIn(setting, flash, before, replayed, versions, n, k);
        }
        AllFilled(setting, hot, versions, n);
      }
      AllPlaced(setting, hot, replayed, versions);
    }
  }

  /** Whatever matches the manifest keeps its segments apart. */
  ghost predicate Committed(record: Record)
  {
    forall live: Live :: Matches(live, record.body.versions) ==> Orderly(live)
  }

  lemma LiveCommitted(live: Live, record: Record)
    requires Orderly(live) && Matches(live, record.body.versions)
    ensures Committed(record)
  {
    hide Orderly;
    forall other: Live | Matches(other, record.body.versions) ensures Orderly(other) {
      MatchesOnce(live, other, record.body.versions);
    }
  }

  lemma MatchesOnce(a: Live, b: Live, versions: seq<Version>)
    requires Matches(a, versions) && Matches(b, versions)
    ensures a == b
  {
    forall o | o in a.Keys ensures o in b.Keys && a[o] == b[o] {
    }
    forall o | o in b.Keys ensures o in a.Keys {
    }
  }

  lemma NothingNoted(live: Live)
    ensures NoteAll(live, []) == Some(live)
  {
  }

  lemma NothingWritten(live: Live, write: Write)
    ensures Note(live, write.(pieces := [])) == Some(live)
    ensures write.pieces[..0] == [] && Length([]) == 0
  {
  }

  /** The extents of a write are new to every live object, and apart from one another. */
  ghost predicate FreshWrite(live: Live, write: Write)
  {
    StillFresh(live, write, 0)
    && forall i, j :: 0 <= i < j < |write.pieces| ==> Apart(At(write, i), At(write, j))
  }

  ghost function At(write: Write, k: nat): Segment
    requires k < |write.pieces|
  {
    Segment(0, write.pieces[k].address, write.pieces[k].bytes)
  }

  ghost predicate StillFresh(live: Live, write: Write, from: nat)
  {
    forall k :: from <= k < |write.pieces| ==> Fresh(live, At(write, k))
  }

  lemma FreshNext(live: Live, write: Write, k: nat)
    requires StillFresh(live, write, k) && k < |write.pieces|
    ensures forall offset :: Fresh(live, Segment(offset, write.pieces[k].address, write.pieces[k].bytes))
  {
    assert Fresh(live, At(write, k));
  }

  /** What has been written is apart from what is still to be written. */
  lemma StaysFresh(live: Live, write: Write, k: nat)
    requires write.WellFormed() && k < |write.pieces| && StillFresh(live, write, k) && Orderly(live)
    requires forall i, j :: 0 <= i < j < |write.pieces| ==> Apart(At(write, i), At(write, j))
    ensures forall offset: nat ::
      StillFresh(live[write.item := Extended(Lookup(live, write.item), Segment(offset, write.pieces[k].address, write.pieces[k].bytes))], write, k + 1)
  {
    hide Extended, Orderly;
    forall offset: nat, j | k < j < |write.pieces|
      ensures Fresh(live[write.item := Extended(Lookup(live, write.item), Segment(offset, write.pieces[k].address, write.pieces[k].bytes))],
                    At(write, j))
    {
      assert Apart(At(write, k), At(write, j)) && Fresh(live, At(write, j));
      ExtendedFresh(live, write.item, Segment(offset, write.pieces[k].address, write.pieces[k].bytes), At(write, j));
    }
  }

  lemma ExtendedFresh(live: Live, o: nat, s: Segment, t: Segment)
    requires Fresh(live, t) && Apart(s, t) && s.bytes > 0 && t.bytes > 0
    ensures Fresh(live[o := Extended(Lookup(live, o), s)], t)
  {
    hide Extended;
    var after := live[o := Extended(Lookup(live, o), s)];
    forall p: nat, k: nat | p in after && k < |after[p]| ensures Apart(after[p][k], t) {
      if p == o {
        ExtendedAt(Lookup(live, o), s, k);
        if o in live && k < |live[o]| {
          assert Apart(live[o][k], t);
        }
      } else {
        assert Apart(live[p][k], t);
      }
    }
  }

  function Overwritten(target: Bytes, to: nat, n: nat, source: Bytes): (after: Bytes)
    ensures forall x: nat :: after(x) == if to <= x < to + n then source(x - to) else target(x)
  {
    Copy(target, to, n, source, 0)
  }

  method Smallest(s: set<nat>) returns (least: nat)
    requires s != {}
    ensures least in s && forall o :: o in s ==> least <= o
  {
    least :| least in s;
    var rest := s - {least};
    while rest != {}
      invariant rest <= s && least in s && forall o :: o in s && o !in rest ==> least <= o
      decreases rest
    {
      var o :| o in rest;
      if o < least {
        least := o;
      }
      rest := rest - {o};
    }
  }

  lemma OneVersion(setting: Setting, versions: seq<Version>, begin: nat, v: Version)
    requires setting.Valid() && LaidOut(setting, versions, begin) && v.base == LayoutEnd(setting, versions, begin)
    ensures LaidOut(setting, versions + [v], begin)
  {
    var longer := versions + [v];
    assert forall i :: 0 <= i <= |versions| ==> longer[..i] == versions[..i];
    assert versions[..|versions|] == versions;
  }

  lemma UntouchedResident(setting: Setting, hot: Bytes, live: Live, s: Segment, source: Bytes)
    requires Resident(setting, hot, live) && Fresh(live, s)
    ensures Resident(setting, Copy(hot, s.address, s.bytes, source, 0), live)
  {
    hide Copy, InPlace;
    forall o: nat, k: nat | o in live && k < |live[o]| ensures InPlace(setting, Copy(hot, s.address, s.bytes, source, 0), o, live[o][k]) {
      assert InPlace(setting, hot, o, live[o][k]) && Apart(live[o][k], s);
      StaysInPlace(setting, hot, o, live[o][k], s.address, s.bytes, source, 0);
    }
  }

  /** The root page names the publication. */
  ghost predicate RootIs(setting: Setting, flash: Bytes, body: Body)
  {
    forall x: nat :: setting.root <= x < setting.Arena() ==> flash(x) == setting.rootByte(body, x - setting.root)
  }

  /** The first n versions are on flash. */
  ghost predicate Held(setting: Setting, flash: Bytes, versions: seq<Version>, n: nat)
  {
    n <= |versions| && forall i :: 0 <= i < n ==> VersionHeld(setting, flash, versions[i])
  }

  ghost predicate Below(before: Bytes, after: Bytes, begin: nat)
  {
    forall x: nat :: x < begin ==> after(x) == before(x)
  }

  lemma OneHeld(setting: Setting, before: Bytes, after: Bytes, versions: seq<Version>, begin: nat, n: nat)
    requires setting.Valid() && LaidOut(setting, versions, begin) && n < |versions| && Held(setting, before, versions, n)
    requires VersionHeld(setting, after, versions[n])
    requires forall x: nat :: x < versions[n].base || versions[n].base + versions[n].bytes <= x ==> after(x) == before(x)
    ensures Held(setting, after, versions, n + 1) && Below(before, after, begin)
  {
    LaidApart(setting, versions, begin, n, n);
    forall i | 0 <= i < n ensures VersionHeld(setting, after, versions[i]) {
      LaidApart(setting, versions, begin, i, n);
      StillHeld(setting, before, after, versions[i], versions[n]);
    }
  }

  /** The objects outside `rest`, in the order of their names. */
  ghost predicate Listing(live: Live, rest: set<nat>, versions: seq<Version>)
  {
    && rest <= live.Keys && Manifest(versions)
    && (forall i, o :: 0 <= i < |versions| && o in rest ==> versions[i].item < o)
    && (forall i :: 0 <= i < |versions| ==> versions[i].item in live && live[versions[i].item] == versions[i].segments)
    && forall o :: o in live && o !in rest ==> Names(versions, o)
  }

  ghost predicate Names(versions: seq<Version>, o: nat)
  {
    exists i :: 0 <= i < |versions| && versions[i].item == o
  }

  lemma OneListed(live: Live, rest: set<nat>, versions: seq<Version>, v: Version)
    requires Listing(live, rest, versions) && v.item in rest && v.segments == live[v.item] && v.bytes == End(v.segments)
    requires Contiguous(v.segments) && forall o :: o in rest ==> v.item <= o
    ensures Listing(live, rest - {v.item}, versions + [v])
  {
    hide Contiguous;
    var longer := versions + [v];
    forall p | p in live && p !in rest - {v.item} ensures Names(longer, p) {
      if p == v.item {
        assert longer[|versions|].item == p;
      } else {
        assert Names(versions, p);
        var i :| 0 <= i < |versions| && versions[i].item == p;
        assert longer[i].item == p;
      }
    }
  }

  lemma DrawnFurther(setting: Setting, record: Record)
    requires setting.Valid() && WellPlaced(setting, record)
    ensures record.body.begin <= record.next
  {
    LayoutGrows(setting, record.body.versions, record.body.begin, 0);
  }

  lemma StillKept(setting: Setting, flash: Bytes, begin: nat, end: nat, published: Publication)
    requires setting.page > 0 && Kept(setting, flash, begin, published) && begin <= end
    ensures Kept(setting, flash, end, published)
  {
  }

  lemma StillHeld(setting: Setting, before: Bytes, after: Bytes, v: Version, w: Version)
    requires VersionHeld(setting, before, v) && v.base + v.bytes <= w.base
    requires forall x: nat :: x < w.base || w.base + w.bytes <= x ==> after(x) == before(x)
    ensures VersionHeld(setting, after, v)
  {
  }

  lemma CopiedOut(setting: Setting, hot: Bytes, before: Bytes, v: Version, s: Segment)
    requires InPlace(setting, hot, v.item, s) && s.offset + s.bytes <= v.bytes
    ensures
      var after := Copy(before, v.base + s.offset, s.bytes, hot, s.address);
      && (forall x: nat :: v.base + s.offset <= x < v.base + s.offset + s.bytes ==> after(x) == setting.kv(v.item, x - v.base))
      && forall x: nat :: x < v.base + s.offset || v.base + s.offset + s.bytes <= x ==> after(x) == before(x)
  {
    var after := Copy(before, v.base + s.offset, s.bytes, hot, s.address);
    forall x: nat | v.base + s.offset <= x < v.base + s.offset + s.bytes ensures after(x) == setting.kv(v.item, x - v.base) {
      var from: nat := s.address + (x - (v.base + s.offset));
      assert after(x) == hot(from);
      assert s.offset + (from - s.address) == x - v.base;
    }
  }

  // ------------------------------------------------------------------ publish

  lemma LogWritten(setting: Setting, before: Bytes, data: Bytes, flash: Bytes, record: Record)
    requires setting.Valid() && WellPlaced(setting, record)
    requires Held(setting, data, record.body.versions, |record.body.versions|) && Below(before, data, record.body.begin)
    requires flash == Overwritten(data, record.log, record.logBytes, (i: nat) => setting.logByte(record.body, i))
    ensures Holds(setting, flash, record) && AppendOnly(setting, before, flash, record.body.begin)
  {
    LayoutGrows(setting, record.body.versions, record.body.begin, 0);
    forall i | 0 <= i < |record.body.versions| ensures VersionHeld(setting, flash, record.body.versions[i]) {
      VersionsApart(setting, record, i, i);
      assert VersionHeld(setting, data, record.body.versions[i]);
    }
  }

  lemma RootWritten(setting: Setting, before: Bytes, logged: Bytes, flash: Bytes, record: Record)
    requires setting.Valid() && WellPlaced(setting, record) && Holds(setting, logged, record)
    requires AppendOnly(setting, before, logged, record.body.begin)
    requires flash == Overwritten(logged, setting.root, setting.page, (i: nat) => setting.rootByte(record.body, i))
    ensures Holds(setting, flash, record) && AppendOnly(setting, before, flash, record.body.begin)
    ensures RootIs(setting, flash, record.body)
  {
    assert AppendOnly(setting, logged, flash, record.next);
    HoldsAppend(setting, logged, flash, record.next, record);
  }

  lemma WrittenSound(setting: Setting, before: Bytes, flash: Bytes, record: Record, published: Publication)
    requires setting.Valid() && WellPlaced(setting, record) && Holds(setting, flash, record)
    requires AppendOnly(setting, before, flash, record.body.begin) && Kept(setting, before, record.body.begin, published)
    requires record.body.previous == if published.Published? then Previous(published.record.body) else Nothing
    ensures Sound(setting, Image(record, flash)) && record.body.begin <= record.next
    ensures Kept(setting, flash, record.next, published) && Kept(setting, flash, record.next, Published(record))
  {
    LayoutGrows(setting, record.body.versions, record.body.begin, 0);
    if published.Published? {
      HoldsAppend(setting, before, flash, record.body.begin, published.record);
      hide WellPlaced, VersionHeld, LogHeld;
      forall p: Record | record.body.previous == Previous(p.body) && WellPlaced(setting, p)
        ensures Holds(setting, flash, p) && p.next <= record.body.begin
      {
        SamePlace(setting, p, published.record, flash);
      }
    }
  }

  /** Records of one body are held together. */
  lemma SamePlace(setting: Setting, a: Record, b: Record, flash: Bytes)
    requires setting.Valid() && WellPlaced(setting, a) && WellPlaced(setting, b) && a.body == b.body
    ensures a.next == b.next && (Holds(setting, flash, a) <==> Holds(setting, flash, b))
  {
    PlacedOnce(setting, a, b);
  }

  // ------------------------------------------------------------------ restore

  /** An accepted publication lies below the end of the media's arena. */
  lemma AcceptedBelow(setting: Setting, media: Image, record: Record)
    requires setting.Valid() && Sound(setting, media) && WellPlaced(setting, record) && Accepts(media.record, record)
    ensures record.next <= media.record.next
  {
    hide Holds;
    LayoutGrows(setting, media.record.body.versions, media.record.body.begin, 0);
    if media.record.body == record.body {
      PlacedOnce(setting, media.record, record);
    }
  }

  /** The first k segments of a version are back in HBM. */
  ghost predicate Filled(setting: Setting, hot: Bytes, v: Version, k: nat)
  {
    k <= |v.segments| && forall j :: 0 <= j < k ==> InPlace(setting, hot, v.item, v.segments[j])
  }

  ghost predicate Placed(setting: Setting, hot: Bytes, versions: seq<Version>)
  {
    forall i :: 0 <= i < |versions| ==> Filled(setting, hot, versions[i], |versions[i].segments|)
  }

  lemma VersionContiguous(versions: seq<Version>, n: nat)
    requires Manifest(versions) && n < |versions|
    ensures Contiguous(versions[n].segments) && versions[n].bytes == End(versions[n].segments)
  {
  }

  lemma NoneFilled(setting: Setting, hot: Bytes, v: Version)
    ensures Filled(setting, hot, v, 0)
  {
  }

  lemma RestoredSegment(setting: Setting, flash: Bytes, before: Bytes, v: Version, s: Segment)
    requires VersionHeld(setting, flash, v) && s.offset + s.bytes <= v.bytes
    ensures InPlace(setting, Copy(before, s.address, s.bytes, flash, v.base + s.offset), v.item, s)
  {
    var after := Copy(before, s.address, s.bytes, flash, v.base + s.offset);
    forall x: nat | s.address <= x < s.address + s.bytes ensures after(x) == setting.kv(v.item, s.offset + (x - s.address)) {
      var from: nat := v.base + s.offset + (x - s.address);
      assert flash(from) == setting.kv(v.item, from - v.base);
    }
  }

  /** HBM once segment k of version n is copied back. */
  ghost function Back(flash: Bytes, before: Bytes, v: Version, k: nat): Bytes
    requires k < |v.segments|
  {
    Copy(before, v.segments[k].address, v.segments[k].bytes, flash, v.base + v.segments[k].offset)
  }

  lemma OneStays(setting: Setting, flash: Bytes, before: Bytes, v: Version, k: nat, o: nat, t: Segment)
    requires k < |v.segments| && InPlace(setting, before, o, t) && Apart(t, v.segments[k])
    ensures InPlace(setting, Back(flash, before, v, k), o, t)
  {
    hide InPlace, Copy;
    StaysInPlace(setting, before, o, t, v.segments[k].address, v.segments[k].bytes, flash, v.base + v.segments[k].offset);
  }

  lemma OthersStay(setting: Setting, flash: Bytes, before: Bytes, replayed: Live, versions: seq<Version>, n: nat, k: nat)
    requires n < |versions| && k < |versions[n].segments|
    requires Orderly(replayed) && Matches(replayed, versions) && Manifest(versions) && Placed(setting, before, versions[..n])
    ensures Placed(setting, Back(flash, before, versions[n], k), versions[..n])
  {
    hide InPlace, Contiguous, Orderly, Matches, Manifest, Back;
    forall i | 0 <= i < n ensures Filled(setting, Back(flash, before, versions[n], k), versions[i], |versions[i].segments|) {
      assert versions[..n][i] == versions[i];
      assert Filled(setting, before, versions[i], |versions[i].segments|);
      forall j | 0 <= j < |versions[i].segments|
        ensures InPlace(setting, Back(flash, before, versions[n], k), versions[i].item, versions[i].segments[j])
      {
        SegmentsApart(replayed, versions, i, j, n, k);
        OneStays(setting, flash, before, versions[n], k, versions[i].item, versions[i].segments[j]);
      }
    }
  }

  lemma CopiedIn(setting: Setting, flash: Bytes, before: Bytes, replayed: Live, versions: seq<Version>, n: nat, k: nat)
    requires n < |versions| && k < |versions[n].segments| && VersionHeld(setting, flash, versions[n])
    requires Orderly(replayed) && Matches(replayed, versions) && Manifest(versions)
    requires Placed(setting, before, versions[..n]) && Filled(setting, before, versions[n], k)
    requires versions[n].segments[k].offset + versions[n].segments[k].bytes <= versions[n].bytes
    ensures Placed(setting, Back(flash, before, versions[n], k), versions[..n])
    ensures Filled(setting, Back(flash, before, versions[n], k), versions[n], k + 1)
  {
    var v := versions[n];
    hide Placed, Manifest, Matches, Orderly, Contiguous, Filled, InPlace, VersionHeld, Back;
    OthersStay(setting, flash, before, replayed, versions, n, k);
    EarlierStay(setting, flash, before, replayed, versions, n, k);
    SegmentBack(setting, flash, before, v, k);
    FilledNext(setting, Back(flash, before, v, k), v, k);
  }

  lemma SegmentBack(setting: Setting, flash: Bytes, before: Bytes, v: Version, k: nat)
    requires VersionHeld(setting, flash, v) && k < |v.segments| && v.segments[k].offset + v.segments[k].bytes <= v.bytes
    ensures InPlace(setting, Back(flash, before, v, k), v.item, v.segments[k])
  {
    hide InPlace, VersionHeld, Copy;
    RestoredSegment(setting, flash, before, v, v.segments[k]);
  }

  lemma FilledNext(setting: Setting, hot: Bytes, v: Version, k: nat)
    requires k < |v.segments| && Filled(setting, hot, v, k) && InPlace(setting, hot, v.item, v.segments[k])
    ensures Filled(setting, hot, v, k + 1)
  {
  }

  lemma EarlierStay(setting: Setting, flash: Bytes, before: Bytes, replayed: Live, versions: seq<Version>, n: nat, k: nat)
    requires n < |versions| && k < |versions[n].segments|
    requires Orderly(replayed) && Matches(replayed, versions) && Manifest(versions) && Filled(setting, before, versions[n], k)
    ensures Filled(setting, Back(flash, before, versions[n], k), versions[n], k)
  {
    var v := versions[n];
    hide InPlace, Contiguous, Orderly, Matches, Manifest, Back;
    forall j | 0 <= j < k ensures InPlace(setting, Back(flash, before, v, k), v.item, v.segments[j]) {
      SegmentsApart(replayed, versions, n, j, n, k);
      OneStays(setting, flash, before, v, k, v.item, v.segments[j]);
    }
  }

  lemma SegmentsApart(replayed: Live, versions: seq<Version>, i: nat, j: nat, n: nat, k: nat)
    requires Orderly(replayed) && Matches(replayed, versions) && Manifest(versions)
    requires i <= n < |versions| && j < |versions[i].segments| && k < |versions[n].segments| && (i == n ==> j != k)
    ensures Apart(versions[i].segments[j], versions[n].segments[k])
  {
    assert Apart(replayed[versions[i].item][j], replayed[versions[n].item][k]);
  }

  lemma AllFilled(setting: Setting, hot: Bytes, versions: seq<Version>, n: nat)
    requires n < |versions| && Placed(setting, hot, versions[..n]) && Filled(setting, hot, versions[n], |versions[n].segments|)
    ensures Placed(setting, hot, versions[..n + 1])
  {
    hide Filled;
    assert versions[..n + 1] == versions[..n] + [versions[n]];
  }

  lemma AllPlaced(setting: Setting, hot: Bytes, replayed: Live, versions: seq<Version>)
    requires Placed(setting, hot, versions[..|versions|]) && Matches(replayed, versions)
    ensures Resident(setting, hot, replayed)
  {
    hide InPlace;
    assert versions[..|versions|] == versions;
    forall o: nat, k: nat | o in replayed && k < |replayed[o]| ensures InPlace(setting, hot, o, replayed[o][k]) {
      var i :| 0 <= i < |versions| && versions[i].item == o;
      assert Filled(setting, hot, versions[i], |versions[i].segments|);
    }
  }
}
