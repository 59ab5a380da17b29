/** How completed KV writes become the segments of the live objects. */
module Projections {
  import opened PrefixKeys
  import opened Recoveries
  import KvPieces

  /** A write operation of a completed batch, as the contiguous extents it was mapped to. */
  datatype Write = Write(item: nat, offset: nat, pieces: seq<KvPieces.Piece>)
  {
    ghost predicate WellFormed()
    {
      forall k :: 0 <= k < |pieces| ==> pieces[k].bytes > 0
    }
  }

  /** One extent at the frontier of an object, or nothing when it is not there. */
  function NoteOne(live: Live, item: nat, offset: nat, piece: KvPieces.Piece): Option<Live>
  {
    if offset != End(Lookup(live, item)) then None
    else Some(live[item := Extended(Lookup(live, item), Segment(offset, piece.address, piece.bytes))])
  }

  function Length(pieces: seq<KvPieces.Piece>): nat
  {
    if pieces == [] then 0 else Length(pieces[..|pieces| - 1]) + pieces[|pieces| - 1].bytes
  }

  /** One extent after the other. */
  function Note(live: Live, write: Write): Option<Live>
    decreases |write.pieces|
  {
    if write.pieces == [] then Some(live)
    else
      var front := write.pieces[..|write.pieces| - 1];
      match Note(live, write.(pieces := front))
      case None => None
      case Some(before) => NoteOne(before, write.item, write.offset + Length(front), write.pieces[|write.pieces| - 1])
  }

  function NoteAll(live: Live, writes: seq<Write>): Option<Live>
  {
    if writes == [] then Some(live)
    else
      match NoteAll(live, writes[..|writes| - 1])
      case None => None
      case Some(before) => Note(before, writes[|writes| - 1])
  }

  lemma NotePush(live: Live, write: Write, k: nat)
    requires k < |write.pieces|
    ensures Note(live, write.(pieces := write.pieces[..k + 1])) ==
      match Note(live, write.(pieces := write.pieces[..k]))
      case None => None
      case Some(before) => NoteOne(before, write.item, write.offset + Length(write.pieces[..k]), write.pieces[k])
  {
    hide NoteOne, Length;
    assert write.pieces[..k + 1][..k] == write.pieces[..k];
  }

  lemma LengthPush(pieces: seq<KvPieces.Piece>, k: nat)
    requires k < |pieces|
    ensures Length(pieces[..k + 1]) == Length(pieces[..k]) + pieces[k].bytes
  {
    assert pieces[..k + 1][..k] == pieces[..k];
  }

  lemma NoteAllPush(live: Live, writes: seq<Write>, k: nat)
    requires k < |writes|
    ensures NoteAll(live, writes[..k + 1]) == match NoteAll(live, writes[..k]) case None => None case Some(before) => Note(before, writes[k])
  {
    assert writes[..k + 1][..k] == writes[..k];
  }

  /** Where the writing stops, it stops for good. */
  lemma {:induction false} NoteStops(live: Live, write: Write, k: nat)
    requires k <= |write.pieces| && Note(live, write.(pieces := write.pieces[..k])).None?
    ensures Note(live, write).None?
    decreases |write.pieces| - k
  {
    if k < |write.pieces| {
      NotePush(live, write, k);
      NoteStops(live, write, k + 1);
    } else {
      assert write.pieces[..k] == write.pieces;
    }
  }

  lemma {:induction false} NoteAllStops(live: Live, writes: seq<Write>, k: nat)
    requires k <= |writes| && NoteAll(live, writes[..k]).None?
    ensures NoteAll(live, writes).None?
    decreases |writes| - k
  {
    if k < |writes| {
      NoteAllPush(live, writes, k);
      NoteAllStops(live, writes, k + 1);
    } else {
      assert writes[..k] == writes;
    }
  }

  // ---------------------------------------------------------------- byte by byte

  /** The same, one byte after the other. */
  ghost function NoteBytes(live: Live, item: nat, offset: nat, addresses: seq<nat>): Option<Live>
    decreases |addresses|
  {
    if addresses == [] then Some(live)
    else
      var n := |addresses| - 1;
      match NoteBytes(live, item, offset, addresses[..n])
      case None => None
      case Some(before) => NoteOne(before, item, offset + n, KvPieces.Piece(addresses[n], 1))
  }

  /** An extent, and one more byte behind it. */
  lemma OneByteMore(segments: seq<Segment>, at: nat, address: nat, n: nat)
    requires at == End(segments) && n > 0
    ensures var mid := Extended(segments, Segment(at, address, n));
      && End(mid) == at + n
      && Extended(mid, Segment(at + n, address + n, 1)) == Extended(segments, Segment(at, address, n + 1))
  {
    var mid := Extended(segments, Segment(at, address, n));
    assert mid[|mid| - 1].address + mid[|mid| - 1].bytes == address + n;
    if segments != [] && segments[|segments| - 1].address + segments[|segments| - 1].bytes == address {
      assert mid[..|mid| - 1] == segments[..|segments| - 1];
    } else {
      assert mid[..|mid| - 1] == segments;
    }
  }

  lemma NoteOneMore(live: Live, item: nat, offset: nat, address: nat, n: nat)
    requires n > 0
    ensures NoteOne(live, item, offset, KvPieces.Piece(address, n + 1)) ==
      match NoteOne(live, item, offset, KvPieces.Piece(address, n))
      case None => None
      case Some(mid) => NoteOne(mid, item, offset + n, KvPieces.Piece(address + n, 1))
  {
    hide Extended, End;
    if offset == End(Lookup(live, item)) {
      OneByteMore(Lookup(live, item), offset, address, n);
      var mid := Extended(Lookup(live, item), Segment(offset, address, n));
      var longer := Extended(mid, Segment(offset + n, address + n, 1));
      assert Lookup(live[item := mid], item) == mid && live[item := mid][item := longer] == live[item := longer];
    }
  }

  lemma BytesPush(live: Live, item: nat, offset: nat, addresses: seq<nat>, address: nat)
    ensures NoteBytes(live, item, offset, addresses + [address]) ==
      match NoteBytes(live, item, offset, addresses)
      case None => None
      case Some(before) => NoteOne(before, item, offset + |addresses|, KvPieces.Piece(address, 1))
  {
    hide NoteOne;
    assert (addresses + [address])[..|addresses|] == addresses;
  }

  lemma AddressesPush(before: seq<nat>, address: nat, n: nat)
    ensures before + KvPieces.Piece(address, n + 1).Addresses() == (before + KvPieces.Piece(address, n).Addresses()) + [address + n]
    ensures before + KvPieces.Piece(address, 0).Addresses() == before
  {
  }

  /** The bytes of an extent come to the extent. */
  lemma {:induction false} PieceBytes(live: Live, item: nat, offset: nat, before: seq<nat>, address: nat, n: nat)
    requires n > 0 && NoteBytes(live, item, offset, before).Some?
    ensures NoteBytes(live, item, offset, before + KvPieces.Piece(address, n).Addresses())
         == NoteOne(NoteBytes(live, item, offset, before).value, item, offset + |before|, KvPieces.Piece(address, n))
    decreases n
  {
    hide NoteOne, NoteBytes, KvPieces.Piece.Addresses;
    AddressesPush(before, address, n - 1);
    BytesPush(live, item, offset, before + KvPieces.Piece(address, n - 1).Addresses(), address + n - 1);
    if n > 1 {
      PieceBytes(live, item, offset, before, address, n - 1);
      NoteOneMore(NoteBytes(live, item, offset, before).value, item, offset + |before|, address, n - 1);
      AddressesLength(address, n - 1);
    }
  }

  lemma AddressesLength(address: nat, n: nat)
    ensures |KvPieces.Piece(address, n).Addresses()| == n
  {
  }

  /** What does not fit before does not fit with more behind it. */
  lemma {:induction false} BytesStop(live: Live, item: nat, offset: nat, before: seq<nat>, more: seq<nat>)
    requires NoteBytes(live, item, offset, before).None?
    ensures NoteBytes(live, item, offset, before + more).None?
    decreases |more|
  {
    hide NoteOne;
    if more == [] {
      assert before + more == before;
    } else {
      var n := |more| - 1;
      BytesStop(live, item, offset, before, more[..n]);
      assert (before + more)[..|before| + n] == before + more[..n];
    }
  }

  lemma {:induction false} NoteIsBytes(live: Live, write: Write)
    requires write.WellFormed()
    ensures Note(live, write) == NoteBytes(live, write.item, write.offset, KvPieces.Expanded(write.pieces))
    ensures |KvPieces.Expanded(write.pieces)| == Length(write.pieces)
    decreases |write.pieces|
  {
    hide NoteOne, NoteBytes, Note, KvPieces.Piece.Addresses, KvPieces.Expanded, Length;
    if write.pieces == [] {
      NoteNone(live, write);
    } else {
      var n := |write.pieces| - 1;
      var front, last := write.(pieces := write.pieces[..n]), write.pieces[n];
      assert write.pieces[..n + 1] == write.pieces == write.pieces[..n] + [last];
      NotePush(live, write, n);
      LengthPush(write.pieces, n);
      KvPieces.ExpandedPush(front.pieces, last);
      NoteIsBytes(live, front);
      LastBytes(live, write, KvPieces.Expanded(front.pieces), last);
    }
  }

  lemma NoteNone(live: Live, write: Write)
    requires write.pieces == []
    ensures Note(live, write) == NoteBytes(live, write.item, write.offset, KvPieces.Expanded(write.pieces))
    ensures |KvPieces.Expanded(write.pieces)| == Length(write.pieces)
  {
  }

  lemma LastBytes(live: Live, write: Write, before: seq<nat>, last: KvPieces.Piece)
    requires last.bytes > 0
    ensures |before + last.Addresses()| == |before| + last.bytes
    ensures NoteBytes(live, write.item, write.offset, before + last.Addresses()) ==
      match NoteBytes(live, write.item, write.offset, before)
      case None => None
      case Some(mid) => NoteOne(mid, write.item, write.offset + |before|, last)
  {
    hide NoteOne, NoteBytes;
    assert last == KvPieces.Piece(last.address, last.bytes);
    if NoteBytes(live, write.item, write.offset, before).Some? {
      PieceBytes(live, write.item, write.offset, before, last.address, last.bytes);
    } else {
      BytesStop(live, write.item, write.offset, before, last.Addresses());
    }
  }

  /** How an operation was cut into extents does not matter, the bytes do. */
  lemma NoteSame(live: Live, a: Write, b: Write)
    requires a.WellFormed() && b.WellFormed() && a.item == b.item && a.offset == b.offset
    requires KvPieces.Expanded(a.pieces) == KvPieces.Expanded(b.pieces)
    ensures Note(live, a) == Note(live, b)
  {
    NoteIsBytes(live, a);
    NoteIsBytes(live, b);
  }

  /** Two ways to write the same bytes to the same places. */
  ghost predicate SameWrites(a: seq<Write>, b: seq<Write>)
  {
    |a| == |b| && forall k :: 0 <= k < |a| ==> SameWrite(a[k], b[k])
  }

  ghost predicate SameWrite(a: Write, b: Write)
  {
    && a.WellFormed() && b.WellFormed() && a.item == b.item && a.offset == b.offset
    && KvPieces.Expanded(a.pieces) == KvPieces.Expanded(b.pieces)
  }

  lemma {:induction false} NoteAllSame(live: Live, a: seq<Write>, b: seq<Write>)
    requires SameWrites(a, b)
    ensures NoteAll(live, a) == NoteAll(live, b)
    decreases |a|
  {
    hide Note, Write.WellFormed, KvPieces.Expanded;
    if a != [] {
      var n := |a| - 1;
      NoteAllSame(live, a[..n], b[..n]);
      assert SameWrite(a[n], b[n]);
      if NoteAll(live, a[..n]).Some? {
        NoteSame(NoteAll(live, a[..n]).value, a[n], b[n]);
      }
    }
  }
}
