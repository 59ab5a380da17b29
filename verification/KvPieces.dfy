/** From the bytes of a request's KV layer to contiguous extents of HBM. */
module KvPieces {
  import opened Modular

  datatype Piece = Piece(address: nat, bytes: nat)
  {
    function Addresses(): (all: seq<nat>)
      ensures |all| == bytes && forall i :: 0 <= i < bytes ==> all[i] == address + i
    {
      seq(bytes, i requires 0 <= i < bytes => address + i)
    }
  }

  /** The addresses that a list of pieces covers, in order. */
  function Expanded(pieces: seq<Piece>): seq<nat>
  {
    if pieces == [] then [] else Expanded(pieces[..|pieces| - 1]) + pieces[|pieces| - 1].Addresses()
  }

  lemma ExpandedPush(pieces: seq<Piece>, piece: Piece)
    ensures Expanded(pieces + [piece]) == Expanded(pieces) + piece.Addresses()
  {
    assert (pieces + [piece])[..|pieces|] == pieces;
  }

  lemma {:induction false} ExpandedJoin(a: seq<Piece>, b: seq<Piece>)
    ensures Expanded(a + b) == Expanded(a) + Expanded(b)
    decreases |b|
  {
    if b == [] {
      assert a + b == a;
    } else {
      var n := |b| - 1;
      assert (a + b)[..|a| + n] == a + b[..n];
      ExpandedJoin(a, b[..n]);
    }
  }

  /** No piece is empty, and none continues the one before it. */
  ghost predicate Separate(pieces: seq<Piece>)
  {
    && (forall i :: 0 <= i < |pieces| ==> pieces[i].bytes > 0)
    && forall i :: 0 <= i && i + 1 < |pieces| ==> pieces[i].address + pieces[i].bytes != pieces[i + 1].address
  }

  /** Appends an extent, joined to the last piece when it continues it. */
  function Push(pieces: seq<Piece>, piece: Piece): (longer: seq<Piece>)
    ensures Expanded(longer) == Expanded(pieces) + piece.Addresses()
    ensures Separate(pieces) && piece.bytes > 0 ==> Separate(longer)
  {
    if pieces != [] && pieces[|pieces| - 1].address + pieces[|pieces| - 1].bytes == piece.address then
      var last := pieces[|pieces| - 1];
      var joined := Piece(last.address, last.bytes + piece.bytes);
      assert joined.Addresses() == last.Addresses() + piece.Addresses();
      ExpandedPush(pieces[..|pieces| - 1], joined);
      pieces[..|pieces| - 1] + [joined]
    else
      ExpandedPush(pieces, piece);
      pieces + [piece]
  }

  /** A request's block table for one layer.  Only the first `used` bytes of a block hold data. */
  datatype Table = Table(blocks: seq<nat>, used: nat, begin: nat, blockBytes: nat)
  {
    ghost predicate Valid()
    {
      0 < used <= blockBytes && forall i, j :: 0 <= i < j < |blocks| ==> blocks[i] != blocks[j]
    }

    function BlockAddress(ordinal: nat): nat
      requires ordinal < |blocks|
    {
      begin + blocks[ordinal] * blockBytes
    }

    /** Where byte i of the layer is. */
    function Location(i: nat): nat
      requires used > 0 && Ordinal(i, used) < |blocks|
    {
      BlockAddress(Ordinal(i, used)) + Within(i, used)
    }

    /** The table reaches as far as the end of the extent. */
    ghost predicate Reaches(offset: nat, count: nat)
      requires used > 0
    {
      forall i: nat :: offset <= i < offset + count ==> Ordinal(i, used) < |blocks|
    }

    ghost function Locations(offset: nat, count: nat): (all: seq<nat>)
      requires used > 0 && Reaches(offset, count)
      ensures |all| == count && forall i :: 0 <= i < count ==> all[i] == Location(offset + i)
    {
      if count == 0 then [] else Locations(offset, count - 1) + [Location(offset + count - 1)]
    }
  }

  /** The block that holds a byte, and the byte's place in it. */
  function Ordinal(i: nat, used: nat): nat
    requires used > 0
  {
    i / used
  }

  function Within(i: nat, used: nat): (within: nat)
    requires used > 0
    ensures within < used
  {
    i % used
  }

  /** The next byte of the same block. */
  lemma Next(i: nat, j: nat, used: nat)
    requires used > 0 && i <= j && Within(i, used) + (j - i) < used
    ensures Ordinal(j, used) == Ordinal(i, used) && Within(j, used) == Within(i, used) + (j - i)
  {
    DivModUnique(j, used, i / used, i % used + (j - i));
  }

  /** The rest of a block holds consecutive bytes of the layer. */
  lemma OneMore(t: Table, offset: nat, cursor: nat, take: nat)
    requires t.used > 0 && offset <= cursor && t.Reaches(offset, cursor - offset)
    requires Within(cursor, t.used) + take <= t.used && Ordinal(cursor, t.used) < |t.blocks|
    ensures t.Reaches(offset, cursor + take - offset)
    ensures t.Locations(offset, cursor + take - offset)
         == t.Locations(offset, cursor - offset) + Piece(t.BlockAddress(Ordinal(cursor, t.used)) + Within(cursor, t.used), take).Addresses()
  {
    hide Ordinal, Within, Table.BlockAddress;
    forall i: nat | cursor <= i < cursor + take
      ensures Ordinal(i, t.used) == Ordinal(cursor, t.used) && Within(i, t.used) == Within(cursor, t.used) + (i - cursor)
    {
      Next(cursor, i, t.used);
    }
    forall i: nat | offset <= i < cursor + take ensures Ordinal(i, t.used) < |t.blocks| {
      if i < cursor {
        assert offset <= i < offset + (cursor - offset);
      }
    }
    var piece := Piece(t.BlockAddress(Ordinal(cursor, t.used)) + Within(cursor, t.used), take);
    var before, all := t.Locations(offset, cursor - offset), t.Locations(offset, cursor + take - offset);
    forall i: nat | i < |all| ensures all[i] == (before + piece.Addresses())[i] {
      if offset + i < cursor {
        assert all[i] == before[i];
      } else {
        assert (before + piece.Addresses())[i] == piece.Addresses()[offset + i - cursor];
      }
    }
  }

  datatype Split = Exceeds | Split(pieces: seq<Piece>)

  /** Splits an extent of a layer: the pieces are its bytes in order, as few as possible, and the
      only failure is an extent that leaves the table. */
  method SplitKv(t: Table, offset: nat, count: nat) returns (split: Split)
    requires t.used > 0
    ensures split.Exceeds? <==> !t.Reaches(offset, count)
    ensures split.Split? ==> Expanded(split.pieces) == t.Locations(offset, count) && Separate(split.pieces)
  {
    hide Expanded, Separate, Table.Reaches, Ordinal, Within, Table.BlockAddress, Push;
    var pieces: seq<Piece> := [];
    var cursor := offset;
    Nothing(t, offset);
    while cursor < offset + count
      invariant offset <= cursor <= offset + count
      invariant t.Reaches(offset, cursor - offset) && Expanded(pieces) == t.Locations(offset, cursor - offset) && Separate(pieces)
    {
      var ordinal, within := Ordinal(cursor, t.used), Within(cursor, t.used);
      var take := if t.used - within < offset + count - cursor then t.used - within else offset + count - cursor;
      if ordinal >= |t.blocks| {
        Leaves(t, offset, count, cursor);
        return Exceeds;
      }
      OneMore(t, offset, cursor, take);
      pieces := Push(pieces, Piece(t.BlockAddress(ordinal) + within, take));
      cursor := cursor + take;
    }
    split := Split(pieces);
  }

  lemma Nothing(t: Table, offset: nat)
    requires t.used > 0
    ensures t.Reaches(offset, 0) && Expanded([]) == t.Locations(offset, 0) && Separate([])
  {
  }

  lemma Leaves(t: Table, offset: nat, count: nat, cursor: nat)
    requires t.used > 0 && offset <= cursor < offset + count && Ordinal(cursor, t.used) >= |t.blocks|
    ensures !t.Reaches(offset, count)
  {
  }

  /** Two bytes never share an address, within one table or between tables without a common block. */
  lemma LocationsDistinct(t: Table, u: Table, i: nat, j: nat)
    requires 0 < t.used <= t.blockBytes && 0 < u.used <= t.blockBytes && t.begin == u.begin && t.blockBytes == u.blockBytes
    requires Ordinal(i, t.used) < |t.blocks| && Ordinal(j, u.used) < |u.blocks|
    ensures t.Location(i) == u.Location(j) <==>
      t.blocks[Ordinal(i, t.used)] == u.blocks[Ordinal(j, u.used)] && Within(i, t.used) == Within(j, u.used)
  {
    hide Ordinal, Within;
    var a, b := t.blocks[Ordinal(i, t.used)], u.blocks[Ordinal(j, u.used)];
    if a < b {
      MultiplesOrdered(a, b, t.blockBytes);
    } else if b < a {
      MultiplesOrdered(b, a, t.blockBytes);
    }
  }

  lemma TableInjective(t: Table, i: nat, j: nat)
    requires t.Valid() && Ordinal(i, t.used) < |t.blocks| && Ordinal(j, t.used) < |t.blocks|
    ensures t.Location(i) == t.Location(j) <==> i == j
  {
    LocationsDistinct(t, t, i, j);
    Recompose(i, t.used);
    Recompose(j, t.used);
    hide Ordinal, Within, Table.Location;
    if t.Location(i) == t.Location(j) {
      var a, b := Ordinal(i, t.used), Ordinal(j, t.used);
      assert t.blocks[a] == t.blocks[b];
      assert a == b;
    }
  }

  lemma Recompose(i: nat, used: nat)
    requires used > 0
    ensures i == Ordinal(i, used) * used + Within(i, used)
  {
  }

  // ------------------------------------------------------------------ stripes

  /** The piece consists of whole stripes and includes the one at `at`. */
  ghost predicate Replicates(piece: Piece, at: nat, stripe: nat)
    requires stripe > 0
  {
    Whole(piece.address, stripe) && Whole(piece.bytes, stripe) && piece.address <= at && at + stripe <= piece.address + piece.bytes
  }

  /** Every whole stripe of the extent lies in one piece of whole stripes. */
  ghost predicate StripesKept(pieces: seq<Piece>, address: nat, count: nat, stripe: nat)
    requires stripe > 0
  {
    forall at: nat :: address <= at && at + stripe <= address + count && Whole(at, stripe) ==>
      exists k: nat :: k < |pieces| && Replicates(pieces[k], at, stripe)
  }

  /** Multiples of the stripe are a stripe apart. */
  lemma Apart(a: nat, b: nat, stripe: nat)
    requires stripe > 0 && Whole(a, stripe) && Whole(b, stripe) && a < b
    ensures a + stripe <= b && Whole(b - a, stripe)
  {
    MultiplesOrdered(a / stripe, b / stripe, stripe);
    MultiplesOrdered(b / stripe, a / stripe, stripe);
    assert a == (a / stripe) * stripe && b == (b / stripe) * stripe;
    assert b - a == (b / stripe - a / stripe) * stripe;
    DivModUnique(b - a, stripe, b / stripe - a / stripe, 0);
  }

  /** There is a border only where the whole stripes begin and where they end. */
  ghost predicate StripeBorders(pieces: seq<Piece>, address: nat, count: nat, stripe: nat)
    requires stripe > 0
  {
    forall k :: 0 < k < |pieces| ==>
      && RoundUp(address, stripe) < RoundDown(address + count, stripe)
      && (pieces[k].address == RoundUp(address, stripe) || pieces[k].address == RoundDown(address + count, stripe))
  }

  /** An extent cut at the borders of its whole stripes: no byte is lost, and no cut is made elsewhere. */
  ghost predicate StripeCut(pieces: seq<Piece>, address: nat, count: nat, stripe: nat)
  {
    && Expanded(pieces) == Piece(address, count).Addresses() && (forall k :: 0 <= k < |pieces| ==> pieces[k].bytes > 0)
    && if stripe == 0 then |pieces| == 1 else StripesKept(pieces, address, count, stripe) && StripeBorders(pieces, address, count, stripe)
  }

  /** Splits an extent at whole stripes.  No byte is lost, and all whole stripes are in one piece. */
  method SplitStripes(address: nat, count: nat, stripe: nat) returns (pieces: seq<Piece>)
    requires count > 0
    ensures Expanded(pieces) == Piece(address, count).Addresses() && 1 <= |pieces| <= 3
    ensures forall k :: 0 <= k < |pieces| ==> pieces[k].bytes > 0
    ensures StripeCut(pieces, address, count, stripe)
  {
    hide Whole, Expanded, StripesKept;
    Alone(address, count);
    if stripe == 0 {
      return [Piece(address, count)];
    }
    if count < stripe {
      NoStripe(address, count, stripe, [Piece(address, count)]);
      return [Piece(address, count)];
    }
    var end := address + count;
    var first, last := RoundUp(address, stripe), RoundDown(end, stripe);
    Inside(address, end, first, last, stripe);
    if last <= first {
      NoStripe(address, count, stripe, [Piece(address, count)]);
      return [Piece(address, count)];
    }
    Apart(first, last, stripe);
    var head := if first > address then [Piece(address, first - address)] else [];
    var tail := if end > last then [Piece(last, end - last)] else [];
    pieces := head + [Piece(first, last - first)] + tail;
    ThreeParts(address, first, last, end, head, tail);
    assert pieces[|head|] == Piece(first, last - first);
    AllInside(pieces, |head|, address, count, stripe);
  }

  lemma Alone(address: nat, count: nat)
    ensures Expanded([Piece(address, count)]) == Piece(address, count).Addresses()
  {
    ExpandedPush([], Piece(address, count));
    assert [] + [Piece(address, count)] == [Piece(address, count)];
  }

  lemma ThreeParts(address: nat, first: nat, last: nat, end: nat, head: seq<Piece>, tail: seq<Piece>)
    requires address <= first < last <= end
    requires head == if first > address then [Piece(address, first - address)] else []
    requires tail == if end > last then [Piece(last, end - last)] else []
    ensures Expanded(head + [Piece(first, last - first)] + tail) == Piece(address, end - address).Addresses()
  {
    Alone(address, first - address);
    assert Expanded(head) == Piece(address, first - address).Addresses();
    ExpandedPush(head, Piece(first, last - first));
    var two := head + [Piece(first, last - first)];
    assert Expanded(two) == Piece(address, last - address).Addresses();
    if end > last {
      ExpandedPush(two, Piece(last, end - last));
    } else {
      assert two + tail == two;
    }
  }

  lemma NoStripe(address: nat, count: nat, stripe: nat, pieces: seq<Piece>)
    requires stripe > 0
    requires forall at: nat :: address <= at && at + stripe <= address + count && Whole(at, stripe) ==> false
    ensures StripesKept(pieces, address, count, stripe)
  {
  }

  lemma AllInside(pieces: seq<Piece>, k: nat, address: nat, count: nat, stripe: nat)
    requires stripe > 0 && k < |pieces| && Whole(pieces[k].address, stripe) && Whole(pieces[k].bytes, stripe)
    requires forall at: nat :: address <= at && at + stripe <= address + count && Whole(at, stripe) ==>
      pieces[k].address <= at && at + stripe <= pieces[k].address + pieces[k].bytes
    ensures StripesKept(pieces, address, count, stripe)
  {
    forall at: nat | address <= at && at + stripe <= address + count && Whole(at, stripe)
      ensures exists k: nat :: k < |pieces| && Replicates(pieces[k], at, stripe)
    {
      assert Replicates(pieces[k], at, stripe);
    }
  }

  /** A whole stripe lies between the rounded ends. */
  lemma Inside(address: nat, end: nat, first: nat, last: nat, stripe: nat)
    requires stripe > 0 && Whole(first, stripe) && Whole(last, stripe)
    requires address <= first < address + stripe && last <= end < last + stripe
    ensures forall at: nat :: address <= at && at + stripe <= end && Whole(at, stripe) ==> first <= at && at + stripe <= last
  {
    forall at: nat | address <= at && at + stripe <= end && Whole(at, stripe) ensures first <= at && at + stripe <= last {
      if at < first {
        Apart(at, first, stripe);
      }
      if last <= at {
        if last < at {
          Apart(last, at, stripe);
        }
      } else {
        Apart(at, last, stripe);
      }
    }
  }
}
