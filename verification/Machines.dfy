/** What the transactions of a log do to memory: which bytes each one reads and writes, and what is
    in a byte after the first transactions, executed one after the other.
 */
module Machines {
  import opened Modular
  import opened BlockRuns
  import opened PrefixKeys
  import opened KvMemory
  import opened Transactions
  import opened Executions

  /** Where the two pools begin, and the size of their blocks. */
  datatype Arena = Arena(hotBegin: nat, coldBegin: nat, blockBytes: nat)

  /** A byte of HBM, a byte of the cold tier, or a byte of a run that has been read and not written yet. */
  datatype Place = InHbm(address: nat) | InCold(address: nat) | OnTheWay(reader: nat, at: nat)

  /** The address of a byte of a block. */
  function Address(begin: nat, block: nat, blockBytes: nat, x: nat): nat
  {
    begin + block * blockBytes + x
  }

  function Length(run: Run, arena: Arena): nat
  {
    run.count * arena.blockBytes
  }

  function HbmRange(lo: nat, n: nat): (places: set<Place>)
    ensures forall p :: p in places <==> p.InHbm? && lo <= p.address < lo + n
  {
    set a: nat | lo <= a < lo + n :: InHbm(a)
  }

  function ColdRange(lo: nat, n: nat): (places: set<Place>)
    ensures forall p :: p in places <==> p.InCold? && lo <= p.address < lo + n
  {
    set a: nat | lo <= a < lo + n :: InCold(a)
  }

  function WayRange(reader: nat, n: nat): (places: set<Place>)
    ensures forall p :: p in places <==> p.OnTheWay? && p.reader == reader && p.at < n
  {
    set a: nat | a < n :: OnTheWay(reader, a)
  }

  function Reads(work: Work, id: nat, arena: Arena): set<Place>
  {
    match work
    case HotRead(run) => HbmRange(Address(arena.hotBegin, run.source, arena.blockBytes, 0), Length(run, arena))
    case ColdWrite(run, read) => WayRange(read, Length(run, arena))
    case ColdRead(run) => ColdRange(Address(arena.coldBegin, run.source, arena.blockBytes, 0), Length(run, arena))
    case HotWrite(run, read) => WayRange(read, Length(run, arena))
    case Access(_, _, piece, target) => if target.Kv? && !target.write then HbmRange(piece.address, piece.bytes) else {}
    case _ => {}
  }

  function Writes(work: Work, id: nat, arena: Arena): set<Place>
  {
    match work
    case HotRead(run) => WayRange(id, Length(run, arena))
    case ColdWrite(run, _) => ColdRange(Address(arena.coldBegin, run.target, arena.blockBytes, 0), Length(run, arena))
    case ColdRead(run) => WayRange(id, Length(run, arena))
    case HotWrite(run, _) => HbmRange(Address(arena.hotBegin, run.target, arena.blockBytes, 0), Length(run, arena))
    case Access(_, _, piece, target) => if target.Kv? && target.write then HbmRange(piece.address, piece.bytes) else {}
    case _ => {}
  }

  const Blank: Byte := Part(Private(0, 0, 0), 0)

  /** Byte i of a request's KV layer. */
  ghost function KvByte(request: Request, layer: nat, i: nat): Byte
  {
    var width := request.model.TokenBytes(layer);
    if width == 0 then Blank else Part(KvOf(request, layer, i / width), i % width)
  }

  lemma KvByteAt(request: Request, layer: nat, position: nat, j: nat)
    requires j < request.model.TokenBytes(layer)
    ensures KvByte(request, layer, At(position, request.model.TokenBytes(layer), j)) == Part(KvOf(request, layer, position), j)
  {
    DivModUnique(At(position, request.model.TokenBytes(layer), j), request.model.TokenBytes(layer), position, j);
  }

  ghost function Seen(view: map<Place, Byte>, place: Place): Byte
  {
    if place in view then view[place] else Blank
  }

  /** A run arrives as it was read; an append puts the KV of its tokens. */
  ghost function Result(work: Work, place: Place, view: map<Place, Byte>, arena: Arena): Byte
  {
    match work
    case HotRead(run) =>
      if place.OnTheWay? then Seen(view, InHbm(Address(arena.hotBegin, run.source, arena.blockBytes, place.at))) else Blank
    case ColdRead(run) =>
      if place.OnTheWay? then Seen(view, InCold(Address(arena.coldBegin, run.source, arena.blockBytes, place.at))) else Blank
    case ColdWrite(run, read) =>
      var lo := Address(arena.coldBegin, run.target, arena.blockBytes, 0);
      if place.InCold? && lo <= place.address then Seen(view, OnTheWay(read, place.address - lo)) else Blank
    case HotWrite(run, read) =>
      var lo := Address(arena.hotBegin, run.target, arena.blockBytes, 0);
      if place.InHbm? && lo <= place.address then Seen(view, OnTheWay(read, place.address - lo)) else Blank
    case Access(_, _, piece, target) =>
      if target.Kv? && place.InHbm? && piece.address <= place.address
      then KvByte(target.request, target.layer, target.first + (place.address - piece.address)) else Blank
    case _ => Blank
  }

  ghost function ProgramOf(log: Log, arena: Arena, initial: Place -> Byte): Program<Place, Byte>
  {
    Program(
      (i: nat) => if i < |log| then Reads(log[i].work, i, arena) else {},
      (i: nat) => if i < |log| then Writes(log[i].work, i, arena) else {},
      (i: nat, place: Place, view: map<Place, Byte>) => if i < |log| then Result(log[i].work, place, view, arena) else Blank,
      initial)
  }

  // ----------------------------------------------------------- one after the other

  /** What is in a byte after the first k transactions, in the order of emission. */
  ghost function After(log: Log, arena: Arena, initial: Place -> Byte, k: nat, place: Place): Byte
    requires k <= |log|
  {
    Executions.Content(ProgramOf(log, arena, initial), Emitted(|log|), k, place)
  }

  /** What transaction k then reads. */
  ghost function Looks(log: Log, arena: Arena, initial: Place -> Byte, k: nat): (view: map<Place, Byte>)
    requires k < |log|
    ensures forall place :: place in Reads(log[k].work, k, arena) ==> Seen(view, place) == After(log, arena, initial, k, place)
  {
    View(ProgramOf(log, arena, initial), Emitted(|log|), k)
  }

  lemma Step(log: Log, arena: Arena, initial: Place -> Byte, k: nat, place: Place)
    requires k < |log|
    ensures After(log, arena, initial, k + 1, place) ==
      if place in Writes(log[k].work, k, arena) then Result(log[k].work, place, Looks(log, arena, initial, k), arena)
      else After(log, arena, initial, k, place)
  {
  }

  /** Nobody writes the byte meanwhile. */
  lemma {:induction false} Unchanged(log: Log, arena: Arena, initial: Place -> Byte, k: nat, n: nat, place: Place)
    requires k <= n <= |log| && forall m :: k <= m < n ==> place !in Writes(log[m].work, m, arena)
    ensures After(log, arena, initial, n, place) == After(log, arena, initial, k, place)
    decreases n
  {
    hide After;
    if k < n {
      Step(log, arena, initial, n - 1, place);
      Unchanged(log, arena, initial, k, n - 1, place);
    }
  }

  /** Data on its way has one source. */
  lemma OneSource(work: Work, id: nat, reader: nat, at: nat, arena: Arena)
    ensures OnTheWay(reader, at) in Writes(work, id, arena) ==> id == reader && (work.HotRead? || work.ColdRead?)
    ensures OnTheWay(reader, at) in Reads(work, id, arena) ==> (work.ColdWrite? || work.HotWrite?) && work.read == reader
  {
  }

  // ------------------------------------------------------------- blocks in memory

  /** The run covers a byte exactly if it covers its block. */
  lemma RunCovers(begin: nat, first: nat, count: nat, blockBytes: nat, b: nat, x: nat)
    requires x < blockBytes
    ensures Address(begin, first, blockBytes, 0) <= Address(begin, b, blockBytes, x)
              < Address(begin, first, blockBytes, 0) + count * blockBytes
      <==> first <= b < first + count
  {
    if b < first {
      MultiplesOrdered(b, first, blockBytes);
    } else {
      assert b * blockBytes == first * blockBytes + (b - first) * blockBytes;
      if b >= first + count {
        assert b * blockBytes == first * blockBytes + count * blockBytes + (b - first - count) * blockBytes;
      } else {
        MultiplesOrdered(b - first, count, blockBytes);
      }
    }
  }

  /** Corresponding bytes of the source and the target of a run. */
  lemma RunShift(begin: nat, begin': nat, first: nat, first': nat, blockBytes: nat, k: nat, x: nat)
    ensures Address(begin, first + k, blockBytes, x) == Address(begin, first, blockBytes, 0) + k * blockBytes + x
    ensures Address(begin', first' + k, blockBytes, x) == Address(begin', first', blockBytes, k * blockBytes + x)
  {
    assert (first + k) * blockBytes == first * blockBytes + k * blockBytes;
    assert (first' + k) * blockBytes == first' * blockBytes + k * blockBytes;
  }

  /** Bytes of blocks never share an address. */
  lemma AddressOnce(begin: nat, b: nat, b': nat, blockBytes: nat, x: nat, x': nat)
    requires x < blockBytes && x' < blockBytes && Address(begin, b, blockBytes, x) == Address(begin, b', blockBytes, x')
    ensures b == b' && x == x'
  {
    if b < b' {
      MultiplesOrdered(b, b', blockBytes);
    } else if b' < b {
      MultiplesOrdered(b', b, blockBytes);
    }
  }

  /** Byte x of block b, in either pool, is as in the pools' contents. */
  ghost predicate ShowsAt(log: Log, arena: Arena, initial: Place -> Byte, k: nat, mems: Mems, b: nat, x: nat)
    requires k <= |log|
  {
    && After(log, arena, initial, k, InHbm(Address(arena.hotBegin, b, arena.blockBytes, x))) == mems.hot(b, x)
    && After(log, arena, initial, k, InCold(Address(arena.coldBegin, b, arena.blockBytes, x))) == mems.cold(b, x)
  }

  ghost predicate Shows(log: Log, arena: Arena, initial: Place -> Byte, k: nat, mems: Mems)
    requires k <= |log|
  {
    forall b: nat, x: nat :: x < arena.blockBytes ==> ShowsAt(log, arena, initial, k, mems, b, x)
  }
}
