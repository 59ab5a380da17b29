/** Why the transactions of one batch may be executed in any order that their dependencies allow. */
module KvOrder {
  import opened Tables
  import opened PlacementSpec
  import opened KvMemory
  import opened KvRefinement
  import opened Transactions
  import opened TaskMaps
  import opened Mappings
  import opened Machines
  import opened Settlements
  import opened KvApart
  import opened KvBatches
  import opened KvResults

  // ------------------------------------------------------- the moves of a batch

  /** What comes in is neither read out nor filled again later. */
  ghost predicate Spares(a: Effect, b: Effect)
  {
    a.Moved? && !a.out && b.Moved? ==> a.pair.target != HotBlock(b)
  }

  function HotBlock(e: Effect): nat
  {
    if e.Loaded? then 0 else if e.out then e.pair.source else e.pair.target
  }

  ghost predicate Parted(effects: seq<Effect>)
  {
    forall u, v :: 0 <= u < v < |effects| ==> Spares(effects[u], effects[v])
  }

  function HotBlocks(effects: seq<Effect>): (blocks: seq<nat>)
    ensures |blocks| == |effects| && forall u :: 0 <= u < |effects| ==> blocks[u] == HotBlock(effects[u])
  {
    seq(|effects|, u requires 0 <= u < |effects| => HotBlock(effects[u]))
  }

  lemma {:induction false} CellsFront(table: Table)
    requires table != []
    ensures Cells(table) == Cells(table[..|table| - 1]) + multiset(table[|table| - 1])
  {
    if |table| > 1 {
      CellsFront(table[1..]);
      assert table[1..][..|table| - 2] == table[..|table| - 1][1..];
    } else {
      assert table == [table[0]] && table[1..] == [];
    }
  }

  /** The hot blocks of a request's move are the cells of its table there. */
  lemma {:induction false} HotCells(out: bool, source: Table, destination: Table)
    requires SameShape(source, destination)
    ensures multiset(HotBlocks(LayerEffects(out, ZipAll(source, destination)))) == Cells(if out then source else destination)
    ensures forall e :: e in LayerEffects(out, ZipAll(source, destination)) ==> e.Moved? && e.out == out
    decreases |source|
  {
    if source != [] {
      var n := |source| - 1;
      var layers := ZipAll(source, destination);
      HotCells(out, source[..n], destination[..n]);
      assert layers[..n] == ZipAll(source[..n], destination[..n]);
      CellsFront(if out then source else destination);
      HotRow(out, source[n], destination[n]);
      HotJoin(LayerEffects(out, layers[..n]), MovedAll(out, layers[n]));
    }
  }

  lemma HotRow(out: bool, source: seq<nat>, destination: seq<nat>)
    requires |source| == |destination|
    ensures HotBlocks(MovedAll(out, Zip(source, destination))) == if out then source else destination
  {
  }

  lemma HotJoin(a: seq<Effect>, b: seq<Effect>)
    ensures multiset(HotBlocks(a + b)) == multiset(HotBlocks(a)) + multiset(HotBlocks(b))
  {
    assert HotBlocks(a + b) == HotBlocks(a) + HotBlocks(b);
  }

  lemma OnlyOnce(s: seq<nat>, u: nat, v: nat)
    requires u < v < |s| && multiset(s)[s[u]] == 1
    ensures s[u] != s[v]
  {
    assert s == s[..u] + [s[u]] + s[u + 1..];
    assert s[v] == s[u + 1..][v - u - 1];
  }

  lemma HotIn(effects: seq<Effect>, u: nat)
    requires u < |effects|
    ensures HotBlock(effects[u]) in multiset(HotBlocks(effects))
  {
    assert HotBlocks(effects)[u] in HotBlocks(effects);
  }

  /** The moves of one request do not meet. */
  lemma MoveParted(m: Migration)
    requires SameShape(m.source, m.destination) && forall b :: b in Cells(m.destination) ==> Cells(m.destination)[b] == 1
    ensures Parted(LayerEffects(m.toCold, ZipAll(m.source, m.destination)))
  {
    var effects := LayerEffects(m.toCold, ZipAll(m.source, m.destination));
    HotCells(m.toCold, m.source, m.destination);
    forall u, v | 0 <= u < v < |effects| ensures Spares(effects[u], effects[v]) {
      assert effects[u] in effects && effects[v] in effects;
      if !m.toCold {
        HotIn(effects, u);
        OnlyOnce(HotBlocks(effects), u, v);
      }
    }
  }

  /** What the moves so far fill is what some swap-in fills. */
  lemma {:induction false} FilledBy(migrations: seq<Migration>, u: nat) returns (k: nat)
    requires Matching(migrations) && u < |MoveEffects(MovesOf(migrations))|
    ensures var e := MoveEffects(MovesOf(migrations))[u];
      k < |migrations| && e.Moved? && e.out == migrations[k].toCold && HotBlock(e) in HotSide(migrations[k])
    decreases |migrations|
  {
    var n := |migrations| - 1;
    var moves, m := MovesOf(migrations), migrations[n];
    assert moves[..n] == MovesOf(migrations[..n]);
    var front, back := MoveEffects(moves[..n]), LayerEffects(m.toCold, ZipAll(m.source, m.destination));
    assert MoveEffects(moves) == front + back;
    if u < |front| {
      k := FilledBy(migrations[..n], u);
    } else {
      k := n;
      HotCells(m.toCold, m.source, m.destination);
      HotIn(back, u - |front|);
      assert back[u - |front|] in back;
    }
  }

  lemma {:induction false} MovesParted(migrations: seq<Migration>)
    requires Orderly(migrations)
    ensures Parted(MoveEffects(MovesOf(migrations)))
    decreases |migrations|
  {
    if migrations != [] {
      var n := |migrations| - 1;
      var moves, m := MovesOf(migrations), migrations[n];
      assert moves[..n] == MovesOf(migrations[..n]);
      var front, back := MoveEffects(moves[..n]), LayerEffects(m.toCold, ZipAll(m.source, m.destination));
      OrderlyFront(migrations);
      MovesParted(migrations[..n]);
      MoveParted(m);
      HotCells(m.toCold, m.source, m.destination);
      forall u, v | 0 <= u < |front| && 0 <= v < |back| ensures Spares(front[u], back[v]) {
        var k := FilledBy(migrations[..n], u);
        HotIn(back, v);
        assert back[v] in back;
        assert Clear(migrations[k], m);
      }
      PartedJoin(front, back);
    }
  }

  lemma OrderlyFront(migrations: seq<Migration>)
    requires Orderly(migrations) && migrations != []
    ensures Orderly(migrations[..|migrations| - 1])
    ensures forall k :: 0 <= k < |migrations| - 1 ==> Clear(migrations[k], migrations[|migrations| - 1])
  {
    hide Clear;
  }

  lemma PartedJoin(a: seq<Effect>, b: seq<Effect>)
    requires Parted(a) && Parted(b) && forall u, v :: 0 <= u < |a| && 0 <= v < |b| ==> Spares(a[u], b[v])
    ensures Parted(a + b)
  {
    hide Spares;
    var all := a + b;
    forall u, v | 0 <= u < v < |all| ensures Spares(all[u], all[v]) {
      if v < |a| {
        assert Spares(a[u], a[v]);
      } else if u < |a| {
        assert Spares(a[u], b[v - |a|]);
      } else {
        assert Spares(b[u - |a|], b[v - |a|]);
      }
    }
  }

  lemma {:induction false} LoadsParted(chunks: nat)
    ensures forall e :: e in ChunkEffects(chunks) ==> e.Loaded?
  {
    if chunks > 0 {
      LoadsParted(chunks - 1);
    }
  }

  lemma BatchParted(activation: Activation, migrations: seq<Migration>)
    requires Orderly(migrations)
    ensures Parted(ActivationEffects(activation) + MoveEffects(MovesOf(migrations)))
  {
    var loads := ActivationEffects(activation);
    LoadsParted(if activation.Miss? then activation.chunks else 0);
    forall u | 0 <= u < |loads| ensures loads[u].Loaded? {
      assert loads[u] in loads;
    }
    MovesParted(migrations);
    PartedJoin(loads, MoveEffects(MovesOf(migrations)));
  }

  // ------------------------------------------------------------ in the log's order

  /** The hot pool's share of the effects between two places. */
  ghost function Passed(log: Log, start: nat, k: nat): seq<Effect>
    requires k <= |log|
  {
    if k <= start then [] else Passed(log, start, k - 1) + VisitsOf(log[k - 1].work)
  }

  lemma {:induction false} PassedIs(log: Log, start: nat, k: nat)
    requires start <= k <= |log|
    ensures Visits(log[..k]) == Visits(log[..start]) + Passed(log, start, k)
    decreases k
  {
    hide VisitsOf;
    if k > start {
      PassedIs(log, start, k - 1);
      assert log[..k][..k - 1] == log[..k - 1] && log[..k][k - 1] == log[k - 1];
      Joining(Visits(log[..start]), Passed(log, start, k - 1), VisitsOf(log[k - 1].work));
    }
  }

  lemma AllPassed(log: Log, start: nat, effects: seq<Effect>)
    requires start <= |log| && Did(log[..start], log, effects)
    ensures Passed(log, start, |log|) == effects
  {
    PassedIs(log, start, |log|);
    assert log[..|log|] == log;
    var before := Visits(log[..start]);
    assert (before + effects)[|before|..] == effects;
    assert (before + Passed(log, start, |log|))[|before|..] == Passed(log, start, |log|);
  }

  lemma {:induction false} PassedAt(log: Log, start: nat, i: nat, k: nat, a: nat)
    requires start <= i < k <= |log| && a < |VisitsOf(log[i].work)|
    ensures var at := |Passed(log, start, i)| + a;
      at < |Passed(log, start, k)| && Passed(log, start, k)[at] == VisitsOf(log[i].work)[a]
    decreases k
  {
    hide VisitsOf;
    if i < k - 1 {
      PassedAt(log, start, i, k - 1, a);
    }
  }

  lemma {:induction false} PassedMore(log: Log, start: nat, i: nat, j: nat)
    requires start <= i < j <= |log|
    ensures |Passed(log, start, i)| + |VisitsOf(log[i].work)| <= |Passed(log, start, j)|
    decreases j
  {
    hide VisitsOf;
    if i < j - 1 {
      PassedMore(log, start, i, j - 1);
    }
  }

  /** What one transaction brings in, no later one of the batch reads out or fills. */
  lemma VisitsSpare(log: Log, start: nat, effects: seq<Effect>, i: nat, j: nat, a: nat, c: nat)
    requires start <= i < j < |log| && Did(log[..start], log, effects) && Parted(effects)
    requires a < |VisitsOf(log[i].work)| && c < |VisitsOf(log[j].work)|
    ensures Spares(VisitsOf(log[i].work)[a], VisitsOf(log[j].work)[c])
  {
    hide VisitsOf, Did, Spares;
    AllPassed(log, start, effects);
    PassedAt(log, start, i, |log|, a);
    PassedAt(log, start, j, |log|, c);
    PassedMore(log, start, i, j);
  }

  // --------------------------------------------------------- conflicts in a batch

  /** One of them writes what the other reads or writes. */
  ghost predicate Clash(log: Log, arena: Arena, i: nat, j: nat, place: Place)
    requires i < |log| && j < |log|
  {
    || (place in Writes(log[i].work, i, arena) && (place in Reads(log[j].work, j, arena) || place in Writes(log[j].work, j, arena)))
    || (place in Reads(log[i].work, i, arena) && place in Writes(log[j].work, j, arena))
  }

  /** Data on its way is written once, and taken later. */
  lemma WayClash(log: Log, arena: Arena, start: nat, i: nat, j: nat, place: Place)
    requires Handed(log, start) && start <= i < j < |log| && place.OnTheWay? && Clash(log, arena, i, j, place)
    ensures Transactions.Before(log, i, j)
  {
    hide Transactions.Before, Reads, Writes;
    OneSource(log[i].work, i, place.reader, place.at, arena);
    OneSource(log[j].work, j, place.reader, place.at, arena);
    assert HandedAt(log, start, i) && HandedAt(log, start, j);
  }

  /** A byte of a run is a byte of one of its blocks. */
  lemma BlockOf(begin: nat, first: nat, count: nat, blockBytes: nat, address: nat) returns (b: nat, x: nat)
    requires Address(begin, first, blockBytes, 0) <= address < Address(begin, first, blockBytes, 0) + count * blockBytes
    ensures x < blockBytes && address == Address(begin, b, blockBytes, x) && first <= b < first + count
  {
    var n := address - Address(begin, first, blockBytes, 0);
    assert blockBytes == 0 ==> count * blockBytes == 0;
    b, x := first + n / blockBytes, n % blockBytes;
    RunShift(begin, begin, first, first, blockBytes, n / blockBytes, x);
    assert n == n / blockBytes * blockBytes + x;
    RunCovers(begin, first, count, blockBytes, b, x);
  }

  /** The cold block that a transaction reads or writes a byte of. */
  lemma ColdBlock(work: Work, id: nat, arena: Arena, address: nat) returns (b: nat, x: nat)
    requires InCold(address) in Reads(work, id, arena) || InCold(address) in Writes(work, id, arena)
    ensures work.TouchesCold(b) && x < arena.blockBytes && address == Address(arena.coldBegin, b, arena.blockBytes, x)
  {
    hide Address;
    var first := if work.ColdWrite? then work.run.target else work.run.source;
    b, x := BlockOf(arena.coldBegin, first, work.run.count, arena.blockBytes, address);
  }

  /** Accesses to one cold block follow one another. */
  lemma ColdClash(log: Log, arena: Arena, i: nat, j: nat, place: Place)
    requires Serial(log) && i < j < |log| && place.InCold? && Clash(log, arena, i, j, place)
    ensures Transactions.Before(log, i, j)
  {
    hide Transactions.Before, Address, Reads, Writes, Work.TouchesCold;
    var b, x := ColdBlock(log[i].work, i, arena, place.address);
    var b', x' := ColdBlock(log[j].work, j, arena, place.address);
    AddressOnce(arena.coldBegin, b, b', arena.blockBytes, x, x');
  }

  /** The hot block that a move reads or fills a byte of. */
  lemma HotBlockOf(work: Work, id: nat, arena: Arena, address: nat) returns (b: nat, x: nat, a: nat)
    requires work.HotRead? || work.HotWrite?
    requires InHbm(address) in Reads(work, id, arena) || InHbm(address) in Writes(work, id, arena)
    ensures x < arena.blockBytes && address == Address(arena.hotBegin, b, arena.blockBytes, x)
    ensures a < |VisitsOf(work)| && VisitsOf(work)[a].Moved? && VisitsOf(work)[a].out == work.HotRead? && HotBlock(VisitsOf(work)[a]) == b
  {
    hide Address;
    var first := if work.HotRead? then work.run.source else work.run.target;
    b, x := BlockOf(arena.hotBegin, first, work.run.count, arena.blockBytes, address);
    a := b - first;
  }

  /** A block is read out before it is filled, and not filled before that. */
  lemma MoveClash(log: Log, arena: Arena, start: nat, effects: seq<Effect>, i: nat, j: nat, place: Place)
    requires Handed(log, start) && start <= i < j < |log| && place.InHbm? && Clash(log, arena, i, j, place)
    requires Did(log[..start], log, effects) && Parted(effects)
    requires (log[i].work.HotRead? || log[i].work.HotWrite?) && (log[j].work.HotRead? || log[j].work.HotWrite?)
    ensures Transactions.Before(log, i, j)
  {
    hide Transactions.Before, Address, VisitsOf, Did, Parted;
    var b, x, a := HotBlockOf(log[i].work, i, arena, place.address);
    var b', x', c := HotBlockOf(log[j].work, j, arena, place.address);
    AddressOnce(arena.hotBegin, b, b', arena.blockBytes, x, x');
    VisitsSpare(log, start, effects, i, j, a, c);
    ReadFirst(log, start, i, j);
  }

  lemma ReadFirst(log: Log, start: nat, i: nat, j: nat)
    requires Handed(log, start) && start <= i < j < |log| && log[i].work.HotRead?
    ensures log[j].work.HotWrite? ==> Transactions.Before(log, i, j)
  {
    hide Transactions.Before;
    if log[j].work.HotWrite? {
      assert HandedAt(log, start, j);
      var r := log[j].work.read;
      assert i < r;
      assert HandedAt(log, start, r);
      BeforeTrans(log, i, r, j);
    }
  }

  lemma HotKinds(work: Work, id: nat, arena: Arena, address: nat)
    requires InHbm(address) in Reads(work, id, arena) || InHbm(address) in Writes(work, id, arena)
    ensures work.HotRead? || work.HotWrite? || (work.Access? && work.target.Kv?)
    ensures work.Access? && InHbm(address) in Writes(work, id, arena) ==> work.target.write
    ensures work.Access? && InHbm(address) in Reads(work, id, arena) ==> !work.target.write
    ensures work.Access? ==> work.piece.address <= address < work.piece.address + work.piece.bytes
  {
  }

  lemma HotClash(g: Setting, log: Log, start: nat, tasks: seq<Task>, images: seq<Image>, activation: Activation, cfg: Config,
                 mems: Mems, i: nat, j: nat, place: Place)
    requires Emitting(g, log, start, tasks, images, activation, cfg) && AllPrimed(g, Future(g.s, mems, g.slices, cfg))
    requires Orderly(g.s.migrations) && start <= i < j < |log| && place.InHbm? && Clash(log, g.arena, i, j, place)
    ensures Transactions.Before(log, i, j)
  {
    hide Transactions.Before, Reads, Writes, Future, AllPrimed, Emitting, Orderly;
    HotKinds(log[i].work, i, g.arena, place.address);
    HotKinds(log[j].work, j, g.arena, place.address);
    EmittingParts(g, log, start, tasks, images, activation, cfg);
    BatchParted(activation, g.s.migrations);
    if log[j].work.Access? {
      if log[i].work.Access? {
        AccessClash(g, log, start, tasks, images, activation, cfg, mems, i, j, place);
      } else {
        assert Preparing(log, start, i) && Served(log, start, j);
      }
    } else {
      assert !log[i].work.Access?;
      MoveClash(log, g.arena, start, ActivationEffects(activation) + MoveEffects(MovesOf(g.s.migrations)), i, j, place);
    }
  }

  lemma EmittingParts(g: Setting, log: Log, start: nat, tasks: seq<Task>, images: seq<Image>, activation: Activation, cfg: Config)
    requires Emitting(g, log, start, tasks, images, activation, cfg)
    ensures PreparesFirst(log, start) && Phased(log, start) && Handed(log, start) && start < |log| && Ordered(log) && Serial(log)
    ensures Completes(log, start)
    ensures Did(log[..start], log, ActivationEffects(activation) + MoveEffects(MovesOf(g.s.migrations)))
  {
    hide Serving, Sole, Ordered, Serial, Handed, Phased, PreparesFirst, KeepsOrder, Owned, Ending, MappedAll, Did, Matching;
  }

  /** Two accesses of compiled operations: an append and a later read of its byte. */
  lemma AccessClash(g: Setting, log: Log, start: nat, tasks: seq<Task>, images: seq<Image>, activation: Activation, cfg: Config,
                    mems: Mems, i: nat, j: nat, place: Place)
    requires Emitting(g, log, start, tasks, images, activation, cfg) && AllPrimed(g, Future(g.s, mems, g.slices, cfg))
    requires start <= i < j < |log| && place.InHbm? && Clash(log, g.arena, i, j, place)
    requires log[i].work.Access? && log[j].work.Access?
    ensures Transactions.Before(log, i, j)
  {
    hide Transactions.Before, Reads, Writes, Future, AllPrimed, Emitting;
    HotKinds(log[i].work, i, g.arena, place.address);
    HotKinds(log[j].work, j, g.arena, place.address);
    var n, n' := place.address - log[i].work.piece.address, place.address - log[j].work.piece.address;
    if log[i].work.target.write && log[j].work.target.write {
      OnlyWriter(g, log, start, tasks, images, activation, cfg, j, n', i);
    } else if log[i].work.target.write {
      AppendsBefore(g, log, start, tasks, images, activation, cfg, mems, j, n', i);
    } else {
      AppendsBefore(g, log, start, tasks, images, activation, cfg, mems, i, n, j);
      BeforeEarlier(log, j, i);
    }
  }

  /** Whatever two transactions of a batch contend for, the earlier one precedes the later. */
  lemma BatchClash(g: Setting, log: Log, start: nat, tasks: seq<Task>, images: seq<Image>, activation: Activation, cfg: Config,
                   mems: Mems, i: nat, j: nat, place: Place)
    requires Emitting(g, log, start, tasks, images, activation, cfg) && AllPrimed(g, Future(g.s, mems, g.slices, cfg))
    requires Orderly(g.s.migrations) && start <= i < j < |log| && Clash(log, g.arena, i, j, place)
    ensures Transactions.Before(log, i, j)
  {
    hide Transactions.Before, Clash, Future, AllPrimed, Emitting, Orderly;
    EmittingParts(g, log, start, tasks, images, activation, cfg);
    match place
    case OnTheWay(_, _) => WayClash(log, g.arena, start, i, j, place);
    case InCold(_) => ColdClash(log, g.arena, i, j, place);
    case InHbm(_) => HotClash(g, log, start, tasks, images, activation, cfg, mems, i, j, place);
  }
}
