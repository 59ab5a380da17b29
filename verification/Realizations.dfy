/** Whole runs, with the transactions that carry them out: in whatever order a session executes these,
    memory follows the plane's decisions, and every context read finds its request's KV.
 */
module Realizations {
  import opened Graphs
  import opened PrefixKeys
  import opened PlacementSpec
  import opened PlacementInvariant
  import opened KvMemory
  import opened KvRefinement
  import opened KvRuns
  import opened Transactions
  import opened TaskMaps
  import opened Mappings
  import opened Executions
  import opened Machines
  import opened Settlements
  import opened KvTraffic
  import opened KvApart
  import opened KvBatches
  import opened KvResults
  import opened KvOrder

  /** One executed batch: its share of the log, and what the plane knew when it was mapped. */
  datatype Mark = Mark(start: nat, end: nat, w: World, tasks: seq<Task>, images: seq<Image>, activation: Activation)
  {
    ghost function Of(arena: Arena, cfg: Config): Setting
    {
      Setting(w.s, w.reserved, cfg.blockTokens, arena)
    }
  }

  /** One block holds the KV of its tokens, whatever the layer. */
  ghost predicate Fitting(g: Setting)
  {
    forall i, layer :: 0 <= i < |g.slices| && g.slices[i].request in g.s.kv && 0 <= layer < |g.s.kv[g.slices[i].request].table| ==>
      g.Holds(i, layer)
  }

  /** The end of the log is what mapping the batch has emitted. */
  ghost predicate Mapping(log: Log, mark: Mark, arena: Arena, cfg: Config)
  {
    var g := mark.Of(arena, cfg);
    && mark.start < mark.end == |log| && Fitting(g) && Serving(g, mark.tasks)
    && Batched(log, mark.start, mark.tasks, mark.images, ActivationEffects(mark.activation) + MoveEffects(MovesOf(g.s.migrations)))
  }

  /** A run of the plane, and the log of the transactions of its batches. */
  ghost predicate Recorded(opening: World, actions: seq<Action>, log: Log, marks: seq<Mark>, arena: Arena, cfg: Config)
    requires cfg.Valid()
    decreases |actions|
  {
    if actions == [] then log == [] && marks == []
    else
      var front, last := actions[..|actions| - 1], actions[|actions| - 1];
      if !last.Executes? then Recorded(opening, front, log, marks, arena, cfg)
      else
        && marks != []
        && var mark := marks[|marks| - 1];
           && Mapping(log, mark, arena, cfg) && Play(opening, front, cfg) == Some(mark.w)
           && Recorded(opening, front, log[..mark.start], marks[..|marks| - 1], arena, cfg)
  }

  // -------------------------------------------------------------- the batches

  /** Batches follow one another without a gap. */
  ghost predicate Contiguous(marks: seq<Mark>, end: nat)
  {
    (forall k :: 0 <= k < |marks| ==> Adjoins(marks, k)) && end == EndOf(marks, |marks|)
  }

  ghost predicate Adjoins(marks: seq<Mark>, k: nat)
    requires k < |marks|
  {
    EndOf(marks, k) == marks[k].start < marks[k].end
  }

  /** Where the first k batches end. */
  ghost function EndOf(marks: seq<Mark>, k: nat): nat
    requires k <= |marks|
  {
    if k == 0 then 0 else marks[k - 1].end
  }

  /** Every batch is as it was mapped, and the plane kept its promises then. */
  ghost predicate Kept(log: Log, mark: Mark, arena: Arena, cfg: Config)
    requires cfg.Valid()
  {
    mark.end <= |log| && Mapping(log[..mark.end], mark, arena, cfg) && KvRuns.Sound(mark.w, cfg) && Tidied(mark.w, cfg)
  }

  ghost predicate AllKept(log: Log, marks: seq<Mark>, arena: Arena, cfg: Config)
    requires cfg.Valid()
  {
    forall k :: 0 <= k < |marks| ==> Kept(log, marks[k], arena, cfg)
  }

  lemma {:induction false} RecordedKept(opening: World, actions: seq<Action>, log: Log, marks: seq<Mark>, arena: Arena, cfg: Config)
    requires cfg.Valid() && KvRuns.Sound(opening, cfg) && Tidied(opening, cfg) && Play(opening, actions, cfg).Some?
    requires Recorded(opening, actions, log, marks, arena, cfg)
    ensures AllKept(log, marks, arena, cfg) && Contiguous(marks, |log|)
    decreases |actions|
  {
    hide KvRuns.Sound, Tidied, Play, Mapping;
    if actions != [] {
      var front, last := actions[..|actions| - 1], actions[|actions| - 1];
      PlayLast(opening, actions, cfg);
      if !last.Executes? {
        RecordedKept(opening, front, log, marks, arena, cfg);
      } else {
        var n := |marks| - 1;
        var mark := marks[n];
        MappingEnds(log, mark, arena, cfg);
        RecordedKept(opening, front, log[..mark.start], marks[..n], arena, cfg);
        PlayTidied(opening, front, cfg);
        KeptPush(log, marks, arena, cfg);
      }
    }
  }

  lemma MappingEnds(log: Log, mark: Mark, arena: Arena, cfg: Config)
    requires Mapping(log, mark, arena, cfg)
    ensures mark.start < mark.end == |log|
  {
  }

  lemma KeptPush(log: Log, marks: seq<Mark>, arena: Arena, cfg: Config)
    requires cfg.Valid() && marks != [] && marks[|marks| - 1].start < marks[|marks| - 1].end == |log|
    requires var mark := marks[|marks| - 1];
      && Mapping(log, mark, arena, cfg) && KvRuns.Sound(mark.w, cfg) && Tidied(mark.w, cfg)
      && AllKept(log[..mark.start], marks[..|marks| - 1], arena, cfg) && Contiguous(marks[..|marks| - 1], mark.start)
    ensures AllKept(log, marks, arena, cfg) && Contiguous(marks, |log|)
  {
    hide Mapping, KvRuns.Sound, Tidied;
    var n, mark := |marks| - 1, marks[|marks| - 1];
    assert log[..|log|] == log;
    forall k | 0 <= k < |marks| ensures Kept(log, marks[k], arena, cfg) {
      if k < n {
        assert Kept(log[..mark.start], marks[..n][k], arena, cfg);
        assert log[..mark.start][..marks[k].end] == log[..marks[k].end];
      }
    }
    forall k | 0 <= k < |marks| ensures Adjoins(marks, k) {
      if k < n {
        assert Adjoins(marks[..n], k);
      }
    }
  }

  // ------------------------------------------------------- in the order of emission

  /** Later transactions do not change what the first ones did. */
  lemma {:induction false} AfterPrefix(log: Log, arena: Arena, initial: Place -> Byte, end: nat, k: nat, place: Place)
    requires k <= end <= |log|
    ensures After(log[..end], arena, initial, k, place) == After(log, arena, initial, k, place)
    decreases k
  {
    if k > 0 {
      var front, j := log[..end], k - 1;
      assert front[j] == log[j];
      forall p | p in Reads(log[j].work, j, arena) ensures After(front, arena, initial, j, p) == After(log, arena, initial, j, p) {
        AfterPrefix(log, arena, initial, end, j, p);
      }
      AfterPrefix(log, arena, initial, end, j, place);
      LooksPrefix(log, arena, initial, end, j);
      hide After, Looks;
      Step(front, arena, initial, j, place);
      Step(log, arena, initial, j, place);
    }
  }

  lemma LooksPrefix(log: Log, arena: Arena, initial: Place -> Byte, end: nat, k: nat)
    requires k < end <= |log|
    requires forall p :: p in Reads(log[k].work, k, arena) ==> After(log[..end], arena, initial, k, p) == After(log, arena, initial, k, p)
    ensures Looks(log[..end], arena, initial, k) == Looks(log, arena, initial, k)
  {
    var a, b := Looks(log[..end], arena, initial, k), Looks(log, arena, initial, k);
    assert a.Keys == Reads(log[k].work, k, arena) == b.Keys;
    forall p | p in a.Keys ensures a[p] == b[p] {
      assert Seen(a, p) == Seen(b, p);
    }
  }

  lemma ShowsPrefix(log: Log, arena: Arena, initial: Place -> Byte, end: nat, k: nat, mems: Mems)
    requires k <= end <= |log| && Shows(log[..end], arena, initial, k, mems)
    ensures Shows(log, arena, initial, k, mems)
  {
    hide After;
    forall b: nat, x: nat | x < arena.blockBytes ensures ShowsAt(log, arena, initial, k, mems, b, x) {
      assert ShowsAt(log[..end], arena, initial, k, mems, b, x);
      AfterPrefix(log, arena, initial, end, k, InHbm(Address(arena.hotBegin, b, arena.blockBytes, x)));
      AfterPrefix(log, arena, initial, end, k, InCold(Address(arena.coldBegin, b, arena.blockBytes, x)));
    }
  }

  /** What the plane's promises say about the batch that is being mapped. */
  lemma MappingEmits(log: Log, mark: Mark, arena: Arena, cfg: Config)
    requires cfg.Valid() && Mapping(log, mark, arena, cfg) && KvRuns.Sound(mark.w, cfg) && Tidied(mark.w, cfg)
    ensures Emitting(mark.Of(arena, cfg), log, mark.start, mark.tasks, mark.images, mark.activation, cfg)
    ensures Orderly(mark.w.s.migrations)
    ensures AllPrimed(mark.Of(arena, cfg), Future(mark.w.s, mark.w.mems, mark.w.reserved, cfg))
  {
    hide Batched, Serving, Sole, Inv, Exclusive, EntriesHold, Future, Clean;
    var w := mark.w;
    SoundMeans(w, cfg);
    forall i | 0 <= i < |w.reserved|
      ensures w.reserved[i].request in w.s.kv && Primed(mark.Of(arena, cfg), Future(w.s, w.mems, w.reserved, cfg), i)
    {
      SoundReads(w, cfg, w.reserved[i].request);
      ReadsLess(w.s.kv[w.reserved[i].request], w.frontier[w.reserved[i].request], w.reserved[i].begin,
                Future(w.s, w.mems, w.reserved, cfg).hot, cfg.blockTokens);
    }
  }

  lemma ReadsLess(st: RequestKv, frontier: nat, begin: nat, memory: Memory, blockTokens: nat)
    requires ReadsRight(st, frontier, memory, blockTokens) && begin <= frontier
    ensures ReadsRight(st, begin, memory, blockTokens)
  {
    hide TokenAt;
  }

  lemma OnlyExecutes(w: World, action: Action, cfg: Config)
    requires cfg.Valid() && Act(w, action, cfg).Some?
    ensures if action.Executes? then Act(w, action, cfg).value.mems == Future(w.s, w.mems, w.reserved, cfg)
            else Act(w, action, cfg).value.mems == w.mems
  {
    hide Admit, Reserve, Complete, Preempt, PlacementSpec.Release, Future;
  }

  /** One after the other, the transactions do what the plane decided. */
  lemma {:induction false} RunShows(opening: World, actions: seq<Action>, log: Log, marks: seq<Mark>, arena: Arena, cfg: Config,
                                    initial: Place -> Byte)
    requires cfg.Valid() && KvRuns.Sound(opening, cfg) && Tidied(opening, cfg) && Play(opening, actions, cfg).Some?
    requires Recorded(opening, actions, log, marks, arena, cfg) && Shows([], arena, initial, 0, opening.mems)
    ensures Shows(log, arena, initial, |log|, Play(opening, actions, cfg).value.mems)
    decreases |actions|
  {
    hide KvRuns.Sound, Tidied, Play, Mapping, Act, Shows;
    if actions == [] {
      PlayNone(opening, cfg);
    } else {
      var front, last := actions[..|actions| - 1], actions[|actions| - 1];
      PlayLast(opening, actions, cfg);
      var w := Play(opening, front, cfg).value;
      OnlyExecutes(w, last, cfg);
      if !last.Executes? {
        RunShows(opening, front, log, marks, arena, cfg, initial);
      } else {
        var mark := marks[|marks| - 1];
        MappingEnds(log, mark, arena, cfg);
        RunShows(opening, front, log[..mark.start], marks[..|marks| - 1], arena, cfg, initial);
        ShowsPrefix(log, arena, initial, mark.start, mark.start, w.mems);
        PlayTidied(opening, front, cfg);
        MappingEmits(log, mark, arena, cfg);
        BatchShows(mark.Of(arena, cfg), log, mark.start, mark.tasks, mark.images, mark.activation, cfg, initial, w.mems);
      }
    }
  }

  /** A context read finds its request's KV. */
  ghost predicate Right(log: Log, arena: Arena, initial: Place -> Byte, q: nat)
    requires q < |log|
  {
    var work := log[q].work;
    work.Access? && work.target.Kv? && !work.target.write ==>
      forall address: nat :: work.piece.address <= address < work.piece.address + work.piece.bytes ==>
        After(log, arena, initial, q, InHbm(address)) == Expected(work, address)
  }

  /** What an access is meant to find at an address. */
  ghost function Expected(work: Work, address: nat): Byte
    requires work.Access? && work.target.Kv? && work.piece.address <= address
  {
    KvByte(work.target.request, work.target.layer, work.target.first + (address - work.piece.address))
  }

  lemma RightPrefix(log: Log, arena: Arena, initial: Place -> Byte, end: nat, q: nat)
    requires q < end <= |log| && Right(log[..end], arena, initial, q)
    ensures Right(log, arena, initial, q)
  {
    hide After, KvByte;
    forall address: nat ensures After(log, arena, initial, q, InHbm(address)) == After(log[..end], arena, initial, q, InHbm(address)) {
      AfterPrefix(log, arena, initial, end, q, InHbm(address));
    }
  }

  lemma {:induction false} RunContexts(opening: World, actions: seq<Action>, log: Log, marks: seq<Mark>, arena: Arena, cfg: Config,
                                       initial: Place -> Byte, q: nat)
    requires cfg.Valid() && KvRuns.Sound(opening, cfg) && Tidied(opening, cfg) && Play(opening, actions, cfg).Some?
    requires Recorded(opening, actions, log, marks, arena, cfg) && Shows([], arena, initial, 0, opening.mems) && q < |log|
    ensures Right(log, arena, initial, q)
    decreases |actions|
  {
    hide KvRuns.Sound, Tidied, Play, Mapping, Act, Shows, Right;
    var front, last := actions[..|actions| - 1], actions[|actions| - 1];
    PlayLast(opening, actions, cfg);
    if !last.Executes? {
      RunContexts(opening, front, log, marks, arena, cfg, initial, q);
    } else {
      var mark := marks[|marks| - 1];
      MappingEnds(log, mark, arena, cfg);
      if q < mark.start {
        RunContexts(opening, front, log[..mark.start], marks[..|marks| - 1], arena, cfg, initial, q);
        RightPrefix(log, arena, initial, mark.start, q);
      } else {
        RunShows(opening, front, log[..mark.start], marks[..|marks| - 1], arena, cfg, initial);
        ShowsPrefix(log, arena, initial, mark.start, mark.start, mark.w.mems);
        PlayTidied(opening, front, cfg);
        MarkContexts(log, mark, arena, cfg, initial, q);
      }
    }
  }

  lemma MarkContexts(log: Log, mark: Mark, arena: Arena, cfg: Config, initial: Place -> Byte, q: nat)
    requires cfg.Valid() && Mapping(log, mark, arena, cfg) && KvRuns.Sound(mark.w, cfg) && Tidied(mark.w, cfg)
    requires mark.start <= q < |log| && Shows(log, arena, initial, mark.start, mark.w.mems)
    ensures Right(log, arena, initial, q)
  {
    hide KvRuns.Sound, Tidied, Mapping, Shows, After, AllPrimed, Emitting, KvByte, Future;
    MappingEmits(log, mark, arena, cfg);
    var work := log[q].work;
    if work.Access? && work.target.Kv? && !work.target.write {
      forall address: nat | work.piece.address <= address < work.piece.address + work.piece.bytes
        ensures After(log, arena, initial, q, InHbm(address)) == Expected(work, address)
      {
        ContextRight(mark.Of(arena, cfg), log, mark.start, mark.tasks, mark.images, mark.activation, cfg, initial, mark.w.mems, q,
                     address - work.piece.address);
      }
    }
  }

  // ------------------------------------------------------------ in any order

  /** Where the batch of a transaction begins. */
  ghost function StartOf(marks: seq<Mark>, i: nat): (start: nat)
    ensures start <= i
  {
    if marks == [] then 0
    else if marks[|marks| - 1].start <= i then marks[|marks| - 1].start
    else StartOf(marks[..|marks| - 1], i)
  }

  /** What a session respects: the dependencies, and that a batch is submitted when the last
      transaction of the batch before it is done. */
  ghost function Submitted(log: Log, marks: seq<Mark>): (g: Graph)
    ensures |g| == |log|
    ensures forall i :: 0 <= i < |log| ==>
      g[i] == log[i].dependencies + (if StartOf(marks, i) > 0 then [StartOf(marks, i) - 1] else [])
  {
    seq(|log|, i requires 0 <= i < |log| =>
      log[i].dependencies + (if StartOf(marks, i) > 0 then [StartOf(marks, i) - 1] else []))
  }

  lemma {:induction false} BatchOf(marks: seq<Mark>, end: nat, i: nat) returns (k: nat)
    requires Contiguous(marks, end) && i < end
    ensures k < |marks| && marks[k].start <= i < marks[k].end && StartOf(marks, i) == marks[k].start
    decreases |marks|
  {
    var n := |marks| - 1;
    assert Adjoins(marks, n);
    if marks[n].start <= i {
      k := n;
    } else {
      ContiguousFront(marks, end);
      k := BatchOf(marks[..n], marks[n].start, i);
    }
  }

  lemma ContiguousFront(marks: seq<Mark>, end: nat)
    requires Contiguous(marks, end) && marks != []
    ensures Contiguous(marks[..|marks| - 1], marks[|marks| - 1].start)
  {
    var n := |marks| - 1;
    var front := marks[..n];
    assert Adjoins(marks, n);
    forall k | 0 <= k < |front| ensures Adjoins(front, k) {
      assert Adjoins(marks, k);
    }
  }

  /** Dependencies are respected. */
  lemma {:induction false} DependenciesKept(log: Log, marks: seq<Mark>, i: nat, j: nat)
    requires Transactions.Before(log, i, j)
    ensures Precedes(Submitted(log, marks), i, j)
    decreases j
  {
    var g, more := Deps(log), Submitted(log, marks);
    if i != j {
      var k :| 0 <= k < |g[j]| && g[j][k] < j && Precedes(g, i, g[j][k]);
      DependenciesKept(log, marks, i, g[j][k]);
      assert more[j][k] == g[j][k];
    }
  }

  /** A batch waits for the end of each earlier one. */
  lemma {:induction false} BatchWaits(log: Log, marks: seq<Mark>, k: nat, j: nat)
    requires Contiguous(marks, |log|) && k < |marks| && 0 < marks[k].end <= j < |log|
    ensures Precedes(Submitted(log, marks), marks[k].end - 1, j)
    decreases j
  {
    var g := Submitted(log, marks);
    var k' := BatchOf(marks, |log|, j);
    MarksOrdered(marks, |log|, k', k);
    MarksOrdered(marks, |log|, k, k');
    assert Adjoins(marks, k);
    assert k < k' && Adjoins(marks, k');
    var last := marks[k'].start - 1;
    assert last in g[j] by {
      assert g[j][|log[j].dependencies|] == last;
    }
    DependsDirectly(g, last, j);
    if k < k' - 1 {
      MarksOrdered(marks, |log|, k, k' - 1);
      assert Adjoins(marks, k' - 1);
      BatchWaits(log, marks, k, last);
      PrecedesTrans(g, marks[k].end - 1, last, j);
    }
  }

  lemma {:induction false} MarksOrdered(marks: seq<Mark>, end: nat, a: nat, b: nat)
    requires Contiguous(marks, end) && a < |marks| && b < |marks|
    ensures a < b ==> marks[a].end <= marks[b].start
    ensures marks[a].end <= end
    decreases b
  {
    if a < b - 1 {
      MarksOrdered(marks, end, a, b - 1);
      assert Adjoins(marks, b - 1);
    }
    if a < b {
      assert Adjoins(marks, b);
    }
    LastMark(marks, end, a);
  }

  lemma {:induction false} LastMark(marks: seq<Mark>, end: nat, a: nat)
    requires Contiguous(marks, end) && a < |marks|
    ensures marks[a].end <= end
    decreases |marks| - a
  {
    if a < |marks| - 1 {
      LastMark(marks, end, a + 1);
      assert Adjoins(marks, a + 1);
    }
  }

  lemma SubmittedTopological(log: Log, marks: seq<Mark>)
    requires Ordered(log)
    ensures Topological(Submitted(log, marks))
  {
    var g := Submitted(log, marks);
    forall i, k | 0 <= i < |g| && 0 <= k < |g[i]| ensures g[i][k] < i {
      if k < |log[i].dependencies| {
        assert g[i][k] in log[i].dependencies;
      }
    }
  }

  /** The whole log is ordered, and cold blocks are accessed one transaction after the other. */
  lemma WholeLog(log: Log, marks: seq<Mark>, arena: Arena, cfg: Config)
    requires cfg.Valid() && AllKept(log, marks, arena, cfg) && Contiguous(marks, |log|)
    ensures Ordered(log) && Serial(log)
  {
    hide Mapping, KvRuns.Sound, Tidied, Ordered, Serial, Transactions.Before;
    if marks == [] {
      EmptyLog(log);
    } else {
      var mark := marks[|marks| - 1];
      assert Kept(log, mark, arena, cfg);
      assert log[..mark.end] == log;
      MappingOrdered(log, mark, arena, cfg);
    }
  }

  lemma EmptyLog(log: Log)
    requires log == []
    ensures Ordered(log) && Serial(log)
  {
  }

  lemma MappingOrdered(log: Log, mark: Mark, arena: Arena, cfg: Config)
    requires Mapping(log, mark, arena, cfg)
    ensures Ordered(log) && Serial(log) && Handed(log, mark.start) && Completes(log, mark.start)
  {
    hide Ordered, Serial, Handed, Phased, PreparesFirst, KeepsOrder, Owned, Ending, MappedAll, Did, Serving, Fitting, Completes;
  }

  /** Two transactions of one batch. */
  lemma WithinBatch(log: Log, marks: seq<Mark>, k: nat, arena: Arena, cfg: Config, i: nat, j: nat, place: Place)
    requires cfg.Valid() && AllKept(log, marks, arena, cfg) && k < |marks|
    requires marks[k].start <= i < j < marks[k].end <= |log| && Clash(log, arena, i, j, place)
    ensures Transactions.Before(log, i, j)
  {
    hide Mapping, KvRuns.Sound, Tidied, Transactions.Before, Reads, Writes, Emitting, AllPrimed, Orderly;
    var mark := marks[k];
    assert Kept(log, mark, arena, cfg);
    var front := log[..mark.end];
    MappingEmits(front, mark, arena, cfg);
    assert Clash(front, arena, i, j, place);
    BatchClash(mark.Of(arena, cfg), front, mark.start, mark.tasks, mark.images, mark.activation, cfg, mark.w.mems, i, j, place);
    assert log == front + log[mark.end..];
    BeforeGrows(front, log[mark.end..], i, j);
  }

  /** A transaction that touches HBM is done with its batch. */
  lemma DoneWithBatch(log: Log, marks: seq<Mark>, k: nat, arena: Arena, cfg: Config, i: nat, address: nat)
    requires cfg.Valid() && AllKept(log, marks, arena, cfg) && k < |marks| && marks[k].start <= i < marks[k].end <= |log|
    requires InHbm(address) in Reads(log[i].work, i, arena) || InHbm(address) in Writes(log[i].work, i, arena)
    ensures Transactions.Before(log, i, marks[k].end - 1)
  {
    hide Mapping, KvRuns.Sound, Tidied, Transactions.Before, Reads, Writes;
    var mark := marks[k];
    assert Kept(log, mark, arena, cfg);
    var front := log[..mark.end];
    MappingOrdered(front, mark, arena, cfg);
    HotKinds(log[i].work, i, arena, address);
    assert front[i] == log[i];
    assert log == front + log[mark.end..];
    BeforeGrows(front, log[mark.end..], i, mark.end - 1);
  }

  /** Data on its way is taken in its own batch. */
  lemma WayWithin(log: Log, marks: seq<Mark>, k: nat, arena: Arena, cfg: Config, i: nat, reader: nat, at: nat)
    requires cfg.Valid() && AllKept(log, marks, arena, cfg) && k < |marks| && marks[k].start <= i < marks[k].end <= |log|
    requires OnTheWay(reader, at) in Reads(log[i].work, i, arena) || OnTheWay(reader, at) in Writes(log[i].work, i, arena)
    ensures marks[k].start <= reader <= i
  {
    hide Mapping, KvRuns.Sound, Tidied, Transactions.Before, Reads, Writes;
    var mark := marks[k];
    assert Kept(log, mark, arena, cfg);
    var front := log[..mark.end];
    MappingOrdered(front, mark, arena, cfg);
    OneSource(log[i].work, i, reader, at, arena);
    assert front[i] == log[i];
    assert HandedAt(front, mark.start, i);
  }

  lemma AcrossBatches(log: Log, marks: seq<Mark>, k: nat, k': nat, arena: Arena, cfg: Config, i: nat, j: nat, place: Place)
    requires cfg.Valid() && AllKept(log, marks, arena, cfg) && Contiguous(marks, |log|) && k < k' < |marks|
    requires marks[k].start <= i < marks[k].end && marks[k'].start <= j < marks[k'].end && j < |log| && i < |log|
    requires Clash(log, arena, i, j, place)
    ensures Precedes(Submitted(log, marks), i, j)
  {
    hide Mapping, KvRuns.Sound, Tidied, Transactions.Before, Reads, Writes, AllKept, Contiguous, Precedes;
    MarksOrdered(marks, |log|, k, k');
    MarksOrdered(marks, |log|, k', k);
    match place
    case OnTheWay(reader, at) =>
      WayWithin(log, marks, k, arena, cfg, i, reader, at);
      WayWithin(log, marks, k', arena, cfg, j, reader, at);
    case InCold(_) =>
      WholeLog(log, marks, arena, cfg);
      ColdClash(log, arena, i, j, place);
      DependenciesKept(log, marks, i, j);
    case InHbm(address) =>
      DoneWithBatch(log, marks, k, arena, cfg, i, address);
      DependenciesKept(log, marks, i, marks[k].end - 1);
      BatchWaits(log, marks, k, j);
      PrecedesTrans(Submitted(log, marks), i, marks[k].end - 1, j);
  }

  /** Whatever two transactions contend for, a session executes them in the order of emission. */
  lemma RunDetermined(log: Log, marks: seq<Mark>, arena: Arena, cfg: Config, initial: Place -> Byte)
    requires cfg.Valid() && AllKept(log, marks, arena, cfg) && Contiguous(marks, |log|)
    ensures Determined(Submitted(log, marks), ProgramOf(log, arena, initial))
  {
    hide AllKept, Contiguous, Reads, Writes, Result, Precedes, Transactions.Before;
    var g, p := Submitted(log, marks), ProgramOf(log, arena, initial);
    forall i: nat, j: nat, place: Place | i < j < |g| && Conflict(p, i, j, place) ensures Precedes(g, i, j) {
      assert Clash(log, arena, i, j, place);
      ClashOrdered(log, marks, arena, cfg, i, j, place);
    }
  }

  lemma ClashOrdered(log: Log, marks: seq<Mark>, arena: Arena, cfg: Config, i: nat, j: nat, place: Place)
    requires cfg.Valid() && AllKept(log, marks, arena, cfg) && Contiguous(marks, |log|)
    requires i < j < |log| && Clash(log, arena, i, j, place)
    ensures Precedes(Submitted(log, marks), i, j)
  {
    hide AllKept, Precedes, Transactions.Before, Clash, Contiguous;
    var k := BatchOf(marks, |log|, i);
    var k' := BatchOf(marks, |log|, j);
    MarksOrdered(marks, |log|, k', k);
    MarksOrdered(marks, |log|, k, k');
    if k == k' {
      WithinBatch(log, marks, k, arena, cfg, i, j, place);
      DependenciesKept(log, marks, i, j);
    } else {
      AcrossBatches(log, marks, k, k', arena, cfg, i, j, place);
    }
  }

  // ------------------------------------------------------------- main results

  /** At the start, memory is what the plane takes it for. */
  ghost predicate Begins(initial: Place -> Byte, mems: Mems, arena: Arena)
  {
    forall b: nat, x: nat :: x < arena.blockBytes ==> BeginsAt(initial, mems, arena, b, x)
  }

  ghost predicate BeginsAt(initial: Place -> Byte, mems: Mems, arena: Arena, b: nat, x: nat)
  {
    && initial(InHbm(Address(arena.hotBegin, b, arena.blockBytes, x))) == mems.hot(b, x)
    && initial(InCold(Address(arena.coldBegin, b, arena.blockBytes, x))) == mems.cold(b, x)
  }

  lemma BeginsShown(initial: Place -> Byte, mems: Mems, arena: Arena)
    requires Begins(initial, mems, arena)
    ensures Shows([], arena, initial, 0, mems)
  {
    forall b: nat, x: nat | x < arena.blockBytes ensures ShowsAt([], arena, initial, 0, mems, b, x) {
      assert BeginsAt(initial, mems, arena, b, x);
    }
  }

  /** What a session leaves in memory, and what transaction q reads meanwhile. */
  ghost function Left(log: Log, arena: Arena, initial: Place -> Byte, order: seq<nat>, place: Place): Byte
    requires |order| == |log|
  {
    Executions.Content(ProgramOf(log, arena, initial), order, |log|, place)
  }

  ghost function Found(log: Log, marks: seq<Mark>, arena: Arena, initial: Place -> Byte, order: seq<nat>, q: nat, place: Place): Byte
    requires Respects(Submitted(log, marks), order) && q < |log|
  {
    Seen(View(ProgramOf(log, arena, initial), order, Turn(Submitted(log, marks), order, q)), place)
  }

  /** After any run and in any admissible order, both pools hold what the plane's decisions say. */
  lemma RunRealized(hotBlocks: nat, coldBlocks: nat, mems: Mems, actions: seq<Action>, log: Log, marks: seq<Mark>, arena: Arena, cfg: Config,
                    initial: Place -> Byte, order: seq<nat>, b: nat, x: nat)
    requires cfg.Valid() && Play(Opening(hotBlocks, coldBlocks, mems), actions, cfg).Some? && Begins(initial, mems, arena)
    requires Recorded(Opening(hotBlocks, coldBlocks, mems), actions, log, marks, arena, cfg)
    requires Respects(Submitted(log, marks), order) && x < arena.blockBytes
    ensures var w := Play(Opening(hotBlocks, coldBlocks, mems), actions, cfg).value;
      && Left(log, arena, initial, order, InHbm(Address(arena.hotBegin, b, arena.blockBytes, x))) == w.mems.hot(b, x)
      && Left(log, arena, initial, order, InCold(Address(arena.coldBegin, b, arena.blockBytes, x))) == w.mems.cold(b, x)
  {
    hide KvRuns.Sound, Tidied, Play, Recorded, AllKept, Contiguous, Opening, Executions.Content, Respects, Determined, ProgramOf;
    var opening := Opening(hotBlocks, coldBlocks, mems);
    RunFacts(hotBlocks, coldBlocks, mems, actions, log, marks, arena, cfg, initial);
    SameMemory(Submitted(log, marks), ProgramOf(log, arena, initial), order, InHbm(Address(arena.hotBegin, b, arena.blockBytes, x)));
    SameMemory(Submitted(log, marks), ProgramOf(log, arena, initial), order, InCold(Address(arena.coldBegin, b, arena.blockBytes, x)));
    RunShows(opening, actions, log, marks, arena, cfg, initial);
    assert ShowsAt(log, arena, initial, |log|, Play(opening, actions, cfg).value.mems, b, x);
  }

  lemma RunFacts(hotBlocks: nat, coldBlocks: nat, mems: Mems, actions: seq<Action>, log: Log, marks: seq<Mark>, arena: Arena, cfg: Config,
                 initial: Place -> Byte)
    requires cfg.Valid() && Play(Opening(hotBlocks, coldBlocks, mems), actions, cfg).Some? && Begins(initial, mems, arena)
    requires Recorded(Opening(hotBlocks, coldBlocks, mems), actions, log, marks, arena, cfg)
    ensures KvRuns.Sound(Opening(hotBlocks, coldBlocks, mems), cfg) && Tidied(Opening(hotBlocks, coldBlocks, mems), cfg)
    ensures Opening(hotBlocks, coldBlocks, mems).mems == mems && Shows([], arena, initial, 0, mems)
    ensures Topological(Submitted(log, marks)) && Determined(Submitted(log, marks), ProgramOf(log, arena, initial))
  {
    hide KvRuns.Sound, Tidied, Play, Recorded, AllKept, Contiguous, Determined, ProgramOf, Shows, Begins;
    var opening := Opening(hotBlocks, coldBlocks, mems);
    OpeningSound(hotBlocks, coldBlocks, mems, cfg);
    OpeningTidied(hotBlocks, coldBlocks, mems, cfg);
    BeginsShown(initial, mems, arena);
    RecordedKept(opening, actions, log, marks, arena, cfg);
    WholeLog(log, marks, arena, cfg);
    SubmittedTopological(log, marks);
    RunDetermined(log, marks, arena, cfg, initial);
  }

  /** The main result about reads: in any run and in any admissible order, every byte that a context
      read finds is the KV byte of its request, at its layer and position. */
  lemma ContextsRead(hotBlocks: nat, coldBlocks: nat, mems: Mems, actions: seq<Action>, log: Log, marks: seq<Mark>, arena: Arena, cfg: Config,
                     initial: Place -> Byte, order: seq<nat>, q: nat, address: nat)
    requires cfg.Valid() && Play(Opening(hotBlocks, coldBlocks, mems), actions, cfg).Some? && Begins(initial, mems, arena)
    requires Recorded(Opening(hotBlocks, coldBlocks, mems), actions, log, marks, arena, cfg)
    requires Respects(Submitted(log, marks), order) && q < |log|
    requires log[q].work.Access? && log[q].work.target.Kv? && !log[q].work.target.write
    requires log[q].work.piece.address <= address < log[q].work.piece.address + log[q].work.piece.bytes
    ensures Found(log, marks, arena, initial, order, q, InHbm(address)) == Expected(log[q].work, address)
  {
    hide KvRuns.Sound, Tidied, Play, Recorded, Opening, Executions.Content, Respects, Determined, ProgramOf, View, After, KvByte;
    var opening := Opening(hotBlocks, coldBlocks, mems);
    RunFacts(hotBlocks, coldBlocks, mems, actions, log, marks, arena, cfg, initial);
    SameView(Submitted(log, marks), ProgramOf(log, arena, initial), order, q);
    RunContexts(opening, actions, log, marks, arena, cfg, initial, q);
    assert InHbm(address) in Reads(log[q].work, q, arena);
    assert Looks(log, arena, initial, q) == View(ProgramOf(log, arena, initial), Emitted(|log|), q);
  }

  /** Once the last batch has run, every byte of every token of every live request is at the address
      that the request's block table gives it, in the tier where the request is. */
  lemma TokensFound(hotBlocks: nat, coldBlocks: nat, mems: Mems, actions: seq<Action>, log: Log, marks: seq<Mark>, arena: Arena, cfg: Config,
                    initial: Place -> Byte, order: seq<nat>, id: nat, layer: nat, position: nat, j: nat) returns (b: nat, slot: nat)
    requires cfg.Valid() && Play(Opening(hotBlocks, coldBlocks, mems), actions, cfg).Some? && Begins(initial, mems, arena)
    requires Recorded(Opening(hotBlocks, coldBlocks, mems), actions, log, marks, arena, cfg) && Respects(Submitted(log, marks), order)
    requires var w := Play(Opening(hotBlocks, coldBlocks, mems), actions, cfg).value;
      && w.reserved == [] && w.s.migrations == []
      && id in w.s.kv && layer < w.s.kv[id].request.model.layers && id in w.frontier && position < w.frontier[id]
      && j < w.s.kv[id].request.model.TokenBytes(layer)
      && At(cfg.blockTokens, w.s.kv[id].request.model.TokenBytes(layer), 0) <= arena.blockBytes
    ensures var st := Play(Opening(hotBlocks, coldBlocks, mems), actions, cfg).value.s.kv[id];
      var x := At(slot, st.request.model.TokenBytes(layer), j);
      && StoredAt(st, layer, position, cfg.blockTokens, b, slot)
      && Left(log, arena, initial, order,
              if st.tier.Hot? then InHbm(Address(arena.hotBegin, b, arena.blockBytes, x))
              else InCold(Address(arena.coldBegin, b, arena.blockBytes, x)))
         == Part(KvOf(st.request, layer, position), j)
  {
    hide KvRuns.Sound, Tidied, Play, Recorded, Opening, Respects, Left, Address, At, KvOf;
    var opening := Opening(hotBlocks, coldBlocks, mems);
    var w := Play(opening, actions, cfg).value;
    var st := w.s.kv[id];
    var width := st.request.model.TokenBytes(layer);
    RunFacts(hotBlocks, coldBlocks, mems, actions, log, marks, arena, cfg, initial);
    PlayTidied(opening, actions, cfg);
    b, slot := TokenReads(w, cfg, id, layer, position);
    NothingPending(w, cfg);
    BytesOrdered(cfg.blockTokens, slot, j, width);
    RunRealized(hotBlocks, coldBlocks, mems, actions, log, marks, arena, cfg, initial, order, b, At(slot, width, j));
    assert Stored(w.mems.Of(st.tier), b, slot, width, KvOf(st.request, layer, position));
  }

  lemma NothingPending(w: World, cfg: Config)
    requires w.reserved == [] && w.s.migrations == []
    ensures Future(w.s, w.mems, w.reserved, cfg) == w.mems
  {
  }
}
