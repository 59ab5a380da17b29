/** Rewriting one compiled batch into physical transactions, with fences on cold blocks across batches. */
module Mappings {
  import opened Modular
  import opened Graphs
  import opened StackGeometry
  import opened StackLinks
  import opened BlockRuns
  import opened Transactions
  import opened Strictness
  import opened Stagings
  import opened TaskMaps
  import KvPieces

  datatype Activation = Hit | Miss(chunks: nat)

  /** The blocks of one request that change tiers, layer by layer. */
  datatype Move = Move(out: bool, layers: seq<seq<Pair>>)

  function LayerEffects(out: bool, layers: seq<seq<Pair>>): seq<Effect>
  {
    if layers == [] then [] else LayerEffects(out, layers[..|layers| - 1]) + MovedAll(out, layers[|layers| - 1])
  }

  /** Every block of every migration, in the order of the placement's decisions. */
  function MoveEffects(moves: seq<Move>): seq<Effect>
  {
    if moves == [] then []
    else
      var last := moves[|moves| - 1];
      MoveEffects(moves[..|moves| - 1]) + LayerEffects(last.out, last.layers)
  }

  function ChunkEffects(chunks: nat): seq<Effect>
  {
    if chunks == 0 then [] else ChunkEffects(chunks - 1) + [Loaded(chunks - 1)]
  }

  function ActivationEffects(activation: Activation): seq<Effect>
  {
    match activation
    case Hit => []
    case Miss(chunks) => ChunkEffects(chunks)
  }

  // ------------------------------------------------------ the steps of a batch

  function RunSteps(out: bool, run: Run): seq<Work>
  {
    if out then [HotRead(run), ColdWrite(run, 0)] else [ColdRead(run), HotWrite(run, 0)]
  }

  function RunsSteps(out: bool, runs: seq<Run>): seq<Work>
  {
    if runs == [] then [] else RunsSteps(out, runs[..|runs| - 1]) + RunSteps(out, runs[|runs| - 1])
  }

  ghost function LayerSteps(out: bool, layers: seq<seq<Pair>>): seq<Work>
  {
    if layers == [] then [] else LayerSteps(out, layers[..|layers| - 1]) + RunsSteps(out, RunsOf(layers[|layers| - 1]))
  }

  ghost function MigrationSteps(moves: seq<Move>): seq<Work>
  {
    if moves == [] then []
    else
      var last := moves[|moves| - 1];
      MigrationSteps(moves[..|moves| - 1]) + LayerSteps(last.out, last.layers)
  }

  function ChunkSteps(chunks: nat): seq<Work>
  {
    if chunks == 0 then [] else ChunkSteps(chunks - 1) + [Fetch(chunks - 1), Install(chunks - 1)]
  }

  function ActivationSteps(activation: Activation): seq<Work>
  {
    match activation
    case Hit => []
    case Miss(chunks) => ChunkSteps(chunks) + [Installed]
  }

  /** All that a batch does besides its compiled operations: the release, the chunks one by one, every
      run of neighbouring blocks, and a barrier behind each of the two where there is anything. */
  ghost function BatchSteps(activation: Activation, moves: seq<Move>): seq<Work>
  {
    [Release] + ActivationSteps(activation) + (MigrationSteps(moves) + (if MigrationSteps(moves) == [] then [] else [Swapped]))
  }

  /** Nothing already emitted changes. */
  ghost predicate Extends(before: Log, after: Log)
  {
    |before| <= |after| && after[..|before|] == before
  }

  /** Whether any run has been moved so far. */
  predicate Something(read: seq<nat>, arrived: seq<nat>)
  {
    read != [] || arrived != []
  }

  /** The compiled operations are none of these steps. */
  lemma CompiledSilent(prepared: Log, log: Log, start: nat, roots: seq<nat>)
    requires Extends(prepared, log) && Prepared(log, prepared, start, roots)
    ensures Took(prepared, log, [])
  {
    assert forall q :: |prepared| <= q < |log| ==> log[q].work.Compiled();
    assert log[..|prepared|] == prepared;
    AllSilent(log, |prepared|);
  }

  lemma {:induction false} AllSilent(log: Log, n: nat)
    requires n <= |log| && forall q :: n <= q < |log| ==> log[q].work.Compiled()
    ensures Took(log[..n], log, [])
  {
    if n == |log| {
      assert log[..n] == log;
    } else {
      var shorter := log[..|log| - 1];
      AllSilent(shorter, n);
      assert shorter[..n] == log[..n];
    }
  }

  lemma RunsMove(out: bool, runs: seq<Run>)
    ensures RunsSteps(out, runs) == [] <==> runs == []
  {
  }

  lemma ExtendsTrans(a: Log, b: Log, c: Log)
    requires Extends(a, b) && Extends(b, c)
    ensures Extends(a, c)
  {
    assert c[..|a|] == c[..|b|][..|a|];
  }

  /** What every step of the mapping hands to the next one. */
  ghost predicate Continues(before: Stage, after: Stage)
  {
    after.start == before.start && after.kept == before.kept && after.preparing == before.preparing && after.cold == before.cold
  }

  /** The same for a step that neither installs a chunk nor sets a barrier for others. */
  ghost predicate Follows(before: Stage, after: Stage)
  {
    Continues(before, after) && after.installs == before.installs && after.gates == before.gates
  }

  class Mapper {
    const cold: ColdTier
    /** The bytes that HBM serves as one stripe, if it does. */
    const stripe: nat
    var log: Log
    var fences: map<nat, nat>

    ghost predicate Valid()
      reads this
    {
      cold.Valid() && Ordered(log) && Fenced(log, fences) && Serial(log)
    }

    constructor (cold: ColdTier, stripe: nat)
      requires cold.Valid()
      ensures Valid() && log == [] && fences == map[] && this.cold == cold && this.stripe == stripe
    {
      this.cold, this.stripe, log, fences := cold, stripe, [], map[];
    }

    /** Emits one transaction, and moves the fences of the cold blocks it touches. */
    method Emit(work: Work, dependencies: seq<nat>, ghost stage: Stage) returns (id: nat, ghost next: Stage)
      requires Staged(log, fences, stage) && Allowed(log, fences, stage, Transaction(work, Distinct(dependencies)))
      modifies this
      ensures id == |old(log)| && log == old(log) + [Transaction(work, Distinct(dependencies))] && Extends(old(log), log)
      ensures fences == Fence(old(fences), work, id)
      ensures Noted(old(log), log, work) && Took(old(log), log, StepOf(work))
      ensures next == Advanced(stage, Transaction(work, Distinct(dependencies)), id) && Staged(log, fences, next)
    {
      hide Staged, Allowed, Noted, Took;
      ghost var t := Transaction(work, Distinct(dependencies));
      StagedPush(log, fences, stage, t);
      NotedPush(log, t);
      TookOne(log, t);
      id := |log|;
      log := log + [Transaction(work, Distinct(dependencies))];
      if work.ColdWrite? {
        MoveFences(work.run.target, work.run.count, id);
      } else if work.ColdRead? {
        MoveFences(work.run.source, work.run.count, id);
      }
      next := Advanced(stage, t, id);
    }

    method MoveFences(first: nat, count: nat, id: nat)
      modifies this`fences
      ensures fences == FenceRange(old(fences), first, count, id)
    {
      for n := 0 to count
        invariant fences == FenceRange(old(fences), first, n, id)
      {
        fences := fences[first + n := id];
      }
    }

    /** The last access to each block of a cold run, as far as there is one. */
    method ColdDependencies(first: nat, count: nat) returns (ids: seq<nat>)
      ensures FencesIn(fences, first, count, ids)
    {
      ids := [];
      for n := 0 to count
        invariant FencesIn(fences, first, n, ids)
      {
        FencesMore(fences, first, n, ids);
        if first + n in fences {
          ids := ids + [fences[first + n]];
        }
      }
    }

    /** Emits a transaction that neither touches a cold block nor reads a hot one. */
    method EmitPlain(work: Work, dependencies: seq<nat>, ghost stage: Stage) returns (id: nat, ghost next: Stage)
      requires Staged(log, fences, stage) && Own(dependencies, stage.start, |log|)
      requires work.Release? || work.Fetch? || work.Installed? || work.Link? || work.Swapped? || (work.Compiled() && !stage.preparing)
      requires StrictAt(log + [Transaction(work, Distinct(dependencies))], stage.start, stage.cold, |log|)
      modifies this
      ensures id == |old(log)| && log == old(log) + [Transaction(work, Distinct(dependencies))] && Extends(old(log), log)
      ensures fences == old(fences) && Did(old(log), log, []) && Took(old(log), log, StepOf(work))
      ensures next == stage.(targets := Closed(stage.targets, Transaction(work, Distinct(dependencies)), id),
                             gates := if IsKind(work, Gating) then stage.gates + [id] else stage.gates)
      ensures Staged(log, fences, next)
    {
      hide Did, StrictAt, Took, StepOf;
      PlainAllowed(log, fences, stage, work, dependencies);
      hide Staged, Allowed, Noted;
      id, next := Emit(work, dependencies, stage);
      DidOne(old(log), log, work);
    }

    // -------------------------------------------------------------- activation

    /** Loads the model's chunks into the cache and waits for all of them. */
    method Activate(chunks: nat, release: nat, ghost stage: Stage) returns (barrier: nat, ghost next: Stage)
      requires Staged(log, fences, stage) && release == stage.start < |log| && stage.preparing && stage.installs == []
      modifies this
      ensures Staged(log, fences, next) && Continues(stage, next) && Extends(old(log), log) && stage.start <= barrier < |log|
      ensures Did(old(log), log, ChunkEffects(chunks)) && Took(old(log), log, ChunkSteps(chunks) + [Installed])
      ensures next.targets <= stage.targets + {barrier} && next.drained == stage.drained && next.landed == stage.landed
      ensures next.gates == stage.gates + [barrier]
    {
      hide Staged, Did, Allowed, Noted, StrictAt, Took;
      var installed: seq<nat> := [];
      next := stage;
      DidNothing(log);
      TookNothing(log);
      for n := 0 to chunks
        invariant Staged(log, fences, next) && Continues(stage, next) && Extends(old(log), log)
        invariant Own(installed, stage.start, |log|) && next.installs == installed && next.gates == stage.gates
        invariant Did(old(log), log, ChunkEffects(n)) && Took(old(log), log, ChunkSteps(n))
        invariant next.targets <= stage.targets + Elements(installed) && next.drained == stage.drained && next.landed == stage.landed
      {
        ghost var first := log;
        var install: nat;
        install, next := LoadChunk(n, release, next);
        DidMore(old(log), first, log, ChunkEffects(n), [Loaded(n)]);
        TookMore(old(log), first, log, ChunkSteps(n), [Fetch(n), Install(n)]);
        ExtendsTrans(old(log), first, log);
        installed := installed + [install];
      }
      ghost var first := log;
      InstalledStrict(log, fences, next);
      barrier, next := EmitPlain(Installed, installed, next);
      ExtendsTrans(old(log), first, log);
      DidSilent(old(log), first, log, ChunkEffects(chunks));
      TookMore(old(log), first, log, ChunkSteps(chunks), [Installed]);
    }

    /** Fetches one chunk and installs it. */
    method LoadChunk(n: nat, release: nat, ghost stage: Stage) returns (install: nat, ghost next: Stage)
      requires Staged(log, fences, stage) && release == stage.start < |log| && stage.preparing
      modifies this
      ensures Staged(log, fences, next) && Continues(stage, next) && Extends(old(log), log) && stage.start <= install < |log|
      ensures Took(old(log), log, [Fetch(n), Install(n)])
      ensures Did(old(log), log, [Loaded(n)]) && next.installs == stage.installs + [install] && next.gates == stage.gates
      ensures next.targets <= stage.targets + {install} && next.drained == stage.drained && next.landed == stage.landed
    {
      hide Staged, Did, Allowed, Noted, StrictAt, Took;
      var fetched: nat;
      FetchStrict(log, stage.start, stage.cold, n, release);
      fetched, next := EmitPlain(Fetch(n), [release], stage);
      ghost var second := log;
      BeforeInstall(log, fences, next, n, fetched);
      install, next := Emit(Install(n), [fetched], next);
      DidOne(second, log, Install(n));
      DidLate(old(log), second, log, [Loaded(n)]);
      TookMore(old(log), second, log, [Fetch(n)], [Install(n)]);
      assert [Fetch(n)] + [Install(n)] == [Fetch(n), Install(n)];
      ExtendsTrans(old(log), second, log);
    }

    // --------------------------------------------------------------- migrations

    /** One link transaction for every stack that holds bytes of the run, with that many bytes. */
    method EmitLinks(outward: bool, block: nat, count: nat, dependency: nat, ghost stage: Stage)
      returns (links: seq<nat>, ghost next: Stage, ghost counts: seq<nat>)
      requires Staged(log, fences, stage) && stage.start <= dependency < |log| && dependency + 1 == |log|
      requires if outward then log[dependency].work.HotRead? else log[dependency].work.ColdRead?
      requires cold.Hbf? && cold.Valid() && count > 0
      modifies this
      ensures Staged(log, fences, next) && Follows(stage, next) && Extends(old(log), log) && fences == old(fences)
      ensures Histogram(cold.geometry, cold.begin + Scaled(block, cold.blockBytes), Scaled(count, cold.blockBytes), counts)
      ensures WorksBetween(log, |old(log)|, |log|) == LinkWorks(outward, counts)
      ensures links != [] && Own(links, stage.start, |log|) && forall l :: l in links ==> Before(log, dependency, l)
      ensures forall l: nat :: l in links <==> dependency < l < |log|
      ensures Did(old(log), log, []) && Took(old(log), log, []) && next.drained == stage.drained && next.landed == stage.landed
      ensures if outward then next.targets == stage.targets else next.targets <= (stage.targets - {dependency}) + Elements(links)
    {
      hide Staged, Did, Before, Bytes, Histogram, Aligned, Geometry.Valid, LinkWorks, StrictAt, Took;
      RunAligned(cold, block, count);
      var split := LinkBytesByStack(cold.begin + Scaled(block, cold.blockBytes), Scaled(count, cold.blockBytes), cold.geometry);
      StackCount(cold.geometry, cold.begin + Scaled(block, cold.blockBytes), Scaled(count, cold.blockBytes), split.counts);
      links, next, counts := [], stage, split.counts;
      LinkWorksStart(outward, counts);
      DidNothing(log);
      TookNothing(log);
      for stack := 0 to |split.counts|
        invariant Staged(log, fences, next) && Follows(stage, next) && Extends(old(log), log) && fences == old(fences)
        invariant Own(links, stage.start, |log|) && (links == [] ==> SumOf(split.counts, stack) == 0)
        invariant forall l :: l in links ==> Before(log, dependency, l)
        invariant Did(old(log), log, []) && Took(old(log), log, []) && next.drained == stage.drained && next.landed == stage.landed
        invariant WorksBetween(log, |old(log)|, |log|) == LinkWorks(outward, counts[..stack])
        invariant forall l: nat :: l in links <==> dependency < l < |log|
        invariant outward ==> next.targets == stage.targets
        invariant next.targets <= (if links == [] then stage.targets else (stage.targets - {dependency}) + Elements(links)) || outward
      {
        LinkWorksNext(outward, counts, stack);
        if split.counts[stack] > 0 {
          ghost var first := log;
          var id: nat;
          id, next := EmitLink(outward, stack, split.counts[stack], dependency, counts, old(log), next);
          DidSilent(old(log), first, log, []);
          TookSilent(old(log), first, log, []);
          AllGrow(first, log, dependency, links);
          links := links + [id];
          ExtendsTrans(old(log), first, log);
        }
      }
      assert counts[..|counts|] == counts;
    }

    /** The link of one stack. */
    method EmitLink(outward: bool, stack: nat, bytes: nat, dependency: nat, ghost counts: seq<nat>, ghost before: Log, ghost stage: Stage)
      returns (id: nat, ghost next: Stage)
      requires Staged(log, fences, stage) && Extends(before, log) && stage.start <= dependency && dependency + 1 == |before|
      requires if outward then before[dependency].work.HotRead? else before[dependency].work.ColdRead?
      requires stack < |counts| && counts[stack] == bytes && WorksBetween(log, |before|, |log|) == LinkWorks(outward, counts[..stack])
      modifies this
      ensures Staged(log, fences, next) && Follows(stage, next) && Extends(old(log), log) && fences == old(fences)
      ensures id == |old(log)| && |log| == id + 1 && Before(log, dependency, id) && Did(old(log), log, []) && Took(old(log), log, [])
      ensures WorksBetween(log, |before|, |log|) == LinkWorks(outward, counts[..stack]) + [Link(outward, stack, counts[stack])]
      ensures next.drained == stage.drained && next.landed == stage.landed
      ensures if outward then next.targets == stage.targets else next.targets == (stage.targets - {dependency}) + {id}
    {
      hide Staged, Did, Before, LinkWorks, StrictAt, Took;
      ghost var first := log;
      LinkStrict(log, before, stage.start, stage.cold, outward, counts, stack, dependency);
      id, next := EmitPlain(Link(outward, stack, bytes), [dependency], stage);
      BeforeDirect(log, dependency, id);
      DistinctOne(dependency);
      assert WorksBetween(log, |before|, |log|) == WorksBetween(first, |before|, |first|) + [log[id].work];
    }

    /** Reads a run out of the hot pool; its write may outlive the batch. */
    method SwapOut(run: Run, release: nat, ghost stage: Stage) returns (read: nat, ghost next: Stage)
      requires Staged(log, fences, stage) && release == stage.start < |log| && stage.preparing && cold.Valid() && run.count > 0
      requires stage.cold == cold
      modifies this
      ensures Staged(log, fences, next) && Follows(stage, next) && Extends(old(log), log) && stage.start <= read < |log|
      ensures Did(old(log), log, MovedAll(true, run.Pairs())) && Took(old(log), log, RunSteps(true, run))
      ensures next.targets <= stage.targets + {read} && next.drained == stage.drained + [read] && next.landed == stage.landed
    {
      hide Staged, Did, Allowed, Before, WaitsForFences, Noted, Left, Run.Pairs, MovedAll, FencesIn, Took;
      ReadAllowed(log, fences, stage, run, release);
      ghost var fencesBefore := fences;
      var fenced := ColdDependencies(run.target, run.count);
      read, next := Emit(HotRead(run), [release], stage);
      ghost var first := log;
      LeftOne(old(log), log, run);
      assert fences == fencesBefore;
      next := StoreRun(run, fenced, old(log), next);
      TookMore(old(log), first, log, [HotRead(run)], [ColdWrite(run, 0)]);
      assert [HotRead(run)] + [ColdWrite(run, 0)] == RunSteps(true, run);
      ExtendsTrans(old(log), first, log);
    }

    /** The way of a run that has been read to the cold tier. */
    method StoreRun(run: Run, fenced: seq<nat>, ghost before: Log, ghost stage: Stage) returns (ghost next: Stage)
      requires Left(before, log, MovedAll(true, run.Pairs()))
      requires Staged(log, fences, stage) && stage.start < |log| && log[|log| - 1].work == HotRead(run)
      requires stage.preparing && cold.Valid() && run.count > 0 && stage.cold == cold
      requires FencesIn(fences, run.target, run.count, fenced)
      modifies this
      ensures Staged(log, fences, next) && Follows(stage, next) && Extends(old(log), log)
      ensures Did(before, log, MovedAll(true, run.Pairs())) && Took(old(log), log, [ColdWrite(run, 0)])
      ensures next.targets == stage.targets && next.drained == stage.drained && next.landed == stage.landed
    {
      hide Staged, Did, Allowed, Before, WaitsForFences, Noted, Left, Run.Pairs, MovedAll, FencesIn, Histogram, Took;
      next := stage;
      TookNothing(log);
      var read := |log| - 1;
      var links := [read];
      if cold.External? {
        BeforeSelf(log, read);
      } else {
        ghost var counts;
        links, next, counts := EmitLinks(true, run.target, run.count, read, next);
        LinksOnly(log, |old(log)|, true, counts);
        CarriedOver(log, read, true, run.target, run.count, cold, counts);
        LeftSilent(before, old(log), log, MovedAll(true, run.Pairs()));
      }
      ghost var first := log;
      assert log[read] == old(log)[read];
      WriteAllowed(log, fences, next, run, read, links, fenced);
      ghost var write: nat;
      write, next := Emit(ColdWrite(run, read), links + fenced, next);
      LeftLanded(before, first, log, run, read);
      TookMore(old(log), first, log, [], [ColdWrite(run, 0)]);
      assert [] + [ColdWrite(run, 0)] == [ColdWrite(run, 0)];
      ExtendsTrans(old(log), first, log);
    }

    /** Fetches a run behind every hot read so far, and writes it into the hot pool. */
    method SwapIn(run: Run, release: nat, drained: seq<nat>, ghost stage: Stage) returns (write: nat, ghost next: Stage)
      requires Staged(log, fences, stage) && release == stage.start < |log| && stage.preparing && cold.Valid() && run.count > 0
      requires drained == stage.drained && stage.cold == cold
      modifies this
      ensures Staged(log, fences, next) && Follows(stage, next) && Extends(old(log), log) && stage.start <= write < |log|
      ensures Did(old(log), log, MovedAll(false, run.Pairs())) && Took(old(log), log, RunSteps(false, run))
      ensures next.targets <= stage.targets + {write} && next.drained == stage.drained && next.landed == stage.landed + [write]
    {
      hide Staged, Did, Allowed, Before, WaitsForFences, Noted, Left, Run.Pairs, MovedAll, FencesIn, Histogram, Took;
      var fenced := ColdDependencies(run.source, run.count);
      FetchAllowed(log, fences, stage, run, release, fenced);
      var read: nat;
      read, next := Emit(ColdRead(run), [release] + drained + fenced, stage);
      ghost var first := log;
      DidOne(old(log), log, ColdRead(run));
      write, next := LandRun(run, read, next);
      TookMore(old(log), first, log, [ColdRead(run)], [HotWrite(run, 0)]);
      assert [ColdRead(run)] + [HotWrite(run, 0)] == RunSteps(false, run);
      DidLate(old(log), first, log, MovedAll(false, run.Pairs()));
      ExtendsTrans(old(log), first, log);
    }

    /** The way of a fetched run into the hot pool. */
    method LandRun(run: Run, read: nat, ghost stage: Stage) returns (write: nat, ghost next: Stage)
      requires Staged(log, fences, stage) && stage.start <= read && |log| == read + 1 && log[read].work == ColdRead(run)
      requires stage.preparing && cold.Valid() && run.count > 0 && stage.cold == cold
      modifies this
      ensures Staged(log, fences, next) && Follows(stage, next) && Extends(old(log), log) && stage.start <= write < |log|
      ensures Did(old(log), log, MovedAll(false, run.Pairs())) && Took(old(log), log, [HotWrite(run, 0)])
      ensures next.targets <= (stage.targets - {read}) + {write} && next.drained == stage.drained && next.landed == stage.landed + [write]
    {
      hide Staged, Did, Allowed, Before, WaitsForFences, Noted, Left, Run.Pairs, MovedAll, Histogram, Took;
      next := stage;
      ghost var first := log;
      DidNothing(log);
      TookNothing(log);
      var arrivals: seq<nat>;
      if cold.External? {
        arrivals := [read];
        BeforeSelf(log, read);
      } else {
        ghost var counts;
        arrivals, next, counts := EmitLinks(false, run.source, run.count, read, next);
        LinksOnly(log, |first|, false, counts);
        CarriedOver(log, read, false, run.source, run.count, cold, counts);
        assert log[read] == first[read];
        first := log;
      }
      ArrivalAllowed(log, fences, next, run, read, arrivals);
      write, next := Emit(HotWrite(run, read), arrivals, next);
      DidOne(first, log, HotWrite(run, read));
      DidLate(old(log), first, log, MovedAll(false, run.Pairs()));
      TookMore(old(log), first, log, [], [HotWrite(run, 0)]);
      assert [] + [HotWrite(run, 0)] == [HotWrite(run, 0)];
      ExtendsTrans(old(log), first, log);
    }

    method MoveRun(out: bool, run: Run, release: nat, drained: seq<nat>, written: seq<nat>, ghost bound: set<nat>, ghost stage: Stage)
      returns (read: seq<nat>, arrived: seq<nat>, ghost next: Stage)
      requires Staged(log, fences, stage) && release == stage.start < |log| && stage.preparing && cold.Valid() && run.count > 0
      requires stage.cold == cold && Journal(stage, drained, written, bound, |log|)
      modifies this
      ensures Staged(log, fences, next) && Follows(stage, next) && Extends(old(log), log)
      ensures Journal(next, read, arrived, bound, |log|)
      ensures Did(old(log), log, MovedAll(out, run.Pairs())) && Took(old(log), log, RunSteps(out, run)) && Something(read, arrived)
    {
      hide Staged, Did, Journal, ColdTier.Valid, Took, RunSteps;
      JournalMeans(stage, drained, written, bound, |log|);
      read, arrived := drained, written;
      var id: nat;
      if out {
        id, next := SwapOut(run, release, stage);
        JournalRead(stage, next, read, arrived, bound, |old(log)|, |log|, id);
        read := read + [id];
      } else {
        id, next := SwapIn(run, release, read, stage);
        JournalWrite(stage, next, read, arrived, bound, |old(log)|, |log|, id);
        arrived := arrived + [id];
      }
    }

    /** One layer of a migration, as runs of neighbouring blocks. */
    method MoveLayer(out: bool, pairs: seq<Pair>, release: nat, drained: seq<nat>, written: seq<nat>, ghost bound: set<nat>, ghost stage: Stage)
      returns (read: seq<nat>, arrived: seq<nat>, ghost next: Stage)
      requires Staged(log, fences, stage) && release == stage.start < |log| && stage.preparing && cold.Valid()
      requires stage.cold == cold && Journal(stage, drained, written, bound, |log|)
      modifies this
      ensures Staged(log, fences, next) && Follows(stage, next) && Extends(old(log), log)
      ensures Journal(next, read, arrived, bound, |log|)
      ensures Did(old(log), log, MovedAll(out, pairs)) && Took(old(log), log, RunsSteps(out, RunsOf(pairs)))
      ensures Something(read, arrived) <==> Something(drained, written) || RunsSteps(out, RunsOf(pairs)) != []
    {
      hide Staged, Did, Journal, Run.Pairs, Took, RunSteps, RunsOf, Something;
      TookNothing(log);
      var runs := MergeRuns(pairs);
      read, arrived, next := drained, written, stage;
      assert MovedAll(out, Expanded(runs[..0])) == [];
      DidNothing(log);
      hide Expanded, MovedAll;
      for n := 0 to |runs|
        invariant Staged(log, fences, next) && Follows(stage, next) && Extends(old(log), log)
        invariant Journal(next, read, arrived, bound, |log|)
        invariant Did(old(log), log, MovedAll(out, Expanded(runs[..n]))) && Took(old(log), log, RunsSteps(out, runs[..n]))
        invariant Something(read, arrived) <==> Something(drained, written) || n > 0
      {
        ghost var first := log;
        MovedRun(out, runs, n);
        read, arrived, next := MoveRun(out, runs[n], release, read, arrived, bound, next);
        ExtendsTrans(old(log), first, log);
        DidMore(old(log), first, log, MovedAll(out, Expanded(runs[..n])), MovedAll(out, runs[n].Pairs()));
        TookMore(old(log), first, log, RunsSteps(out, runs[..n]), RunSteps(out, runs[n]));
        assert runs[..n + 1][..n] == runs[..n];
      }
      assert runs[..|runs|] == runs;
      RunsMove(out, runs);
    }

    method MoveRequest(move: Move, release: nat, drained: seq<nat>, written: seq<nat>, ghost bound: set<nat>, ghost stage: Stage)
      returns (read: seq<nat>, arrived: seq<nat>, ghost next: Stage)
      requires Staged(log, fences, stage) && release == stage.start < |log| && stage.preparing && cold.Valid()
      requires stage.cold == cold && Journal(stage, drained, written, bound, |log|)
      modifies this
      ensures Staged(log, fences, next) && Follows(stage, next) && Extends(old(log), log)
      ensures Journal(next, read, arrived, bound, |log|)
      ensures Did(old(log), log, LayerEffects(move.out, move.layers)) && Took(old(log), log, LayerSteps(move.out, move.layers))
      ensures Something(read, arrived) <==> Something(drained, written) || LayerSteps(move.out, move.layers) != []
    {
      hide Staged, Did, Journal, Took, RunsSteps, RunsOf, Something;
      read, arrived, next := drained, written, stage;
      DidNothing(log);
      TookNothing(log);
      for n := 0 to |move.layers|
        invariant Staged(log, fences, next) && Follows(stage, next) && Extends(old(log), log)
        invariant Journal(next, read, arrived, bound, |log|)
        invariant Did(old(log), log, LayerEffects(move.out, move.layers[..n])) && Took(old(log), log, LayerSteps(move.out, move.layers[..n]))
        invariant Something(read, arrived) <==> Something(drained, written) || LayerSteps(move.out, move.layers[..n]) != []
      {
        ghost var first := log;
        assert move.layers[..n + 1][..n] == move.layers[..n];
        read, arrived, next := MoveLayer(move.out, move.layers[n], release, read, arrived, bound, next);
        ExtendsTrans(old(log), first, log);
        DidMore(old(log), first, log, LayerEffects(move.out, move.layers[..n]), MovedAll(move.out, move.layers[n]));
        TookMore(old(log), first, log, LayerSteps(move.out, move.layers[..n]), RunsSteps(move.out, RunsOf(move.layers[n])));
      }
      assert move.layers[..|move.layers|] == move.layers;
    }

    /** All pending migrations, and a barrier behind the hot side of them. */
    method Migrate(moves: seq<Move>, release: nat, roots: seq<nat>, ghost stage: Stage) returns (after: seq<nat>, ghost next: Stage)
      requires Staged(log, fences, stage) && release == stage.start < |log| && stage.preparing && cold.Valid() && stage.cold == cold
      requires Own(roots, stage.start, |log|) && stage.targets <= Elements(roots) && stage.drained == stage.landed == [] && stage.gates == roots
      modifies this
      ensures Staged(log, fences, next) && Continues(stage, next) && Extends(old(log), log)
      ensures Own(after, stage.start, |log|) && next.targets <= Elements(after) && |after| >= |roots| && next.gates == after
      ensures Did(old(log), log, MoveEffects(moves))
      ensures Took(old(log), log, MigrationSteps(moves) + (if MigrationSteps(moves) == [] then [] else [Swapped]))
    {
      hide Staged, Did, Journal, Took, LayerSteps;
      var read: seq<nat>, arrived: seq<nat> := [], [];
      next := stage;
      EmptyJournal(stage, roots, |log|);
      DidNothing(log);
      TookNothing(log);
      for n := 0 to |moves|
        invariant Staged(log, fences, next) && Follows(stage, next) && Extends(old(log), log)
        invariant Journal(next, read, arrived, Elements(roots), |log|)
        invariant Did(old(log), log, MoveEffects(moves[..n])) && Took(old(log), log, MigrationSteps(moves[..n]))
        invariant Something(read, arrived) <==> MigrationSteps(moves[..n]) != []
      {
        ghost var first := log;
        assert moves[..n + 1][..n] == moves[..n];
        read, arrived, next := MoveRequest(moves[n], release, read, arrived, Elements(roots), next);
        ExtendsTrans(old(log), first, log);
        DidMore(old(log), first, log, MoveEffects(moves[..n]), LayerEffects(moves[n].out, moves[n].layers));
        TookMore(old(log), first, log, MigrationSteps(moves[..n]), LayerSteps(moves[n].out, moves[n].layers));
      }
      assert moves[..|moves|] == moves;
      JournalMeans(next, read, arrived, Elements(roots), |log|);
      after := roots;
      if Something(read, arrived) {
        ghost var first := log;
        var barrier: nat;
        SwappedStrict(log, fences, next);
        barrier, next := EmitPlain(Swapped, read + arrived, next);
        ExtendsTrans(old(log), first, log);
        DidSilent(old(log), first, log, MoveEffects(moves));
        TookMore(old(log), first, log, MigrationSteps(moves), [Swapped]);
        after := roots + [barrier];
      } else {
        assert MigrationSteps(moves) + [] == MigrationSteps(moves);
      }
    }

    // ------------------------------------------------------- compiled operations

    /** One compiled operation: its pieces wait for the ends of its dependencies, and several pieces
        are joined by a barrier. */
    method MapTask(task: Task, roots: seq<nat>, images: seq<Image>, ghost stage: Stage) returns (image: Image, ghost next: Stage)
      requires Staged(log, fences, stage) && !stage.preparing && task.WellFormed()
      requires Own(roots, stage.start, |log|) && Ending(images, stage.start, |log|)
      requires forall d :: d in task.dependencies ==> d < |images|
      modifies this
      ensures Staged(log, fences, next) && Follows(stage, next) && Extends(old(log), log) && fences == old(fences)
      ensures |old(log)| < |log| && image.terminal == |log| - 1 && Did(old(log), log, [])
      ensures Mapped(log, |images|, task, roots, images + [image]) && Own(image.ids, |old(log)|, |log|)
      ensures Serves(log, |old(log)|, |images|, image) && image.ids != [] && image.ids[0] == |old(log)|
      ensures task.Memory? ==> CutAs(log, image.ids, task.operand, stripe)
    {
      hide Staged, Did;
      hide Mapped, Carries, Serves, CutAs, BehindAll, Ending, EndsOf, TaskMaps.Ends;
      EndsBehind(task, roots, images);
      var ends := EndsOf(task.dependencies, images);
      var behind := if ends == [] then roots else ends;
      EndsOwn(task, roots, images, stage.start, |log|);
      StagedBegun(log, fences, stage);
      if task.Sync? {
        var id: nat;
        id, next := EmitPlain(Ready(|images|), behind, stage);
        image := Image([id], id);
        SyncMapped(log, task, roots, images, image, behind);
      } else {
        image, next := MapAccess(|images|, task.operand, behind, stage);
        AccessMapped(log, task, roots, images, image, behind);
      }
    }

    /** The contiguous extents of a memory operation, those in HBM cut at their whole stripes. */
    method Split(operand: Operand) returns (pieces: seq<KvPieces.Piece>)
      requires operand.WellFormed()
      ensures KvPieces.Expanded(pieces) == operand.Addresses() && pieces != [] && Cut(operand, pieces, stripe)
    {
      hide KvPieces.Separate, CutAtStripes;
      ghost var groups: seq<seq<KvPieces.Piece>> := [];
      match operand {
        case Extent(piece, inHbm) =>
          KvPieces.Alone(piece.address, piece.bytes);
          pieces := [piece];
          if inHbm {
            pieces, groups := Striped([piece]);
          }
          assert Finer(operand, [piece], groups, pieces, stripe);
        case KvRange(_, _, _, table, offset, count) =>
          var split := KvPieces.SplitKv(table, offset, count);
          AllThere(split.pieces);
          pieces, groups := Striped(split.pieces);
          assert Finer(operand, split.pieces, groups, pieces, stripe);
      }
      Covered(operand, pieces);
    }

    /** Every extent in three parts at most, so that all its whole stripes are together. */
    method Striped(pieces: seq<KvPieces.Piece>) returns (finer: seq<KvPieces.Piece>, ghost groups: seq<seq<KvPieces.Piece>>)
      requires forall k :: 0 <= k < |pieces| ==> pieces[k].bytes > 0
      ensures KvPieces.Expanded(finer) == KvPieces.Expanded(pieces)
      ensures CutAtStripes(pieces, groups, stripe) && finer == Flat(groups)
    {
      hide KvPieces.Expanded, KvPieces.StripeCut;
      finer, groups := [], [];
      KvPieces.ExpandedJoin([], []);
      for n := 0 to |pieces|
        invariant KvPieces.Expanded(finer) == KvPieces.Expanded(pieces[..n])
        invariant CutAtStripes(pieces[..n], groups, stripe) && finer == Flat(groups)
      {
        var parts := KvPieces.SplitStripes(pieces[n].address, pieces[n].bytes, stripe);
        assert pieces[..n + 1] == pieces[..n] + [pieces[n]];
        assert KvPieces.Piece(pieces[n].address, pieces[n].bytes) == pieces[n];
        KvPieces.ExpandedPush(pieces[..n], pieces[n]);
        KvPieces.ExpandedJoin(finer, parts);
        finer := finer + parts;
        assert (groups + [parts])[..|groups|] == groups;
        groups := groups + [parts];
      }
      assert pieces[..|pieces|] == pieces;
    }

    /** The pieces of a memory operation; several are joined by a barrier. */
    method MapAccess(task: nat, operand: Operand, behind: seq<nat>, ghost stage: Stage) returns (image: Image, ghost next: Stage)
      requires Staged(log, fences, stage) && !stage.preparing && Own(behind, stage.start, |log|) && operand.WellFormed()
      modifies this
      ensures Staged(log, fences, next) && Follows(stage, next) && Extends(old(log), log) && fences == old(fences)
      ensures |old(log)| < |log| && image.terminal == |log| - 1 && Did(old(log), log, [])
      ensures Carries(log, image.ids, task, operand, behind) && image.ids != [] && Own(image.ids, |old(log)|, |log|)
      ensures image.terminal in image.ids || log[image.terminal].work.Ready?
      ensures forall q :: q in image.ids ==> q == image.terminal || q in log[image.terminal].dependencies
      ensures Serves(log, |old(log)|, task, image) && TaskMaps.Ends(log, task, image) && image.ids[0] == |old(log)|
      ensures CutAs(log, image.ids, operand, stripe)
    {
      hide Staged, Did, Carries, Operand.WellFormed, Cut, CutAs;
      StagedBegun(log, fences, stage);
      var pieces := Split(operand);
      var ids: seq<nat>;
      ids, next := EmitPieces(task, operand, pieces, behind, stage);
      PiecesWait(log, |old(log)|, ids, task, operand, pieces, behind);
      PiecesCut(log, |old(log)|, ids, task, operand, pieces, behind, stripe);
      image := Image(ids, ids[0]);
      if |ids| > 1 {
        ghost var first := log;
        var id: nat;
        id, next := EmitPlain(Ready(task), ids, next);
        ExtendsTrans(old(log), first, log);
        PiecesKept(first, log, ids, task, operand, behind, stripe);
        DidSilent(old(log), first, log, []);
        image := Image(ids, id);
      }
    }

    method EmitPieces(task: nat, operand: Operand, pieces: seq<KvPieces.Piece>, behind: seq<nat>, ghost stage: Stage)
      returns (ids: seq<nat>, ghost next: Stage)
      requires Staged(log, fences, stage) && !stage.preparing && Own(behind, stage.start, |log|)
      modifies this
      ensures Staged(log, fences, next) && Follows(stage, next) && Extends(old(log), log) && fences == old(fences)
      ensures |log| == |old(log)| + |pieces| && Did(old(log), log, [])
      ensures |ids| == |pieces|
      ensures forall k: nat :: k < |pieces| ==> Piece(log, |old(log)|, ids, task, operand, pieces, k, behind)
    {
      hide Staged, Did;
      ids, next := [], stage;
      DidNothing(log);
      for n := 0 to |pieces|
        invariant Staged(log, fences, next) && Follows(stage, next) && Extends(old(log), log) && fences == old(fences)
        invariant |log| == |old(log)| + n && Did(old(log), log, [])
        invariant |ids| == n && forall k: nat :: k < n ==> Piece(log, |old(log)|, ids, task, operand, pieces, k, behind)
      {
        ghost var first := log;
        var id: nat;
        id, next := EmitPlain(PartOf(task, n, operand, pieces), behind, next);
        PiecesGrow(first, log, |old(log)|, ids, task, operand, pieces, behind, id);
        DidSilent(old(log), first, log, []);
        ids := ids + [id];
        ExtendsTrans(old(log), first, log);
      }
    }

    // -------------------------------------------------------------------- batch

    /** The release barrier, the activation and the migrations of a batch. */
    method Prepare(activation: Activation, moves: seq<Move>, ghost kept: set<nat>) returns (roots: seq<nat>, ghost stage: Stage)
      requires Valid() && fences.Values <= kept
      modifies this
      ensures Staged(log, fences, stage) && Extends(old(log), log)
      ensures stage.start == |old(log)| < |log| && log[stage.start].work.Release?
      ensures stage.kept == kept && stage.preparing && stage.cold == cold && stage.gates == roots
      ensures roots != [] && Own(roots, stage.start, |log|) && stage.targets <= Elements(roots)
      ensures Did(old(log), log, ActivationEffects(activation) + MoveEffects(moves)) && Took(old(log), log, BatchSteps(activation, moves))
    {
      stage := Stage(|log|, kept, {}, [], [], [], [], true, cold);
      FreshStage(log, fences, stage);
      hide Staged, Did, ColdTier.Valid, Ordered, Fenced, Serial, MoveEffects, ChunkEffects, Took, MigrationSteps, ActivationSteps;
      roots, stage := Begin(activation, stage);
      ghost var first := log;
      assert roots[0] in roots;
      roots, stage := Migrate(moves, roots[0], roots, stage);
      ExtendsTrans(old(log), first, log);
      DidMore(old(log), first, log, ActivationEffects(activation), MoveEffects(moves));
      TookMore(old(log), first, log, [Release] + ActivationSteps(activation),
        MigrationSteps(moves) + (if MigrationSteps(moves) == [] then [] else [Swapped]));
    }

    /** The release barrier, and the activation behind it. */
    method Begin(activation: Activation, ghost stage: Stage) returns (roots: seq<nat>, ghost next: Stage)
      requires Staged(log, fences, stage) && stage.preparing && stage.targets == {} && stage.start == |log|
      requires stage.gates == stage.installs == []
      modifies this
      ensures Staged(log, fences, next) && Continues(stage, next) && Extends(old(log), log)
      ensures roots != [] && Own(roots, stage.start, |log|) && next.targets <= Elements(roots)
      ensures next.drained == stage.drained && next.landed == stage.landed && next.gates == roots && roots[0] == stage.start
      ensures stage.start < |log| && log[stage.start].work.Release?
      ensures Did(old(log), log, ActivationEffects(activation)) && Took(old(log), log, [Release] + ActivationSteps(activation))
    {
      hide Staged, Did, ChunkEffects, StrictAt, Took, ChunkSteps;
      var release: nat;
      ReleaseStrict(log, stage.cold);
      release, next := EmitPlain(Release, [], stage);
      roots := [release];
      assert [Release] + [] == [Release];
      if activation.Miss? {
        var barrier: nat;
        ghost var first := log;
        barrier, next := Activate(activation.chunks, release, next);
        ExtendsTrans(old(log), first, log);
        DidLate(old(log), first, log, ChunkEffects(activation.chunks));
        TookMore(old(log), first, log, [Release], ActivationSteps(activation));
        roots := roots + [barrier];
      }
    }

    /** The compiled operations, behind the roots. */
    method MapTasks(tasks: seq<Task>, roots: seq<nat>, ghost stage: Stage) returns (images: seq<Image>)
      requires Staged(log, fences, stage) && stage.preparing && Tasks(tasks) && cold.Valid()
      requires Own(roots, stage.start, |log|) && stage.targets <= Elements(roots) && stage.gates == roots && stage.cold == cold
      modifies this
      ensures Valid() && Extends(old(log), log) && Did(old(log), log, [])
      ensures Strict(log, stage.start, cold) && CutAll(log, tasks, images, stripe) && Laid(images, |old(log)|) && Gates(log, stage.start, roots)
      ensures Local(log, stage.start, stage.kept) && Handed(log, stage.start)
      ensures MappedAll(log, tasks, roots, images) && |images| == |tasks| && Owned(log, stage.start, images)
      ensures Prepared(log, old(log), stage.start, roots) && Ending(images, stage.start, |log|)
      ensures tasks != [] ==> images[|images| - 1].terminal == |log| - 1 && |log| > stage.start
    {
      StartTasks(log, fences, tasks, roots, stage);
      hide Staged, Did, Tasks, MappedAll, Owned, Prepared, Mapped, Serves, Task.WellFormed, Ordered, Fenced, Serial,
        Local, Handed, ColdTier.Valid, Ending, CutAs, CutAll, Laid, Strict, Gates, AllOf, Underway;
      images := [];
      ghost var next := stage.(preparing := false);
      DidNothing(log);
      UnderwayStarts(log, stage.start, tasks, roots, stripe);
      for j := 0 to |tasks|
        invariant Staged(log, fences, next) && Follows(stage.(preparing := false), next) && Extends(old(log), log)
        invariant Did(old(log), log, []) && |images| == j
        invariant Underway(log, old(log), stage.start, tasks, roots, images, stripe)
      {
        ghost var first := log;
        var image: Image;
        TaskReady(tasks, j);
        UnderwayMeans(log, old(log), stage.start, tasks, roots, images, stripe);
        image, next := MapTask(tasks[j], roots, images, next);
        ExtendsTrans(old(log), first, log);
        TaskAdded(first, log, old(log), stage.start, tasks, roots, images, image, stripe);
        DidSilent(old(log), first, log, []);
        images := images + [image];
      }
      UnderwayMeans(log, old(log), stage.start, tasks, roots, images, stripe);
      EndTasks(log, fences, next);
      PreparedGates(log, old(log), fences, next, roots);
    }

    /** Maps one batch.  The transactions keep the compiled order behind the installed weights and the
        moved blocks, touch exactly the bytes of the operations, all but the cold writes are done with
        the last one, every dependency on an earlier batch was retained, and accesses to a cold block
        follow one another over all batches. */
    method MapBatch(tasks: seq<Task>, activation: Activation, moves: seq<Move>) returns (images: seq<Image>, retain: set<nat>)
      requires Valid() && Tasks(tasks) && tasks != [] && AllPrecede(TaskGraph(tasks), |tasks| - 1)
      modifies this
      ensures Valid() && Extends(old(log), log) && retain == fences.Values
      ensures Local(log, |old(log)|, old(fences).Values)
      ensures Batched(log, |old(log)|, tasks, images, ActivationEffects(activation) + MoveEffects(moves))
      ensures Exact(log, |old(log)|, tasks, images, cold, stripe) && Took(old(log), log, BatchSteps(activation, moves))
    {
      ghost var stage: Stage;
      var roots: seq<nat>;
      roots, stage := Prepare(activation, moves, fences.Values);
      hide Staged, Did, Tasks, MappedAll, Owned, Prepared, Mapped, Topological, Plain, Strict, CutAll, Laid, Exact, Gates, Took, BatchSteps;
      StagedPlain(log, fences, stage);
      ghost var prepared := log;
      images := MapTasks(tasks, roots, stage);
      ExtendsTrans(old(log), prepared, log);
      DidSilent(old(log), prepared, log, ActivationEffects(activation) + MoveEffects(moves));
      retain := fences.Values;
      CompiledSilent(prepared, log, stage.start, roots);
      TookSilent(old(log), prepared, log, BatchSteps(activation, moves));
      OrderKept(log, stage.start, tasks, roots, images);
      PreparationFirst(log, prepared, stage.start, tasks, roots, images);
      BatchCompletes(log, prepared, stage.start, tasks, roots, images);
      Phases(log, prepared, stage.start, roots);
      ExactNow(log, prepared, stage.start, tasks, roots, images, cold, stripe);
    }
  }

  /** Exactly the fences of a range of blocks. */
  ghost predicate FencesIn(fences: map<nat, nat>, first: nat, count: nat, ids: seq<nat>)
  {
    forall i: nat :: i in ids <==> exists b: nat :: first <= b < first + count && b in fences && fences[b] == i
  }

  lemma FencesMore(fences: map<nat, nat>, first: nat, n: nat, ids: seq<nat>)
    requires FencesIn(fences, first, n, ids)
    ensures FencesIn(fences, first, n + 1, if first + n in fences then ids + [fences[first + n]] else ids)
  {
    var more := if first + n in fences then ids + [fences[first + n]] else ids;
    forall i: nat ensures i in more <==> exists b: nat :: first <= b < first + n + 1 && b in fences && fences[b] == i {
      if i in more && i !in ids {
        assert fences[first + n] == i;
      }
    }
  }

  lemma FencesKnown(fences: map<nat, nat>, first: nat, count: nat, ids: seq<nat>)
    requires FencesIn(fences, first, count, ids)
    ensures forall b: nat :: first <= b < first + count && b in fences ==> fences[b] in ids
    ensures forall i: nat :: i in ids ==> i in fences.Values
  {
    forall i: nat | i in ids ensures i in fences.Values {
      var b: nat :| first <= b < first + count && b in fences && fences[b] == i;
    }
  }

  /** Some operations of the batch are mapped, one after the other behind what prepares it. */
  ghost predicate Underway(log: Log, prepared: Log, start: nat, tasks: seq<Task>, roots: seq<nat>, images: seq<Image>, stripe: nat)
  {
    && MappedAll(log, tasks, roots, images) && Owned(log, start, images) && Prepared(log, prepared, start, roots)
    && Ending(images, start, |log|) && CutAll(log, tasks, images, stripe) && Laid(images, |prepared|)
    && if images != [] then images[|images| - 1].terminal == |log| - 1 else |log| == |prepared|
  }

  lemma UnderwayStarts(log: Log, start: nat, tasks: seq<Task>, roots: seq<nat>, stripe: nat)
    requires MappedAll(log, tasks, roots, []) && Owned(log, start, []) && Prepared(log, log, start, roots)
    ensures Underway(log, log, start, tasks, roots, [], stripe)
  {
    hide MappedAll, Owned, Prepared;
  }

  lemma UnderwayMeans(log: Log, prepared: Log, start: nat, tasks: seq<Task>, roots: seq<nat>, images: seq<Image>, stripe: nat)
    requires Underway(log, prepared, start, tasks, roots, images, stripe)
    ensures MappedAll(log, tasks, roots, images) && Owned(log, start, images) && Prepared(log, prepared, start, roots)
    ensures Ending(images, start, |log|) && CutAll(log, tasks, images, stripe) && Laid(images, |prepared|)
    ensures images != [] ==> images[|images| - 1].terminal == |log| - 1 && start < |log|
  {
    hide MappedAll, Owned, Prepared, CutAll, Laid;
  }

  lemma TaskAdded(first: Log, log: Log, prepared: Log, start: nat, tasks: seq<Task>, roots: seq<nat>, images: seq<Image>, image: Image, stripe: nat)
    requires Underway(first, prepared, start, tasks, roots, images, stripe) && |images| < |tasks| && Extends(first, log) && |first| < |log|
    requires Mapped(log, |images|, tasks[|images|], roots, images + [image]) && Serves(log, |first|, |images|, image)
    requires Own(image.ids, |first|, |log|) && image.terminal == |log| - 1 && image.ids != [] && image.ids[0] == |first|
    requires tasks[|images|].Memory? ==> CutAs(log, image.ids, tasks[|images|].operand, stripe)
    ensures Underway(log, prepared, start, tasks, roots, images + [image], stripe)
  {
    hide Mapped, MappedAll, Owned, Serves, CutAs, CutAll;
    SameFront(first, log);
    StartBefore(first, prepared, start, roots);
    TaskMapped(first, log, tasks, roots, images, image, start, prepared);
    CutPush(first, log, tasks, images, image, stripe);
    hide Prepared;
    EndsOn(images, image, start, |first|, |log|);
  }

  lemma StartBefore(log: Log, prepared: Log, start: nat, roots: seq<nat>)
    requires Prepared(log, prepared, start, roots)
    ensures start <= |log|
  {
  }

  lemma ExactNow(log: Log, prepared: Log, start: nat, tasks: seq<Task>, roots: seq<nat>, images: seq<Image>, cold: ColdTier, stripe: nat)
    requires Strict(log, start, cold) && CutAll(log, tasks, images, stripe) && Laid(images, |prepared|)
    requires Prepared(log, prepared, start, roots) && Plain(prepared, start) && start < |prepared| && prepared[start].work.Release?
    ensures Exact(log, start, tasks, images, cold, stripe)
  {
    hide Strict, CutAll, Laid, Led;
    assert forall q :: 0 <= q < |prepared| ==> log[q] == log[..|prepared|][q];
    assert forall q: nat :: start <= q < |log| ==> (q < |prepared| <==> !log[q].work.Compiled());
  }

  lemma StagedPlain(log: Log, fences: map<nat, nat>, stage: Stage)
    requires Staged(log, fences, stage) && stage.preparing
    ensures Plain(log, stage.start)
  {
  }

  /** The hot reads and writes so far, and that nothing else leads on but the earlier roots. */
  ghost predicate Journal(stage: Stage, read: seq<nat>, arrived: seq<nat>, bound: set<nat>, end: nat)
  {
    && stage.drained == read && stage.landed == arrived && Own(read, stage.start, end) && Own(arrived, stage.start, end)
    && stage.targets <= bound + Elements(read) + Elements(arrived)
  }

  lemma JournalMeans(stage: Stage, read: seq<nat>, arrived: seq<nat>, bound: set<nat>, end: nat)
    requires Journal(stage, read, arrived, bound, end)
    ensures stage.drained == read && stage.landed == arrived && Own(read + arrived, stage.start, end)
    ensures stage.targets <= bound + Elements(read + arrived)
  {
  }

  lemma EmptyJournal(stage: Stage, roots: seq<nat>, end: nat)
    requires stage.drained == stage.landed == [] && stage.targets <= Elements(roots)
    ensures Journal(stage, [], [], Elements(roots), end)
  {
  }

  lemma JournalRead(was: Stage, next: Stage, read: seq<nat>, arrived: seq<nat>, bound: set<nat>, end: nat, newEnd: nat, id: nat)
    requires Journal(was, read, arrived, bound, end) && Follows(was, next) && end <= newEnd
    requires next.targets <= was.targets + {id} && next.drained == was.drained + [id] && next.landed == was.landed && was.start <= id < newEnd
    ensures Journal(next, read + [id], arrived, bound, newEnd)
  {
  }

  lemma JournalWrite(was: Stage, next: Stage, read: seq<nat>, arrived: seq<nat>, bound: set<nat>, end: nat, newEnd: nat, id: nat)
    requires Journal(was, read, arrived, bound, end) && Follows(was, next) && end <= newEnd
    requires next.targets <= was.targets + {id} && next.drained == was.drained && next.landed == was.landed + [id] && was.start <= id < newEnd
    ensures Journal(next, read, arrived + [id], bound, newEnd)
  {
  }

  lemma FreshStage(log: Log, fences: map<nat, nat>, stage: Stage)
    requires Ordered(log) && Fenced(log, fences) && Serial(log) && fences.Values <= stage.kept
    requires stage.start == |log| && stage.targets == {} && stage.drained == stage.landed == stage.installs == stage.gates == []
    ensures Staged(log, fences, stage)
  {
  }

  lemma ReleaseStrict(log: Log, cold: ColdTier)
    ensures StrictAt(log + [Transaction(Release, Distinct([]))], |log|, cold, |log|)
  {
  }

  /** Piece k of an operation, and what it waits for. */
  ghost predicate Piece(log: Log, start: nat, ids: seq<nat>, task: nat, operand: Operand, pieces: seq<KvPieces.Piece>, k: nat,
                        behind: seq<nat>)
    requires k < |ids|
  {
    && k < |pieces| && ids[k] == start + k < |log| && log[ids[k]].work == PartOf(task, k, operand, pieces)
    && forall d :: d in behind <==> d in log[ids[k]].dependencies
  }

  lemma PiecesGrow(first: Log, log: Log, start: nat, ids: seq<nat>, task: nat, operand: Operand, pieces: seq<KvPieces.Piece>,
                   behind: seq<nat>, id: nat)
    requires |ids| + start == |first| == id && |log| == id + 1 && log[..id] == first && |ids| < |pieces|
    requires log[id].work == PartOf(task, |ids|, operand, pieces) && forall d :: d in behind <==> d in log[id].dependencies
    requires forall k: nat :: k < |ids| ==> Piece(first, start, ids, task, operand, pieces, k, behind)
    ensures forall k: nat :: k < |ids| + 1 ==> Piece(log, start, ids + [id], task, operand, pieces, k, behind)
  {
    forall k: nat | k < |ids| + 1 ensures Piece(log, start, ids + [id], task, operand, pieces, k, behind) {
      if k < |ids| {
        assert Piece(first, start, ids, task, operand, pieces, k, behind);
        assert log[ids[k]] == log[..id][ids[k]];
      }
    }
  }

  /** The transactions `ids` carry out an operation behind others. */
  ghost predicate Carries(log: Log, ids: seq<nat>, task: nat, operand: Operand, behind: seq<nat>)
  {
    && (forall q :: q in ids ==> q < |log|) && (forall q, d :: q in ids ==> (d in behind <==> d in log[q].dependencies))
    && Carried(log, task, ids, operand)
  }

  lemma PiecesWait(log: Log, start: nat, ids: seq<nat>, task: nat, operand: Operand, pieces: seq<KvPieces.Piece>, behind: seq<nat>)
    requires operand.WellFormed() && KvPieces.Expanded(pieces) == operand.Addresses() && |ids| == |pieces|
    requires forall k: nat :: k < |ids| ==> Piece(log, start, ids, task, operand, pieces, k, behind)
    requires |log| == start + |ids|
    ensures Carries(log, ids, task, operand, behind) && Own(ids, start, |log|) && (ids != [] ==> ids[0] == start)
    ensures Serves(log, start, task, Image(ids, if ids == [] then 0 else ids[0]))
  {
    hide Operand.WellFormed, KvPieces.Expanded;
    if ids != [] {
      assert Piece(log, start, ids, task, operand, pieces, 0, behind);
    }
    forall q | q in ids ensures start <= q < |log| && forall d :: d in behind <==> d in log[q].dependencies {
      var k: nat :| k < |ids| && ids[k] == q;
      assert Piece(log, start, ids, task, operand, pieces, k, behind);
    }
    forall k: nat | k < |ids| ensures ids[k] < |log| && log[ids[k]].work == PartOf(task, k, operand, pieces) {
      assert Piece(log, start, ids, task, operand, pieces, k, behind);
    }
    assert CarriedAs(log, task, ids, operand, pieces);
    forall q: nat | start <= q < |log| ensures log[q].work.Compiled() && log[q].work.task == task && q in ids {
      assert Piece(log, start, ids, task, operand, pieces, q - start, behind);
      assert ids[q - start] == q;
    }
  }

  lemma PiecesCut(log: Log, start: nat, ids: seq<nat>, task: nat, operand: Operand, pieces: seq<KvPieces.Piece>, behind: seq<nat>, stripe: nat)
    requires operand.WellFormed() && Cut(operand, pieces, stripe) && |ids| == |pieces|
    requires forall k: nat :: k < |ids| ==> Piece(log, start, ids, task, operand, pieces, k, behind)
    ensures CutAs(log, ids, operand, stripe) && forall k :: 0 <= k < |ids| ==> ids[k] == start + k
  {
    hide Cut, Operand.WellFormed;
    forall k: nat | k < |ids| ensures ids[k] == start + k < |log| && log[ids[k]].work.Access? && log[ids[k]].work.piece == pieces[k] {
      assert Piece(log, start, ids, task, operand, pieces, k, behind);
    }
    assert seq(|ids|, k requires 0 <= k < |ids| && ids[k] < |log| && log[ids[k]].work.Access? => log[ids[k]].work.piece) == pieces;
  }

  lemma PiecesKept(first: Log, log: Log, ids: seq<nat>, task: nat, operand: Operand, behind: seq<nat>, stripe: nat)
    requires Carries(first, ids, task, operand, behind) && Extends(first, log) && CutAs(first, ids, operand, stripe)
    ensures Carries(log, ids, task, operand, behind) && CutAs(log, ids, operand, stripe)
  {
    hide CutAs, Carried;
    forall q | 0 <= q < |first| ensures log[q] == first[q] {
      assert log[..|first|][q] == log[q];
    }
    CarriedGrows(first, log, task, ids, operand);
    CutKept(first, log, ids, operand, stripe);
  }

  lemma AllThere(pieces: seq<KvPieces.Piece>)
    requires KvPieces.Separate(pieces)
    ensures forall k :: 0 <= k < |pieces| ==> pieces[k].bytes > 0
  {
  }

  /** A covered operation has at least one piece. */
  lemma Covered(operand: Operand, pieces: seq<KvPieces.Piece>)
    requires operand.WellFormed() && KvPieces.Expanded(pieces) == operand.Addresses()
    ensures pieces != []
  {
    assert |operand.Addresses()| > 0;
  }

  /** The transactions that stand for the ends of the dependencies. */
  function EndsOf(dependencies: seq<nat>, images: seq<Image>): (ends: seq<nat>)
    requires forall d :: d in dependencies ==> d < |images|
    ensures forall d :: d in dependencies ==> images[d].terminal in ends
    ensures forall e :: e in ends ==> exists d :: d in dependencies && e == images[d].terminal
    ensures ends == [] <==> dependencies == []
  {
    if dependencies == [] then []
    else
      var n := |dependencies| - 1;
      assert dependencies == dependencies[..n] + [dependencies[n]];
      assert dependencies[n] in dependencies;
      assert forall d :: d in dependencies[..n] ==> d in dependencies;
      EndsOf(dependencies[..n], images) + [images[dependencies[n]].terminal]
  }

  lemma EndsOn(images: seq<Image>, image: Image, start: nat, end: nat, newEnd: nat)
    requires Ending(images, start, end) && start <= end <= image.terminal < newEnd && Own(image.ids, end, newEnd)
    ensures Ending(images + [image], start, newEnd)
  {
  }

  /** From `start` on, the log carries out one operation. */
  ghost predicate Serves(log: Log, start: nat, j: nat, image: Image)
  {
    forall q: nat :: start <= q < |log| ==>
      log[q].work.Compiled() && log[q].work.task == j && (q in image.ids || q == image.terminal)
  }

  lemma AccessMapped(log: Log, task: Task, roots: seq<nat>, images: seq<Image>, image: Image, behind: seq<nat>)
    requires task.Memory? && BehindAll(task, roots, images, behind)
    requires Carries(log, image.ids, |images|, task.operand, behind) && image.ids != [] && image.terminal == |log| - 1
    requires |log| > 0 && TaskMaps.Ends(log, |images|, image) && (image.terminal in image.ids || log[image.terminal].work.Ready?)
    requires forall q :: q in image.ids ==> q == image.terminal || q in log[image.terminal].dependencies
    ensures Mapped(log, |images|, task, roots, images + [image])
  {
    var all := images + [image];
    assert all[|images|] == image;
    forall q | q in image.ids ensures q <= image.terminal && Waits(log, q, task, roots, all) {
      WaitsBehind(log, q, task, roots, images, image, behind);
    }
  }

  /** The roots, or exactly the ends of the operation's dependencies. */
  ghost predicate BehindAll(task: Task, roots: seq<nat>, images: seq<Image>, behind: seq<nat>)
  {
    && (forall d :: d in task.dependencies ==> d < |images|)
    && if task.dependencies == [] then behind == roots else forall p: nat :: p in behind <==> EndsOne(task, images, p)
  }

  lemma EndsOwn(task: Task, roots: seq<nat>, images: seq<Image>, start: nat, end: nat)
    requires forall d :: d in task.dependencies ==> d < |images|
    requires Own(roots, start, end) && Ending(images, start, end)
    ensures var ends := EndsOf(task.dependencies, images); Own(if ends == [] then roots else ends, start, end)
  {
  }

  lemma EndsBehind(task: Task, roots: seq<nat>, images: seq<Image>)
    requires forall d :: d in task.dependencies ==> d < |images|
    ensures var ends := EndsOf(task.dependencies, images); BehindAll(task, roots, images, if ends == [] then roots else ends)
  {
    var ends := EndsOf(task.dependencies, images);
    forall p: nat ensures p in ends <==> EndsOne(task, images, p) {
    }
  }

  lemma WaitsBehind(log: Log, q: nat, task: Task, roots: seq<nat>, images: seq<Image>, image: Image, behind: seq<nat>)
    requires q < |log| && BehindAll(task, roots, images, behind) && forall d: nat :: d in behind <==> d in log[q].dependencies
    ensures Waits(log, q, task, roots, images + [image])
  {
    assert Waits(log, q, task, roots, images);
    WaitsGrows(log, log, q, task, roots, images, [image]);
  }

  lemma SyncMapped(log: Log, task: Task, roots: seq<nat>, images: seq<Image>, image: Image, behind: seq<nat>)
    requires task.Sync? && BehindAll(task, roots, images, behind)
    requires |log| > 0 && image == Image([|log| - 1], |log| - 1) && log[|log| - 1].work == Ready(|images|)
    requires forall d: nat :: d in behind <==> d in log[|log| - 1].dependencies
    ensures Mapped(log, |images|, task, roots, images + [image])
    ensures Serves(log, |log| - 1, |images|, image)
  {
    var all := images + [image];
    assert all[|images|] == image;
    WaitsBehind(log, |log| - 1, task, roots, images, image, behind);
  }

  lemma StartTasks(log: Log, fences: map<nat, nat>, tasks: seq<Task>, roots: seq<nat>, stage: Stage)
    requires Staged(log, fences, stage) && stage.preparing
    requires Own(roots, stage.start, |log|) && stage.targets <= Elements(roots)
    ensures Staged(log, fences, stage.(preparing := false))
    ensures MappedAll(log, tasks, roots, []) && Owned(log, stage.start, [])
    ensures Prepared(log, log, stage.start, roots)
  {
    hide Before, Fenced, Serial, Handed, Local;
    assert log[..|log|] == log;
    forall i: nat | stage.start <= i < |log| && !log[i].work.Aside() ensures Leads(log, i, Elements(roots)) {
      assert Leads(log, i, stage.targets);
    }
  }

  lemma TaskReady(tasks: seq<Task>, j: nat)
    requires Tasks(tasks) && j < |tasks|
    ensures tasks[j].WellFormed() && forall d :: d in tasks[j].dependencies ==> d < j
  {
    assert TaskGraph(tasks)[j] == tasks[j].dependencies;
  }

  lemma TaskMapped(first: Log, log: Log, tasks: seq<Task>, roots: seq<nat>, images: seq<Image>, image: Image, start: nat, prepared: Log)
    requires Extends(first, log) && |images| < |tasks| && MappedAll(first, tasks, roots, images) && Owned(first, start, images)
    requires Mapped(log, |images|, tasks[|images|], roots, images + [image])
    requires Serves(log, |first|, |images|, image) && Prepared(first, prepared, start, roots)
    ensures MappedAll(log, tasks, roots, images + [image]) && Owned(log, start, images + [image])
    ensures Prepared(log, prepared, start, roots)
  {
    hide Mapped, Before, Leads;
    assert log == first + log[|first|..];
    MappedPush(first, log[|first|..], tasks, roots, images, image);
    assert log[..|prepared|] == first[..|prepared|];
    forall q: nat | start <= q < |log| && log[q].work.Compiled() ensures OwnedBy(images + [image], q, log[q].work.task) {
      if q < |first| {
        assert log[q] == first[q];
        assert OwnedBy(images, q, first[q].work.task);
      }
    }
    forall q | |prepared| <= q < |log| ensures log[q].work.Compiled() {
      if q < |first| {
        assert log[q] == first[q];
      }
    }
  }

  lemma StagedBegun(log: Log, fences: map<nat, nat>, stage: Stage)
    requires Staged(log, fences, stage)
    ensures stage.start <= |log|
  {
  }

  lemma EndTasks(log: Log, fences: map<nat, nat>, stage: Stage)
    requires Staged(log, fences, stage)
    ensures Ordered(log) && Fenced(log, fences) && Serial(log) && Local(log, stage.start, stage.kept) && Handed(log, stage.start)
    ensures stage.start <= |log| && Strict(log, stage.start, stage.cold)
  {
  }

  lemma SameFront(before: Log, log: Log)
    requires Extends(before, log)
    ensures forall q :: 0 <= q < |before| ==> log[q] == before[q]
  {
    forall q | 0 <= q < |before| ensures log[q] == before[q] {
      assert log[..|before|][q] == log[q];
    }
  }

  lemma PreparedGates(log: Log, prepared: Log, fences: map<nat, nat>, stage: Stage, roots: seq<nat>)
    requires Staged(log, fences, stage) && stage.gates == roots
    ensures Gates(log, stage.start, roots)
  {
  }

  lemma PlainAllowed(log: Log, fences: map<nat, nat>, stage: Stage, work: Work, dependencies: seq<nat>)
    requires Staged(log, fences, stage) && Own(dependencies, stage.start, |log|)
    requires work.Release? || work.Fetch? || work.Installed? || work.Link? || work.Swapped? || (work.Compiled() && !stage.preparing)
    requires StrictAt(log + [Transaction(work, Distinct(dependencies))], stage.start, stage.cold, |log|)
    ensures Allowed(log, fences, stage, Transaction(work, Distinct(dependencies)))
  {
    hide StrictAt, Strict, Noting;
  }

  lemma BeforeInstall(log: Log, fences: map<nat, nat>, stage: Stage, n: nat, fetched: nat)
    requires Staged(log, fences, stage) && stage.start <= fetched < |log| && log[fetched].work == Fetch(n) && fetched + 1 == |log|
    ensures Allowed(log, fences, stage, Transaction(Install(n), Distinct([fetched])))
  {
    hide Strict, StrictAt, Noting, Led, Handed, Local, Serial, Before, Fenced;
    var t := Transaction(Install(n), Distinct([fetched]));
    DistinctOne(fetched);
    BeforeDirect(log + [t], fetched, |log|);
    assert (log + [t])[fetched] == log[fetched];
    assert Fed(log + [t], stage.start, |log|, Fetch(n));
    InstallStrict(log, stage.start, stage.cold, n, fetched);
  }

  lemma InstallStrict(log: Log, start: nat, cold: ColdTier, n: nat, fetched: nat)
    requires start <= fetched && log != [] && fetched + 1 == |log| && log[fetched].work == Fetch(n)
    ensures StrictAt(log + [Transaction(Install(n), Distinct([fetched]))], start, cold, |log|)
  {
    DistinctOne(fetched);
  }

  lemma ReadAllowed(log: Log, fences: map<nat, nat>, stage: Stage, run: Run, release: nat)
    requires Staged(log, fences, stage) && release == stage.start < |log|
    ensures Allowed(log, fences, stage, Transaction(HotRead(run), Distinct([release])))
  {
    DistinctOne(release);
    hide Strict;
  }

  lemma DistinctOne(d: nat)
    ensures Distinct([d]) == [d]
  {
    assert [d][..0] == [];
  }

  lemma FetchStrict(log: Log, start: nat, cold: ColdTier, n: nat, release: nat)
    requires release == start
    ensures StrictAt(log + [Transaction(Fetch(n), Distinct([release]))], start, cold, |log|)
  {
    DistinctOne(release);
  }

  lemma InstalledStrict(log: Log, fences: map<nat, nat>, stage: Stage)
    requires Staged(log, fences, stage)
    ensures StrictAt(log + [Transaction(Installed, Distinct(stage.installs))], stage.start, stage.cold, |log|)
  {
    hide Strict, Led, Handed, Ordered, Fenced, Serial, Local;
    var longer := log + [Transaction(Installed, Distinct(stage.installs))];
    assert forall m: nat :: m < |log| ==> longer[m] == log[m];
  }

  lemma SwappedStrict(log: Log, fences: map<nat, nat>, stage: Stage)
    requires Staged(log, fences, stage)
    ensures StrictAt(log + [Transaction(Swapped, Distinct(stage.drained + stage.landed))], stage.start, stage.cold, |log|)
  {
    hide Strict, Led, Handed, Ordered, Fenced, Serial, Local;
    var longer := log + [Transaction(Swapped, Distinct(stage.drained + stage.landed))];
    assert forall m: nat :: m < |log| ==> longer[m] == log[m];
  }

  lemma LinkStrict(log: Log, before: Log, start: nat, cold: ColdTier, outward: bool, counts: seq<nat>, stack: nat, dependency: nat)
    requires Extends(before, log) && start <= dependency && dependency + 1 == |before| && stack < |counts|
    requires if outward then before[dependency].work.HotRead? else before[dependency].work.ColdRead?
    requires WorksBetween(log, |before|, |log|) == LinkWorks(outward, counts[..stack])
    ensures StrictAt(log + [Transaction(Link(outward, stack, counts[stack]), Distinct([dependency]))], start, cold, |log|)
  {
    DistinctOne(dependency);
    LinksOnly(log, |before|, outward, counts[..stack]);
    var longer := log + [Transaction(Link(outward, stack, counts[stack]), Distinct([dependency]))];
    assert forall m: nat :: m < |log| ==> longer[m] == log[m];
    assert log[dependency] == log[..|before|][dependency];
  }

  /** The links behind a read carry its run. */
  lemma CarriedOver(log: Log, read: nat, outward: bool, block: nat, count: nat, cold: ColdTier, counts: seq<nat>)
    requires read < |log| && cold.Hbf? && cold.Valid()
    requires Histogram(cold.geometry, cold.begin + Scaled(block, cold.blockBytes), Scaled(count, cold.blockBytes), counts)
    requires WorksBetween(log, read + 1, |log|) == LinkWorks(outward, counts)
    ensures Carriage(log, read, |log|, outward, block, count, cold)
  {
    hide Histogram;
  }

  /** A transaction that takes the data of an earlier one of the batch, directly or over links. */
  lemma TakenFrom(log: Log, t: Transaction, start: nat, r: nat, l: nat)
    requires start <= r < |log| && l < |log| && Before(log, r, l) && l in t.dependencies && OnlyLinks(log, r + 1)
    ensures Taken(log + [t], start, |log|, r, log[r].work)
  {
    BeforeGrows(log, [t], r, l);
    BeforeVia(log + [t], r, l, |log|);
    assert forall m: nat :: m < |log| ==> (log + [t])[m] == log[m];
  }

  lemma WriteAllowed(log: Log, fences: map<nat, nat>, stage: Stage, run: Run, read: nat, links: seq<nat>, fenced: seq<nat>)
    requires Staged(log, fences, stage) && stage.start <= read < |log| && log[read].work == HotRead(run)
    requires links != [] && Own(links, stage.start, |log|) && forall l :: l in links ==> Before(log, read, l)
    requires FencesIn(fences, run.target, run.count, fenced) && OnlyLinks(log, read + 1)
    requires Carriage(log, read, |log|, true, run.target, run.count, stage.cold)
    requires forall l: nat :: l in links <==> Arrives(read, |log|, l, stage.cold)
    ensures Allowed(log, fences, stage, Transaction(ColdWrite(run, read), Distinct(links + fenced)))
  {
    hide Before, Led, Handed, Local, Serial, Ordered, Strict, StrictAt, FencesIn, Fenced, Noting, Plain, Carriage, Arrives, OnlyLinks;
    var t := Transaction(ColdWrite(run, read), Distinct(links + fenced));
    Within(log, fences, stage, run.target, run.count, links, fenced);
    hide Own, FencesLocal, Distinct, Taken;
    assert links[0] in links && links[0] in t.dependencies;
    TakenFrom(log, t, stage.start, read, links[0]);
    WriteStrict(log, fences, stage.start, stage.cold, run, read, links, fenced);
  }

  /** Transactions of the batch and the fences of some blocks: all there, and retained if older. */
  lemma Within(log: Log, fences: map<nat, nat>, stage: Stage, first: nat, count: nat, ids: seq<nat>, fenced: seq<nat>)
    requires Fenced(log, fences) && FencesLocal(fences, stage.start, stage.kept)
    requires Own(ids, stage.start, |log|) && FencesIn(fences, first, count, fenced)
    ensures forall d :: d in Distinct(ids + fenced) ==> d < |log| && (d < stage.start ==> d in stage.kept)
    ensures forall b: nat :: first <= b < first + count && b in fences ==> fences[b] in Distinct(ids + fenced)
  {
    FencesKnown(fences, first, count, fenced);
  }

  lemma WriteStrict(log: Log, fences: map<nat, nat>, start: nat, cold: ColdTier, run: Run, read: nat, links: seq<nat>, fenced: seq<nat>)
    requires Fenced(log, fences) && start <= read < |log| && log[read].work == HotRead(run)
    requires FencesIn(fences, run.target, run.count, fenced) && Carriage(log, read, |log|, true, run.target, run.count, cold)
    requires forall l: nat :: l in links <==> Arrives(read, |log|, l, cold)
    ensures StrictAt(log + [Transaction(ColdWrite(run, read), Distinct(links + fenced))], start, cold, |log|)
  {
    var t := Transaction(ColdWrite(run, read), Distinct(links + fenced));
    FencesLatest(log, fences, run.target, run.count);
    FencesGrow(log, t, |log|, run.target, run.count);
    CarriageGrows(log, t, read, |log|, true, run.target, run.count, cold);
    hide Fenced, Carriage, FencedBy, Arrives;
    assert (log + [t])[read] == log[read];
  }

  lemma FetchAllowed(log: Log, fences: map<nat, nat>, stage: Stage, run: Run, release: nat, fenced: seq<nat>)
    requires Staged(log, fences, stage) && release == stage.start < |log| && FencesIn(fences, run.source, run.count, fenced)
    ensures Allowed(log, fences, stage, Transaction(ColdRead(run), Distinct([release] + stage.drained + fenced)))
  {
    hide Before, Led, Handed, Local, Serial, Ordered, Strict, StrictAt, FencesIn;
    FencesKnown(fences, run.source, run.count, fenced);
    ReadStrict(log, fences, stage, run, release, fenced);
  }

  lemma ReadStrict(log: Log, fences: map<nat, nat>, stage: Stage, run: Run, release: nat, fenced: seq<nat>)
    requires Fenced(log, fences) && Noting(log, stage) && release == stage.start < |log| && FencesIn(fences, run.source, run.count, fenced)
    ensures StrictAt(log + [Transaction(ColdRead(run), Distinct([release] + stage.drained + fenced))], stage.start, stage.cold, |log|)
  {
    var t := Transaction(ColdRead(run), Distinct([release] + stage.drained + fenced));
    FencesLatest(log, fences, run.source, run.count);
    FencesGrow(log, t, |log|, run.source, run.count);
    hide Fenced, FencedBy;
    assert forall m: nat :: m < |log| ==> (log + [t])[m] == log[m];
  }

  lemma ArrivalAllowed(log: Log, fences: map<nat, nat>, stage: Stage, run: Run, read: nat, arrivals: seq<nat>)
    requires Staged(log, fences, stage) && stage.start <= read < |log| && log[read].work == ColdRead(run)
    requires arrivals != [] && Own(arrivals, stage.start, |log|) && forall l :: l in arrivals ==> Before(log, read, l)
    requires OnlyLinks(log, read + 1) && Carriage(log, read, |log|, false, run.source, run.count, stage.cold)
    requires forall l: nat :: l in arrivals <==> Arrives(read, |log|, l, stage.cold)
    ensures Allowed(log, fences, stage, Transaction(HotWrite(run, read), Distinct(arrivals)))
  {
    hide Before, Led, Handed, Local, Serial, Ordered, Strict, StrictAt;
    var t := Transaction(HotWrite(run, read), Distinct(arrivals));
    assert arrivals[0] in arrivals && arrivals[0] in t.dependencies;
    TakenFrom(log, t, stage.start, read, arrivals[0]);
    ArrivalStrict(log, stage.start, stage.cold, run, read, arrivals);
  }

  lemma ArrivalStrict(log: Log, start: nat, cold: ColdTier, run: Run, read: nat, arrivals: seq<nat>)
    requires start <= read < |log| && log[read].work == ColdRead(run) && Carriage(log, read, |log|, false, run.source, run.count, cold)
    requires forall l: nat :: l in arrivals <==> Arrives(read, |log|, l, cold)
    ensures StrictAt(log + [Transaction(HotWrite(run, read), Distinct(arrivals))], start, cold, |log|)
  {
    var t := Transaction(HotWrite(run, read), Distinct(arrivals));
    CarriageGrows(log, t, read, |log|, false, run.source, run.count, cold);
    hide Carriage, Arrives;
    assert (log + [t])[read] == log[read];
  }

  /** Order among old transactions survives. */
  lemma AllGrow(before: Log, after: Log, d: nat, ids: seq<nat>)
    requires Extends(before, after) && (forall l :: l in ids ==> l < |before|) && forall l :: l in ids ==> Before(before, d, l)
    ensures forall l :: l in ids ==> Before(after, d, l)
  {
    hide Before;
    assert after == before + after[|before|..];
    forall l | l in ids ensures Before(after, d, l) {
      BeforeGrows(before, after[|before|..], d, l);
    }
  }

  /** Runs of whole blocks lie on whole pages. */
  lemma RunAligned(cold: ColdTier, block: nat, count: nat)
    requires cold.Hbf? && cold.Valid() && count > 0
    ensures Aligned(cold.begin + Scaled(block, cold.blockBytes), cold.geometry.pageSize)
    ensures Aligned(Scaled(count, cold.blockBytes), cold.geometry.pageSize) && Scaled(count, cold.blockBytes) > 0
  {
    var page, bytes := cold.geometry.pageSize, cold.blockBytes;
    Multiple(block, bytes, page);
    Multiple(count, bytes, page);
    ModAdd(cold.begin, Scaled(block, bytes), page);
    assert count * bytes >= bytes;
  }

  lemma Multiple(n: nat, x: nat, page: nat)
    requires page > 0 && x % page == 0
    ensures Scaled(n, x) % page == 0
  {
    var k := x / page;
    assert x == k * page;
    assert n * x == (n * k) * page + 0;
    DivModUnique(n * x, page, n * k, 0);
  }

  lemma StackCount(g: Geometry, address: nat, n: nat, counts: seq<nat>)
    requires g.Valid() && Histogram(g, address, n, counts)
    ensures |counts| == g.stacks
  {
  }
}
