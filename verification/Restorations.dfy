/** Why restoring a checkpoint succeeds: the replay of a run without preemption writes to the same
    addresses, so it builds up the segments that were committed.
 */
module Restorations {
  import opened PrefixKeys
  import opened PlacementSpec
  import opened PlacementInvariant
  import opened PlacementRuns
  import opened KvRuns
  import opened LeanPlane
  import opened Replays
  import opened ReplayRuns
  import opened Projections
  import opened Machines
  import opened KvTraffic
  import KvMemory
  import KvRefinement
  import TaskMaps
  import KvPieces

  /** A batch as it is mapped: its slices, and the block tables at that time. */
  datatype Batch = Batch(slices: seq<Slice>, kv: map<nat, RequestKv>)

  ghost function BatchesOf(opening: World, actions: seq<Action>, cfg: Config): seq<Batch>
    requires cfg.Valid()
    decreases |actions|
  {
    if actions == [] then []
    else
      var front := actions[..|actions| - 1];
      BatchesOf(opening, front, cfg)
      + (if actions[|actions| - 1].Executes? && Play(opening, front, cfg).Some?
         then [Batch(Play(opening, front, cfg).value.reserved, Play(opening, front, cfg).value.s.kv)] else [])
  }

  /** The plane when the replay maps a batch. */
  ghost function ReplayedAt(s: State, commit: Commit, catalog: nat -> Request, now: nat, cfg: Config): map<nat, RequestKv>
    requires cfg.Valid() && Named(catalog)
  {
    match AdmitNamed(s, Ids(commit.slices), catalog, now, cfg)
    case None => map[]
    case Some(admitted) =>
      match Reserve(admitted, commit.batch, commit.slices, cfg)
      case None => map[]
      case Some(t) => t.kv
  }

  ghost function ReplayedBatches(s: State, log: seq<Commit>, catalog: nat -> Request, now: nat, cfg: Config): seq<Batch>
    requires cfg.Valid() && Named(catalog)
  {
    if log == [] then []
    else
      var front, last := log[..|log| - 1], log[|log| - 1];
      ReplayedBatches(s, front, catalog, now, cfg)
      + (match Replayed(s, front, catalog, now, cfg)
         case None => []
         case Some(before) => [Batch(last.slices, ReplayedAt(before, last, catalog, now, cfg))])
  }

  ghost predicate SameBatch(a: Batch, b: Batch)
  {
    b.slices == a.slices && b.kv.Keys == a.kv.Keys && forall id :: id in a.kv ==> SameKv(a.kv[id], b.kv[id])
  }

  ghost predicate SameBatches(a: seq<Batch>, b: seq<Batch>)
  {
    |a| == |b| && forall k :: 0 <= k < |a| ==> SameBatch(a[k], b[k])
  }

  /** When a batch is mapped, the replay has the run's tables. */
  lemma ExecutesSame(w: World, r: State, late: seq<nat>, catalog: nat -> Request, now: nat, cfg: Config)
    requires Lean(cfg) && Named(catalog) && Tracks(w, r, late, catalog, cfg) && w.reserved != [] && w.arriving == {}
    ensures SameBatch(Batch(w.reserved, ReplayedAt(r, CommitOf(w), catalog, now, cfg)), Batch(w.reserved, w.s.kv))
  {
    hide Inv, Reserve, Resting;
    HasFirst(late);
    assert Ids(w.reserved) + [] == Ids(w.reserved);
    NamedAdmits(r, Ids(w.reserved), catalog, now, cfg);
  }

  lemma SameBatchesPush(a: seq<Batch>, b: seq<Batch>, x: Batch, y: Batch)
    requires SameBatches(a, b) && SameBatch(x, y)
    ensures SameBatches(a + [x], b + [y])
  {
    hide SameBatch;
  }

  /** Batch by batch, the replay maps what the run has mapped. */
  lemma {:induction false} ReplayMaps(hotBlocks: nat, coldBlocks: nat, mems: KvMemory.Mems, actions: seq<Action>, catalog: nat -> Request, now: nat,
                                      cfg: Config)
    requires Lean(cfg) && Named(catalog)
    requires Play(Opening(hotBlocks, coldBlocks, mems), actions, cfg).Some? && Steady(Opening(hotBlocks, coldBlocks, mems), actions, catalog, cfg)
    ensures var opening := Opening(hotBlocks, coldBlocks, mems);
      SameBatches(ReplayedBatches(Start(hotBlocks, coldBlocks), LogOf(opening, actions, cfg), catalog, now, cfg), BatchesOf(opening, actions, cfg))
    decreases |actions|
  {
    hide Act, Play, Tracks, Opening, SameBatch, SameBatches, ReplayedAt, KvRuns.Sound;
    var opening := Opening(hotBlocks, coldBlocks, mems);
    if actions == [] {
      NoBatches();
    } else {
      var front, last := actions[..|actions| - 1], actions[|actions| - 1];
      PlayLast(opening, actions, cfg);
      ReplayMaps(hotBlocks, coldBlocks, mems, front, catalog, now, cfg);
      if last.Executes? {
        var w := Play(opening, front, cfg).value;
        var r, late := TrackRun(hotBlocks, coldBlocks, mems, front, catalog, now, cfg);
        ExecutesQuietly(w, last, cfg);
        ExecutesSame(w, r, late, catalog, now, cfg);
        var log := LogOf(opening, front, cfg);
        assert (log + [CommitOf(w)])[..|log|] == log;
        SameBatchesPush(ReplayedBatches(Start(hotBlocks, coldBlocks), log, catalog, now, cfg), BatchesOf(opening, front, cfg),
                        Batch(w.reserved, ReplayedAt(r, CommitOf(w), catalog, now, cfg)), Batch(w.reserved, w.s.kv));
      } else {
        assert LogOf(opening, front, cfg) + [] == LogOf(opening, front, cfg);
        assert BatchesOf(opening, front, cfg) + [] == BatchesOf(opening, front, cfg);
      }
    }
  }

  lemma NoBatches()
    ensures SameBatches([], [])
  {
  }

  lemma ExecutesQuietly(w: World, action: Action, cfg: Config)
    requires cfg.Valid() && action.Executes? && Act(w, action, cfg).Some?
    ensures w.arriving == {}
  {
    hide Complete, KvRefinement.Future;
  }

  // --------------------------------------------------------------------- writes

  /** Layer by layer, the rows of a batch. */
  function Order(rows: nat, layers: nat): (order: seq<(nat, nat)>)
    ensures forall k :: 0 <= k < |order| ==> order[k].0 < rows && order[k].1 < layers
  {
    if layers == 0 then []
    else Order(rows, layers - 1) + seq(rows, r requires 0 <= r < rows => (r, layers - 1))
  }

  /** The write appends row i of the batch to a layer: these bytes of this object, at the addresses that
      the block table gives them. */
  ghost predicate Projects(write: Write, batch: Batch, i: nat, layer: nat, name: (nat, nat) -> nat, blockTokens: nat, arena: Arena)
  {
    && i < |batch.slices| && batch.slices[i].request in batch.kv && write.WellFormed()
    && var slice, st := batch.slices[i], batch.kv[batch.slices[i].request];
       var operand := AppendOf(st, slice, layer, blockTokens, arena);
       && operand.WellFormed() && write.item == name(slice.request, layer) && write.offset == operand.offset
       && KvPieces.Expanded(write.pieces) == operand.Addresses()
  }

  /** A batch is of one model. */
  ghost function LayersOf(batch: Batch): nat
  {
    if batch.slices != [] && batch.slices[0].request in batch.kv then batch.kv[batch.slices[0].request].request.model.layers else 0
  }

  /** All appends of a batch, in the order in which they are compiled. */
  ghost predicate ProjectsBatch(writes: seq<Write>, batch: Batch, name: (nat, nat) -> nat, blockTokens: nat, arena: Arena)
  {
    var order := Order(|batch.slices|, LayersOf(batch));
    |writes| == |order| && forall k :: 0 <= k < |writes| ==> Projects(writes[k], batch, order[k].0, order[k].1, name, blockTokens, arena)
  }

  lemma ProjectsSame(a: Write, b: Write, x: Batch, y: Batch, i: nat, layer: nat, name: (nat, nat) -> nat, blockTokens: nat, arena: Arena)
    requires SameBatch(x, y) && Projects(a, x, i, layer, name, blockTokens, arena) && Projects(b, y, i, layer, name, blockTokens, arena)
    ensures SameWrite(a, b)
  {
    hide KvPieces.Expanded, TaskMaps.Operand.WellFormed, TaskMaps.Operand.Addresses;
    assert SameKv(x.kv[x.slices[i].request], y.kv[x.slices[i].request]);
  }

  /** Batches with the same tables write the same bytes to the same places. */
  lemma BatchWritesSame(a: seq<Write>, b: seq<Write>, x: Batch, y: Batch, name: (nat, nat) -> nat, blockTokens: nat, arena: Arena)
    requires SameBatch(x, y) && ProjectsBatch(a, x, name, blockTokens, arena) && ProjectsBatch(b, y, name, blockTokens, arena)
    ensures SameWrites(a, b)
  {
    hide SameBatch, SameWrite, Projects, LayersOf;
    BatchSlices(x, y);
    var order := Order(|x.slices|, LayersOf(x));
    forall k | 0 <= k < |a| ensures SameWrite(a[k], b[k]) {
      ProjectsSame(a[k], b[k], x, y, order[k].0, order[k].1, name, blockTokens, arena);
    }
  }

  lemma BatchSlices(x: Batch, y: Batch)
    requires SameBatch(x, y)
    ensures x.slices == y.slices && LayersOf(x) == LayersOf(y)
  {
    if x.slices != [] && x.slices[0].request in x.kv {
      assert SameKv(x.kv[x.slices[0].request], y.kv[x.slices[0].request]);
    }
  }

  /** The writes of all batches of a run. */
  ghost predicate ProjectsRun(writes: seq<seq<Write>>, batches: seq<Batch>, name: (nat, nat) -> nat, blockTokens: nat, arena: Arena)
  {
    |writes| == |batches| && forall k :: 0 <= k < |writes| ==> ProjectsBatch(writes[k], batches[k], name, blockTokens, arena)
  }

  ghost function Joined(writes: seq<seq<Write>>): seq<Write>
  {
    if writes == [] then [] else Joined(writes[..|writes| - 1]) + writes[|writes| - 1]
  }

  lemma {:induction false} JoinedSame(a: seq<seq<Write>>, b: seq<seq<Write>>)
    requires |a| == |b| && forall k :: 0 <= k < |a| ==> SameWrites(a[k], b[k])
    ensures SameWrites(Joined(a), Joined(b))
    decreases |a|
  {
    hide SameWrite;
    if a != [] {
      var n := |a| - 1;
      JoinedSame(a[..n], b[..n]);
      assert SameWrites(a[n], b[n]);
    }
  }

  /** The main result about restoring: after a run without preemption, the writes that the replay of the
      log makes come to the very segments that the run's own writes came to.  So the comparison with a
      manifest of these succeeds, and the checkpoint can be restored. */
  lemma RestoreRebuilds(hotBlocks: nat, coldBlocks: nat, mems: KvMemory.Mems, actions: seq<Action>, catalog: nat -> Request, now: nat, cfg: Config,
                        written: seq<seq<Write>>, replayed: seq<seq<Write>>, name: (nat, nat) -> nat, arena: Arena)
    requires Lean(cfg) && Named(catalog)
    requires Play(Opening(hotBlocks, coldBlocks, mems), actions, cfg).Some? && Steady(Opening(hotBlocks, coldBlocks, mems), actions, catalog, cfg)
    requires ProjectsRun(written, BatchesOf(Opening(hotBlocks, coldBlocks, mems), actions, cfg), name, cfg.blockTokens, arena)
    requires ProjectsRun(replayed, ReplayedBatches(Start(hotBlocks, coldBlocks), LogOf(Opening(hotBlocks, coldBlocks, mems), actions, cfg),
                                                   catalog, now, cfg), name, cfg.blockTokens, arena)
    ensures NoteAll(map[], Joined(replayed)) == NoteAll(map[], Joined(written))
  {
    hide Play, Steady, Opening, SameBatch, ProjectsBatch, SameWrites, NoteAll;
    ReplayMaps(hotBlocks, coldBlocks, mems, actions, catalog, now, cfg);
    var opening := Opening(hotBlocks, coldBlocks, mems);
    var batches := BatchesOf(opening, actions, cfg);
    var again := ReplayedBatches(Start(hotBlocks, coldBlocks), LogOf(opening, actions, cfg), catalog, now, cfg);
    forall k | 0 <= k < |replayed| ensures SameWrites(replayed[k], written[k]) {
      BatchWritesSame(replayed[k], written[k], again[k], batches[k], name, cfg.blockTokens, arena);
    }
    JoinedSame(replayed, written);
    NoteAllSame(map[], Joined(replayed), Joined(written));
  }
}
