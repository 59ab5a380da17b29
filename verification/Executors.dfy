/** The executor the engine talks to: the placement plane, the time frontier, and the contents
    that the executed batches have produced.  The simulator behind it only contributes a time.
 */
module Executors {
  import opened BlockPools
  import opened PrefixKeys
  import opened PlacementSpec
  import opened PlacementInvariant
  import opened PlacementRuns
  import opened Placements
  import opened KvMemory
  import opened KvRefinement
  import opened KvLifecycle
  import opened KvRuns
  import opened WorldFacts

  class Executor {
    const plane: Placement
    const cfg: Config
    var frontierNs: nat
    /** The plane's state together with the contents of its blocks. */
    ghost var world: World

    ghost predicate Valid()
      reads this, plane, plane.hot, plane.cold, plane.prefix
    {
      plane.Valid() && plane.cfg == cfg && world.s == plane.Model() && Sound(world, cfg)
    }

    constructor (cfg: Config, hotBytes: nat, coldBytes: nat, ghost mems: Mems)
      requires cfg.Valid()
      ensures Valid() && this.cfg == cfg && frontierNs == 0
      ensures world == Opening(BlocksIn(hotBytes, cfg.budget.blockBytes),
                               BlocksIn(if cfg.hasCold then coldBytes else 0, cfg.budget.blockBytes), mems)
    {
      hide Placement.Valid, Inv, Sound;
      var p := new Placement(cfg, hotBytes, coldBytes);
      plane := p;
      this.cfg := cfg;
      frontierNs := 0;
      world := Opening(BlocksIn(hotBytes, cfg.budget.blockBytes),
                       BlocksIn(if cfg.hasCold then coldBytes else 0, cfg.budget.blockBytes), mems);
      new;
      OpeningSound(BlocksIn(hotBytes, cfg.budget.blockBytes),
                   BlocksIn(if cfg.hasCold then coldBytes else 0, cfg.budget.blockBytes), mems, cfg);
    }

    ghost function Parts(): set<object>
    {
      {this, plane, plane.hot, plane.cold, plane.prefix}
    }

    lemma Facts()
      requires Valid()
      ensures cfg.Valid() && plane.Valid() && world.s == plane.Model() && Sound(world, cfg)
      ensures Inv(world.s, cfg) && world.frontier.Keys == world.s.kv.Keys
      ensures plane.cfg == cfg
    {
      hide Good, Inv;
      SoundMeans(world, cfg);
      GoodInv(world.s, world.mems, world.frontier, world.reserved, world.arriving, cfg);
    }

    lemma SoundNow()
      requires Valid()
      ensures cfg.Valid() && Sound(world, cfg)
    {
    }

    method AdmitRequest(request: Request) returns (cached: nat)
      requires Valid() && request.Valid() && request.id !in world.s.kv && world.arriving == {}
      modifies Parts()
      ensures Valid() && frontierNs == old(frontierNs)
      ensures Act(old(world), Admits(request, frontierNs), cfg) == Some(world)
      ensures request.id in world.frontier && cached == world.frontier[request.id]
    {
      hide Placement.Valid, Inv, Sound, Act, Admit;
      Facts();
      AdmitsFacts(world, request, frontierNs, cfg);
      ActSound(world, Admits(request, frontierNs), cfg);
      cached := plane.AdmitRequest(request, frontierNs);
      AdmitIs(world, request, frontierNs, plane.Model(), cfg);
      world := Act(world, Admits(request, frontierNs), cfg).value;
    }

    /** Whether a reservation of these slices, made right now, succeeds. */
    method CanReserve(ghost batch: nat, slices: seq<Slice>) returns (fits: bool)
      requires Valid() && AllCounted(slices)
      requires world.s.pendingBatch.None? || world.s.pendingBatch.value == batch
      ensures fits <==> Reserve(world.s, batch, slices, cfg).Some?
    {
      hide Placement.Valid, Inv, Sound, Reserve;
      Facts();
      fits := plane.CanReserve(slices, batch);
    }

    /** Reserves a batch, or grows the reserved one; raises, changing nothing, when it does not fit. */
    method ReserveBatch(batch: nat, slices: seq<Slice>, ghost more: seq<Slice>) returns (ok: bool)
      requires Valid() && slices == world.reserved + more && Proper(world, more)
      modifies Parts()
      ensures Valid() && frontierNs == old(frontierNs)
      ensures ok <==> Reserve(old(world).s, batch, slices, cfg).Some?
      ensures ok ==> Act(old(world), Reserves(batch, more), cfg) == Some(world)
      ensures !ok ==> world == old(world)
    {
      hide Placement.Valid, Inv, Sound, Act, Reserve, Proper;
      Facts();
      ReservesFacts(world, batch, more, cfg);
      ProperCounts(world, more);
      ok := plane.ReserveBatch(batch, slices);
      if ok {
        ActSound(world, Reserves(batch, more), cfg);
        world := Act(world, Reserves(batch, more), cfg).value;
      }
    }

    /** Takes a request's KV out of the hot pool; raises, changing nothing, when it holds none. */
    method PreemptRequest(id: nat) returns (result: Option<PlacementSpec.Preempted>)
      requires Valid() && world.reserved == [] && world.arriving == {}
      modifies Parts()
      ensures Valid() && frontierNs == old(frontierNs)
      ensures result.Some? <==> Act(old(world), Preempts(id), cfg).Some?
      ensures result.Some? ==> Act(old(world), Preempts(id), cfg) == Some(world)
      ensures result.Some? ==> Preempt(old(world).s, id, cfg) == PreemptResult.Preempted(world.s, result.value)
      ensures result.None? ==> world == old(world)
    {
      hide Placement.Valid, Inv, Sound, Act, Preempt;
      Facts();
      PreemptsFacts(world, id, cfg);
      PreemptIs(world, id, cfg);
      result := plane.PreemptRequest(id);
      if result.Some? {
        ActSound(world, Preempts(id), cfg);
        world := Act(world, Preempts(id), cfg).value;
      }
    }

    method ReleaseRequest(id: nat)
      requires Valid() && id in world.s.kv && id !in InBatch(world.reserved)
      modifies Parts()
      ensures Valid() && frontierNs == old(frontierNs)
      ensures Act(old(world), Releases(id), cfg) == Some(world)
    {
      hide Placement.Valid, Inv, Sound, Act, Release;
      Facts();
      ReleasesFacts(world, id, cfg);
      ActSound(world, Releases(id), cfg);
      var ok := plane.ReleaseRequest(id);
      ReleasedIs(world, id, plane.Model(), cfg);
      world := Act(world, Releases(id), cfg).value;
    }

    /** Runs the reserved batch.  It finishes no earlier than it was released. */
    method Execute(slices: seq<Slice>, notBefore: nat) returns (finish: nat)
      requires Valid() && slices == world.reserved && world.arriving == {}
      modifies Parts()
      ensures Valid() && finish == frontierNs && finish >= notBefore
      ensures Act(old(world), Executes(finish), cfg) == Some(world)
    {
      hide Placement.Valid, Inv, Sound, Act, Covered, Complete;
      finish := *;
      if finish < notBefore {
        finish := notBefore;
      }
      Facts();
      ExecutesFacts(world, finish, cfg);
      ActSound(world, Executes(finish), cfg);
      ReservedAreCovered(world, cfg);
      plane.Execute(slices, finish);
      ExecuteIs(world, finish, plane.Model(), cfg);
      frontierNs := finish;
      world := Act(world, Executes(finish), cfg).value;
    }
  }

  lemma AdmitIs(w: World, request: Request, now: nat, next: State, cfg: Config)
    requires cfg.Valid() && Act(w, Admits(request, now), cfg).Some?
    requires Admit(w.s, request, KeysFor(request, cfg.blockTokens), now, cfg) == Some(next)
    ensures Act(w, Admits(request, now), cfg).value.s == next
  {
    hide Admit, KeysFor;
  }

  lemma PreemptIs(w: World, id: nat, cfg: Config)
    requires cfg.Valid() && w.reserved == [] && w.arriving == {}
    ensures Act(w, Preempts(id), cfg).Some? <==> Preempt(w.s, id, cfg).Preempted?
    ensures Act(w, Preempts(id), cfg).Some? ==> Act(w, Preempts(id), cfg).value.s == Preempt(w.s, id, cfg).state
  {
    hide Preempt;
  }

  lemma ReleasedIs(w: World, id: nat, next: State, cfg: Config)
    requires cfg.Valid() && Act(w, Releases(id), cfg).Some? && Release(w.s, id) == Some(next)
    ensures Act(w, Releases(id), cfg).value.s == next
  {
    hide Release;
  }

  lemma ExecuteIs(w: World, finish: nat, next: State, cfg: Config)
    requires cfg.Valid() && Act(w, Executes(finish), cfg).Some?
    requires Complete(w.s.(migrations := [], pendingBatch := None), w.reserved, finish, cfg) == Some(next)
    ensures Act(w, Executes(finish), cfg).value.s == next
  {
    hide Complete;
  }

  lemma ProperCounts(w: World, more: seq<Slice>)
    requires Proper(w, more)
    ensures forall i :: 0 <= i < |w.reserved + more| ==> (w.reserved + more)[i].count > 0
  {
  }

  /** The reserved slices name hot requests whose blocks cover them. */
  lemma ReservedAreCovered(w: World, cfg: Config)
    requires cfg.Valid() && Sound(w, cfg)
    ensures Covered(w.s, w.reserved, cfg)
  {
    hide Good, CoveredSlice;
    SlicesCovered(w.s, w.mems, w.frontier, w.reserved, w.arriving, cfg);
    forall i | 0 <= i < |w.reserved|
      ensures w.reserved[i].request in w.s.kv && w.s.kv[w.reserved[i].request].tier.Hot?
      ensures BlocksFor(w.reserved[i].End(), cfg.blockTokens) <= w.s.kv[w.reserved[i].request].Width()
    {
      CoveredMeans(w.s, w.frontier, w.reserved[i], cfg);
    }
  }
}
