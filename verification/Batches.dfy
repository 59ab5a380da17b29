/** One whole scheduling step, as lemmas on values: from the pass over the running requests to
    the batch that is handed to the compiler.
 */
module Batches {
  import opened PrefixKeys
  import opened PlacementSpec
  import opened KvRuns
  import opened WorldFacts
  import opened Affordability
  import opened Frontiers
  import opened Rosters
  import opened Desks
  import opened Sweeps
  import opened Admissions
  import opened Fillings

  /** A batch within its token and request limits, of requests that all run.  Where a lone request
      has room, the oldest running request is still the oldest, is untouched, and is in the batch. */
  ghost predicate Scheduled(d: Desk, w: World, f: Desk, u: World, picks: seq<Pick>, now: nat, batch: nat, policy: Policy, cfg: Config)
  {
    && Agrees(f, u, picks, batch, policy) && u.arriving == {} && picks != [] && Tokens(picks) <= policy.maxTokens
    && Owners(d, f) && Timely(f, now)
    && (Roomy(d, w, cfg) ==> Roomy(f, u, cfg) && Headed(d, f, picks))
  }

  ghost predicate Owners(d: Desk, f: Desk)
  {
    && |f.states| == |d.states| && (d.tainted ==> f.tainted)
    && forall i :: 0 <= i < |d.states| ==> SameOwner(d.states[i], f.states[i])
  }

  ghost predicate Headed(d: Desk, f: Desk, picks: seq<Pick>)
  {
    && f.running != [] && picks != [] && f.running[0] == picks[0].index && f.running[0] < |f.states|
    && (d.running != [] ==> f.running[0] == d.running[0] && f.running[0] < |d.states| && f.states[f.running[0]] == d.states[f.running[0]])
  }

  /** Who waits: unfinished requests that have arrived and do not run; if none runs, someone waits. */
  ghost predicate Lined(d: Desk, waiting: seq<nat>, now: nat)
  {
    && Waiting(d, waiting)
    && (forall i :: i in waiting && i < |d.states| ==> d.states[i].request.arrival <= now)
    && (d.running == [] ==> waiting != [])
  }

  /** What the pass over the running requests hands on, before and after its reservation. */
  ghost predicate Served(d: Desk, w: World, e: Desk, v: World, picks: seq<Pick>, budget: nat, model: Model, batch: nat,
                         policy: Policy, cfg: Config)
  {
    && Agrees(e, v, picks, batch, policy) && v.arriving == {} && Shed(d, e)
    && Tokens(picks) + budget == policy.maxTokens
    && (HeadOf(d, model) && e.running != [] ==> picks != [] && picks[0].index == d.running[0])
    && (Roomy(d, w, cfg) ==> Roomy(e, v, cfg))
    && (Roomy(d, w, cfg) && d.running != [] ==> e.running != [])
  }

  lemma SweepingServes(d: Desk, w: World, e: Desk, v: World, picks: seq<Pick>, budget: nat, model: Model, batch: nat,
                       policy: Policy, cfg: Config)
    requires Sweeping(d, w, e, v, |d.running|, picks, budget, model, policy, cfg) && Rested(d, w, policy)
    ensures Rested(e, v, policy) && Picked(e.states, picks, policy) && Shed(d, e)
    ensures forall k :: 0 <= k < |picks| ==> picks[k].index in e.running
    ensures Tokens(picks) + budget == policy.maxTokens
    ensures HeadOf(d, model) && e.running != [] ==> picks != [] && picks[0].index == d.running[0]
    ensures picks != [] ==> Affordable(v.s, Plains(picks), cfg)
    ensures Roomy(d, w, cfg) ==> Roomy(e, v, cfg) && (d.running != [] ==> e.running != [])
  {
    hide Roomy, Affordable, Rested, Tokens, Picked;
    RestedDistinct(d, w, policy);
    AheadRuns(d.running, |e.running|, picks, e.running);
  }

  lemma ServedRunning(d: Desk, w: World, e: Desk, v: World, picks: seq<Pick>, budget: nat, model: Model, batch: nat,
                      policy: Policy, cfg: Config)
    requires Sweeping(d, w, e, v, |d.running|, picks, budget, model, policy, cfg) && Rested(d, w, policy)
    requires Sound(v, cfg) && cfg.Valid()
    ensures Rested(e, v, policy) && Picked(e.states, picks, policy)
    ensures forall k :: 0 <= k < |picks| ==> picks[k].index in e.running
    ensures picks == [] ==> Served(d, w, e, v, picks, budget, model, batch, policy, cfg)
    ensures picks != [] ==> Affordable(v.s, Plains(picks), cfg)
    ensures Shed(d, e)
  {
    hide Roomy, Affordable, Rested, Tokens, Picked, Sweeping, Agrees, Sound, Shed;
    SweepingServes(d, w, e, v, picks, budget, model, batch, policy, cfg);
    RestedAgrees(e, v, batch, policy);
  }

  lemma ServedReserved(d: Desk, w: World, e: Desk, v: World, u: World, picks: seq<Pick>, budget: nat, model: Model, batch: nat,
                       policy: Policy, cfg: Config)
    requires Sweeping(d, w, e, v, |d.running|, picks, budget, model, policy, cfg) && Rested(d, w, policy)
    requires picks != [] && Sound(v, cfg) && cfg.Valid() && Act(v, Reserves(batch, Plains(picks)), cfg) == Some(u)
    ensures Served(d, w, e, u, picks, budget, model, batch, policy, cfg)
  {
    hide Roomy, Affordable, Rested, Tokens, Picked, Sweeping, Agrees, Reserve, Sound, Shed, Act, Proper;
    SweepingServes(d, w, e, v, picks, budget, model, batch, policy, cfg);
    FirstReserved(e, v, u, picks, batch, policy, cfg);
    if Roomy(d, w, cfg) {
      ReservesFacts(v, batch, Plains(picks), cfg);
      RestedEmpty(e, v, policy);
      ReserveRoomy(e, e, v, u, picks, batch, policy, cfg);
    }
  }

  lemma RestedEmpty(d: Desk, w: World, policy: Policy)
    requires Rested(d, w, policy)
    ensures w.reserved == []
    ensures forall slices: seq<Slice> :: w.reserved + slices == slices
  {
  }

  /** Nobody was preempted: the desk is the one the step started with. */
  lemma SameDesk(d: Desk, w: World, e: Desk, v: World, picks: seq<Pick>, budget: nat, model: Model, batch: nat, policy: Policy, cfg: Config)
    requires Served(d, w, e, v, picks, budget, model, batch, policy, cfg) && |e.running| == |d.running|
    ensures e == d && Agrees(d, v, picks, batch, policy) && v.arriving == {} && Tokens(picks) + budget == policy.maxTokens
  {
    hide Roomy, Agrees, Tokens;
  }

  lemma OwnersMoved(d: Desk, f: Desk, seen: seq<nat>)
    requires Moved(d, f, seen) && f.tainted == d.tainted
    ensures Owners(d, f)
  {
  }

  lemma OwnersShed(d: Desk, e: Desk)
    requires Shed(d, e)
    ensures Owners(d, e)
  {
    forall i | 0 <= i < |d.states| ensures SameOwner(d.states[i], e.states[i]) {
      assert SameIdentity(d.states[i], e.states[i]);
    }
  }

  lemma MovedTimely(d: Desk, f: Desk, waiting: seq<nat>, now: nat)
    requires Moved(d, f, waiting) && Timely(d, now) && Lined(d, waiting, now)
    ensures Timely(f, now)
  {
    forall i | i in f.running + f.resumed && i < |f.states| ensures f.states[i].request.arrival <= now {
      assert SameOwner(d.states[i], f.states[i]);
      assert i in waiting || i in d.running + d.resumed;
    }
  }

  /** After the pass over the waiting requests. */
  lemma FilledScheduled(d: Desk, w: World, v: World, f: Desk, u: World, first: seq<Pick>, picks: seq<Pick>, budget0: nat, budget: nat,
                        waiting: seq<nat>, model: Model, now: nat, batch: nat, policy: Policy, cfg: Config)
    requires Served(d, w, d, v, first, budget0, model, batch, policy, cfg) && Timely(d, now) && Lined(d, waiting, now)
    requires Filled(d, v, f, u, first, picks, budget, waiting, model, batch, policy, cfg)
    requires HeadOf(d, model) || (d.running == [] && LeadOf(d, waiting, model))
    requires forall i :: i in d.running ==> i < |d.states|
    ensures picks != [] ==> Scheduled(d, w, f, u, picks, now, batch, policy, cfg)
    ensures Roomy(d, w, cfg) ==> picks != []
  {
    hide Roomy, Agrees, Tokens, Shed;
    OwnersMoved(d, f, waiting);
    MovedTimely(d, f, waiting, now);
    if Roomy(d, w, cfg) {
      if d.running != [] {
        HeadStays(d, f, waiting, picks, first);
      } else {
        IdleFirst(d, v, first, batch, policy);
        PickKnown(f, u, picks, batch, policy);
      }
    }
  }

  lemma PickKnown(f: Desk, u: World, picks: seq<Pick>, batch: nat, policy: Policy)
    requires Agrees(f, u, picks, batch, policy)
    ensures picks != [] ==> picks[0].index < |f.states|
  {
  }

  lemma IdleFirst(d: Desk, v: World, first: seq<Pick>, batch: nat, policy: Policy)
    requires Agrees(d, v, first, batch, policy) && d.running == []
    ensures first == []
  {
    AgreesMeans(d, v, first, batch, policy);
    FedRuns(d, first);
  }

  lemma HeadStays(d: Desk, f: Desk, waiting: seq<nat>, picks: seq<Pick>, first: seq<Pick>)
    requires Moved(d, f, waiting) && Waiting(d, waiting) && d.running != [] && d.running[0] < |d.states|
    requires first != [] && first[0].index == d.running[0] && |first| <= |picks| && picks[..|first|] == first
    ensures Headed(d, f, picks)
  {
    assert f.running[0] == f.running[..|d.running|][0];
    assert picks[0] == picks[..|first|][0];
    assert d.running[0] in d.running;
  }

  /** After preemptions nobody new is let in. */
  lemma SweptScheduled(d: Desk, w: World, e: Desk, u: World, picks: seq<Pick>, budget: nat, model: Model, now: nat, frontierNs: nat,
                       batch: nat, policy: Policy, cfg: Config)
    requires Served(d, w, e, u, picks, budget, model, batch, policy, cfg) && Timely(d, frontierNs) && frontierNs <= now
    requires HeadOf(d, model)
    ensures picks != [] ==> Scheduled(d, w, e, u, picks, now, batch, policy, cfg)
    ensures picks == [] ==> e.running == [] && !Roomy(d, w, cfg)
  {
    hide Roomy, Agrees, Tokens;
    OwnersShed(d, e);
    assert Timely(d, now);
    ShedTimely(d, e, now);
    if e.running != [] {
      assert e.running[0] in e.running;
    }
  }

  /** Only when the last running request had to go as well is there nothing to schedule. */
  lemma ServedNothing(d: Desk, w: World, e: Desk, v: World, budget: nat, model: Model, frontierNs: nat,
                      batch: nat, policy: Policy, cfg: Config)
    requires Served(d, w, e, v, [], budget, model, batch, policy, cfg) && Timely(d, frontierNs)
    requires exists i :: 0 <= i < |d.states| && !d.states[i].complete
    ensures HeadOf(d, model) ==> e.running == []
    ensures Timely(e, frontierNs) && exists i :: 0 <= i < |e.states| && !e.states[i].complete
  {
    hide Roomy, Agrees, Tokens;
    ShedTimely(d, e, frontierNs);
    var i :| 0 <= i < |d.states| && !d.states[i].complete;
    assert SameIdentity(d.states[i], e.states[i]);
  }

  lemma ScheduledLater(d: Desk, w: World, e: Desk, v: World, f: Desk, u: World, picks: seq<Pick>, now: nat, batch: nat,
                       policy: Policy, cfg: Config)
    requires Shed(d, e) && Scheduled(e, v, f, u, picks, now, batch, policy, cfg) && !Roomy(d, w, cfg)
    ensures Scheduled(d, w, f, u, picks, now, batch, policy, cfg)
  {
    hide Roomy, Agrees, Tokens, Timely;
    OwnersShed(d, e);
    forall i | 0 <= i < |d.states| ensures SameOwner(d.states[i], f.states[i]) {
      assert SameOwner(d.states[i], e.states[i]) && SameOwner(e.states[i], f.states[i]);
    }
  }

  lemma LinedMeans(d: Desk, w: World, waiting: seq<nat>, now: nat, policy: Policy)
    requires Lined(d, waiting, now) && Rested(d, w, policy)
    ensures Waiting(d, waiting) && forall i :: i in d.running ==> i < |d.states|
  {
    RestedMeans(d, w, policy);
  }

  lemma HeadRuns(d: Desk, model: Model)
    ensures HeadOf(d, model) ==> d.running != []
  {
  }

  lemma ServedShed(d: Desk, w: World, e: Desk, v: World, budget: nat, model: Model, batch: nat, policy: Policy, cfg: Config)
    requires Served(d, w, e, v, [], budget, model, batch, policy, cfg)
    ensures Shed(d, e)
  {
  }
}
