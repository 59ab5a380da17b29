/** The continuous batcher: token-budgeted iterations over running, resumed and arriving
    requests, with youngest-first preemption when the hot pool is short.
 */
module Schedulers {
  import opened PrefixKeys
  import opened PlacementSpec
  import opened PlacementInvariant
  import opened KvRuns
  import opened WorldFacts
  import opened Affordability
  import opened Executors
  import opened Frontiers
  import opened Rosters
  import opened Desks
  import opened Sweeps
  import opened Admissions
  import opened Fillings
  import opened Batches
  import opened Completions
  import opened Paces
  import opened Seats
  import opened Passes

  /** Why the engine raises: the pool cannot hold one schedulable chunk, or a token frontier is
      inconsistent. */
  datatype Failure = CannotHold | Inconsistent

  class Engine {
    const policy: Policy
    const exec: Executor
    var states: seq<RequestState>
    var running: seq<nat>
    var resumed: seq<nat>
    /** A recompute has broken the recompute rule. */
    ghost var Tainted: bool

    ghost function D(): Desk
      reads this
    {
      Desk(states, running, resumed, Tainted)
    }

    ghost function Parts(): set<object>
    {
      {this} + exec.Parts()
    }

    ghost predicate Sane()
      reads this, exec, exec.plane, exec.plane.hot, exec.plane.cold, exec.plane.prefix
    {
      exec.Valid() && policy.Valid() && exec.cfg.Valid()
    }

    /** One state per request of the trace, in trace order. */
    constructor (policy: Policy, exec: Executor, requests: seq<Request>)
      requires policy.Valid() && exec.Valid() && exec.cfg.Valid() && exec.world.s.kv == map[] && exec.world.frontier == map[]
      requires exec.world.reserved == [] && exec.world.arriving == {} && exec.world.s.pendingBatch.None?
      requires forall i :: 0 <= i < |requests| ==> requests[i].Valid()
      requires forall i, j :: 0 <= i < j < |requests| ==> requests[i].id != requests[j].id
      ensures Sane() && this.policy == policy && this.exec == exec
      ensures Rested(D(), exec.world, policy) && Calm(D(), exec.world, policy)
      ensures Timely(D(), exec.frontierNs) && !Tainted
      ensures states == seq(|requests|, i requires 0 <= i < |requests| => Fresh(requests[i]))
      ensures running == [] && resumed == []
    {
      hide Executor.Valid, Rested, Timely, Calm;
      OpeningRested(requests, exec.world, policy, exec.frontierNs);
      OpeningCalm(seq(|requests|, i requires 0 <= i < |requests| => Fresh(requests[i])), exec.world, policy);
      this.policy := policy;
      this.exec := exec;
      states := seq(|requests|, i requires 0 <= i < |requests| => Fresh(requests[i]));
      running, resumed, Tainted := [], [], false;
    }

    // -------------------------------------------------------------- preemption

    /** Takes the last running request out of the hot pool and puts it first in line to resume.
        A running request always has hot blocks to give up. */
    method PreemptLast()
      requires Sane() && Rested(D(), exec.world, policy) && Calm(D(), exec.world, policy) && running != []
      modifies Parts()
      ensures Sane() && exec.frontierNs == old(exec.frontierNs)
      ensures Demotion(old(D()), old(exec.world), D(), exec.world, policy, exec.cfg) && Calm(D(), exec.world, policy)
      ensures Yields(Point(old(D()), old(exec.world)), Point(D(), exec.world), exec.cfg)
    {
      hide Executor.Valid, Sound, Act, Rested, Preempt, Inv, Demotion, Recomputed, Restartable, Calm, Yields;
      ghost var d, w := D(), exec.world;
      LastRunning(d, w, policy);
      exec.SoundNow();
      var v := running[|running| - 1];
      var id := states[v].request.id;
      CalmMeans(d, w, policy);
      RunningYields(d, w, v, policy, exec.cfg);
      var mode := exec.PreemptRequest(id);
      var st := states[v];
      if mode.value.Recompute? {
        Tainted := Tainted || !Restartable(st);
        st := Recomputed(st);
      }
      states := states[v := st];
      running := running[..|running| - 1];
      resumed := [v] + resumed;
      DemotionWorks(d, w, D(), exec.world, mode.value, policy, exec.cfg);
      CalmDemoted(d, D(), w, exec.world, policy, exec.cfg);
      YieldsNow(Point(d, w), Point(D(), exec.world), exec.cfg);
    }

    /** Preempts from the young end until the slice of a running request fits beside those
        already selected, or the request itself had to go. */
    method MakeFit(batch: nat, state: nat, slice: BatchSlice, selected: seq<Pick>, budget: nat, ghost k: nat)
      returns (kept: bool, picks: seq<Pick>, left: nat, ghost trail: seq<Point>)
      requires Sane() && Rested(D(), exec.world, policy) && Calm(D(), exec.world, policy)
      requires k < |running| && running[k] == state
      requires Rosters.Picked(states, selected + [Pick(state, slice)], policy) && Ahead(running, k, selected)
      modifies Parts()
      ensures Sane() && exec.frontierNs == old(exec.frontierNs)
      ensures picks == selected && left == budget
      ensures Swept(old(D()), old(exec.world), D(), exec.world, selected, policy, exec.cfg) && Calm(D(), exec.world, policy)
      ensures kept == (k < |running|) && k <= |running|
      ensures kept ==> Reserve(exec.world.s, batch, Plains(selected + [Pick(state, slice)]), exec.cfg).Some?
      ensures Roomy(old(D()), old(exec.world), exec.cfg) && k == 0 ==> kept
      ensures trail != [] && trail[0] == Point(old(D()), old(exec.world)) && trail[|trail| - 1] == Point(D(), exec.world)
      ensures Pressed(trail, Again(|trail| - 1, selected + [Pick(state, slice)]), batch, exec.cfg)
    {
      hide Executor.Valid, Sound, Rested, Roomy, Swept, Demotion, Rosters.Picked, Ahead, Reserve, Calm, Yields, Pressed, Again;
      ghost var d, w, pick := D(), exec.world, Pick(state, slice);
      picks, left, kept := selected, budget, true;
      LongerCounted(states, selected, pick, policy);
      SweptSelf(d, w, selected, policy, exec.cfg);
      trail := [Point(d, w)];
      PressedNone(trail[0], selected + [pick], batch, exec.cfg);
      var fits := exec.CanReserve(batch, Plains(picks) + [slice.Plain()]);
      while !fits
        invariant Sane() && exec.frontierNs == old(exec.frontierNs) && kept
        invariant Swept(d, w, D(), exec.world, selected, policy, exec.cfg) && Calm(D(), exec.world, policy)
        invariant k < |running| && running[k] == state && picks == selected && left == budget
        invariant fits <==> Reserve(exec.world.s, batch, Plains(selected + [pick]), exec.cfg).Some?
        invariant trail != [] && trail[0] == Point(d, w) && trail[|trail| - 1] == Point(D(), exec.world)
        invariant Pressed(trail, Again(|trail| - 1, selected + [pick]), batch, exec.cfg)
        decreases |running|
      {
        var victim := running[|running| - 1];
        ghost var e, v := D(), exec.world;
        exec.SoundNow();
        SweptPending(d, w, e, v, selected, policy, exec.cfg);
        VictimYoung(d, w, e, v, k, selected, policy, exec.cfg);
        VictimNotAlone(d, w, e, v, k, selected, pick, batch, policy, exec.cfg);
        picks, left := Unpick(picks, victim, left);
        PreemptLast();
        SweptStep(d, w, e, v, D(), exec.world, selected, policy, exec.cfg);
        PressedOn(trail, selected + [pick], Point(D(), exec.world), batch, exec.cfg);
        trail := trail + [Point(D(), exec.world)];
        if victim == state {
          kept := false;
          return;
        }
        SweptPending(d, w, D(), exec.world, selected, policy, exec.cfg);
        fits := exec.CanReserve(batch, Plains(picks) + [slice.Plain()]);
      }
    }

    /** One slice for each running request in turn.  Whoever still runs in the end has one, and only
        the last may have been cut short by the budget. */
    method ScheduleRunning(batch: nat, model: Model)
      returns (failure: Option<Failure>, selected: seq<Pick>, preempted: bool, budget: nat,
               ghost trail: seq<Point>, ghost tried: seq<seq<Pick>>)
      requires Sane() && Rested(D(), exec.world, policy) && Calm(D(), exec.world, policy)
      requires running != [] ==> HeadOf(D(), model)
      modifies Parts()
      ensures Sane() && exec.frontierNs == old(exec.frontierNs)
      ensures failure.None? ==>
        && Sweeping(old(D()), old(exec.world), D(), exec.world, |old(running)|, selected, budget, model, policy, exec.cfg)
        && preempted == (|running| < |old(running)|)
        && Fair(D(), exec.world, selected, budget, model, policy)
        && SweptOff(Point(old(D()), old(exec.world)), Point(D(), exec.world), selected, trail, tried, batch, policy, exec.cfg)
      ensures failure.Some? ==> failure == Some(Inconsistent) && Tainted
    {
      hide Executor.Valid, Sound, Rested, Roomy, Swept, Rosters.Picked, Ahead, Reserve, Sweeping, Affordable, Lawful,
        HeadOf, Calm, Dealing, Paced, Placed, Rationed, RunsModel, SweptOff, Pressed, Dealt, SliceOf;
      ghost var d, w := D(), exec.world;
      var order := running;
      failure, selected, preempted, budget := None, [], false, policy.maxTokens;
      trail, tried := [Point(d, w)], [];
      SweepsNone(Point(d, w), batch, policy, exec.cfg);
      SweepingSelf(d, w, model, policy, exec.cfg);
      CalmMeans(d, w, policy);
      HeadDecides(d, model, policy);
      DealingStarts(d, policy);
      var k := 0;
      while k < |order|
        invariant Sane() && exec.frontierNs == old(exec.frontierNs) && k <= |order| && failure.None?
        invariant Sweeping(d, w, D(), exec.world, k, selected, budget, model, policy, exec.cfg)
        invariant Dealing(d, D(), k, selected, budget, policy) && Calm(D(), exec.world, policy)
        invariant SweptOff(Point(d, w), Point(D(), exec.world), selected, trail, tried, batch, policy, exec.cfg)
      {
        ghost var e, v := D(), exec.world;
        SweepingMeans(d, w, e, v, k, selected, budget, model, policy, exec.cfg);
        TurnComes(d, w, e, v, k, selected, budget, model, policy, exec.cfg);
        var i := order[k];
        if i !in running || states[i].request.model != model {
          SweepingSkip(d, w, e, v, k, selected, budget, model, policy, exec.cfg);
        } else if budget == 0 {
          break;
        } else {
          var slice := SliceOf(states[i], budget, policy);
          if slice.None? {
            SliceFits(states[i], budget, policy);
            failure := Some(Inconsistent);
            return;
          }
          ChunkPicked(d, w, e, v, k, selected, budget, model, slice.value, policy, exec.cfg);
          SweepsDealt(Point(d, w), Point(e, v), selected, trail, tried, batch, policy, exec.cfg);
          TurnDealt(d, w, e, v, k, selected, budget, model, slice.value, policy, exec.cfg);
          var kept;
          ghost var pressed;
          kept, selected, budget, pressed := MakeFit(batch, i, slice.value, selected, budget, k);
          SweepsMore(Point(d, w), Point(e, v), Point(D(), exec.world), selected, Pick(i, slice.value), kept, trail, tried, pressed,
                     batch, policy, exec.cfg);
          trail, tried := trail + pressed[1..], tried + Again(|pressed| - 1, selected + [Pick(i, slice.value)]);
          exec.SoundNow();
          ChunkDone(d, w, e, v, D(), exec.world, k, kept, selected, budget, model, slice.value, batch, policy, exec.cfg);
          TurnTaken(d, w, e, v, D(), exec.world, k, kept, selected, budget, slice.value, policy, exec.cfg);
          if kept {
            selected := selected + [Pick(i, slice.value)];
            budget := budget - slice.value.count;
          }
        }
        k := k + 1;
      }
      preempted := |running| < |order|;
      ShedShorter(d, w, D(), exec.world, |order|, selected, budget, model, policy, exec.cfg);
      TurnsOver(d, w, D(), exec.world, selected, budget, model, policy, exec.cfg);
    }

    // --------------------------------------------------------------- admission

    /** Registers a new request with the plane and notes its cached prefix. */
    method Enter(batch: nat, i: nat, selected: seq<Pick>, ghost budget: nat, ghost model: Model) returns (ghost e: Desk)
      requires Sane() && Agrees(D(), exec.world, selected, batch, policy) && exec.world.arriving == {}
      requires Fair(D(), exec.world, selected, budget, model, policy)
      requires i < |states| && !states[i].admitted
      modifies Parts()
      ensures Sane() && exec.frontierNs == old(exec.frontierNs)
      ensures running == old(running) && resumed == old(resumed) && Tainted == old(Tainted)
      ensures states == e.states
      ensures Admissions.Before(old(D()), old(exec.world), e, exec.world, selected, i, batch, policy, exec.cfg)
      ensures Fair(e, exec.world, selected, budget, model, policy)
      ensures i < |e.states| && Enters(Point(old(D()), old(exec.world)), exec.world, e.states[i], i, exec.frontierNs, exec.cfg)
    {
      hide Executor.Valid, Sound, Act, Agrees, Roomy, Admissions.Before, Fair;
      ghost var d, w := D(), exec.world;
      exec.SoundNow();
      AdmitAgrees(d, w, w, selected, batch, i, exec.frontierNs, policy, exec.cfg);
      var st := states[i];
      var cached := exec.AdmitRequest(st.request);
      EnteredBefore(d, w, exec.world, selected, i, exec.frontierNs, batch, policy, exec.cfg);
      FairEntered(d, w, exec.world, selected, budget, model, i, exec.frontierNs, batch, policy, exec.cfg);
      states := states[i := st.(processed := cached, admitted := true)];
      e := Entering(d, i, cached);
    }

    /** Takes a new request back that did not fit. */
    method Leave(batch: nat, i: nat, selected: seq<Pick>, ghost d: Desk, ghost w: World, ghost e: Desk)
      requires Sane() && Admissions.Before(d, w, e, exec.world, selected, i, batch, policy, exec.cfg)
      requires KnownStates(d.states) && i < |d.states| && !d.states[i].admitted && states == e.states
      modifies Parts()
      ensures Sane() && exec.frontierNs == old(exec.frontierNs)
      ensures running == old(running) && resumed == old(resumed) && Tainted == old(Tainted) && states == d.states
      ensures Act(old(exec.world), Releases(d.states[i].request.id), exec.cfg) == Some(exec.world)
    {
      hide Executor.Valid, Sound, Act, Agrees, Roomy;
      NewOutsideBatch(d, w, e, exec.world, selected, i, batch, policy, exec.cfg);
      exec.ReleaseRequest(states[i].request.id);
      states := states[i := states[i].(admitted := false, processed := 0)];
      assert states[i] == d.states[i];
    }

    /** Tries to add one waiting request to the batch, behind all running ones.  A request that
        is new is admitted for that, and released again if its first chunk does not fit. */
    method AdmitOne(batch: nat, i: nat, selected: seq<Pick>, budget: nat, ghost model: Model)
      returns (failure: Option<Failure>, more: Option<Pick>)
      requires Sane() && Agrees(D(), exec.world, selected, batch, policy) && exec.world.arriving == {}
      requires Fair(D(), exec.world, selected, budget, model, policy) && i < |states| && states[i].request.model == model
      requires !states[i].complete && i !in running && budget > 0 && |running| < policy.maxRequests
      modifies Parts()
      ensures Sane() && exec.frontierNs == old(exec.frontierNs)
      ensures failure.None? ==>
        Admission(old(D()), old(exec.world), D(), exec.world, selected, more, i, batch, policy, exec.cfg)
      ensures failure.None? && more.None? ==>
        && Fair(D(), exec.world, selected, budget, model, policy)
        && Stays(Point(old(D()), old(exec.world)), Point(D(), exec.world), i, selected, batch, exec.frontierNs, policy, exec.cfg)
      ensures failure.None? && more.Some? ==>
        && more.value.slice.count <= budget && more.value.index == i
        && Fair(D(), exec.world, selected + [more.value], budget - more.value.slice.count, model, policy)
        && Joins(Point(old(D()), old(exec.world)), Point(D(), exec.world), selected, more.value, batch, exec.frontierNs, policy, exec.cfg)
      ensures failure.Some? ==> failure == Some(Inconsistent) && Tainted
    {
      hide Executor.Valid, Sound, Act, Agrees, Roomy, Admission, Lawful, Reserve, Proper, Admissions.Before, Fair, MakePlan, SliceOf,
        Enters, Stays, Joins;
      ghost var d, w := D(), exec.world;
      ghost var e := d;
      failure, more := None, None;
      AgreesMeans(d, w, selected, batch, policy);
      var newly := !states[i].admitted;
      if newly {
        e := Enter(batch, i, selected, budget, model);
      } else {
        ResumedBefore(d, w, selected, i, batch, policy, exec.cfg);
        EntersResumed(Point(d, w), i, exec.frontierNs, exec.cfg);
      }
      ghost var v := exec.world;
      BeforeMeans(d, w, e, v, selected, i, batch, policy, exec.cfg);
      BeforeLists(d, w, e, v, selected, i, batch, policy, exec.cfg);
      var slice := SliceOf(states[i], budget, policy);
      if slice.None? {
        SliceFits(states[i], budget, policy);
        return Some(Inconsistent), None;
      }
      SliceLawful(states[i], budget, policy);
      more := TryJoin(batch, selected, Pick(i, slice.value), newly, budget, model, d, w, e);
    }

    /** Adds the slice if it can be reserved with the others; otherwise a new request goes again. */
    method TryJoin(batch: nat, selected: seq<Pick>, pick: Pick, newly: bool, ghost budget: nat, ghost model: Model,
                   ghost d: Desk, ghost w: World, ghost e: Desk) returns (more: Option<Pick>)
      requires Sane() && Admissions.Before(d, w, e, exec.world, selected, pick.index, batch, policy, exec.cfg)
      requires pick.index < |e.states| && Lawful(e.states[pick.index], pick.slice, policy) && |d.running| < policy.maxRequests
      requires Fair(d, w, selected, budget, model, policy) && w.arriving == {} && KnownStates(d.states)
      requires Fair(e, exec.world, selected, budget, model, policy) && e.states[pick.index].request.model == model
      requires budget > 0 && SliceOf(e.states[pick.index], budget, policy) == Some(pick.slice)
      requires running == d.running && resumed == d.resumed && Tainted == d.tainted && states == e.states
      requires pick.index < |d.states| && newly == !d.states[pick.index].admitted
      requires exec.world.s.pendingBatch.None? || exec.world.s.pendingBatch.value == batch
      requires Enters(Point(d, w), exec.world, e.states[pick.index], pick.index, exec.frontierNs, exec.cfg)
      modifies Parts()
      ensures Sane() && exec.frontierNs == old(exec.frontierNs) && (more.None? || more == Some(pick))
      ensures Admission(d, w, D(), exec.world, selected, more, pick.index, batch, policy, exec.cfg)
      ensures more.None? ==>
        && Fair(D(), exec.world, selected, budget, model, policy)
        && Stays(Point(d, w), Point(D(), exec.world), pick.index, selected, batch, exec.frontierNs, policy, exec.cfg)
      ensures more.Some? ==>
        && pick.slice.count <= budget && Fair(D(), exec.world, selected + [pick], budget - pick.slice.count, model, policy)
        && Joins(Point(d, w), Point(D(), exec.world), selected, pick, batch, exec.frontierNs, policy, exec.cfg)
    {
      hide Executor.Valid, Sound, Act, Agrees, Roomy, Admission, Lawful, Reserve, Proper, Admissions.Before, Fair, MakePlan, SliceOf,
        KnownStates, Enters, Stays, Joins;
      FairRest(e, exec.world, selected, budget, model, policy);
      ghost var v := exec.world;
      exec.SoundNow();
      BeforeLists(d, w, e, v, selected, pick.index, batch, policy, exec.cfg);
      EnoughRoom(d, w, e, v, selected, pick, batch, policy, exec.cfg);
      var fits := exec.CanReserve(batch, Plains(selected) + [pick.slice.Plain()]);
      if !fits {
        if newly {
          Leave(batch, pick.index, selected, d, w, e);
        }
        Declined(d, w, e, v, exec.world, selected, budget, model, pick.index, batch, policy, exec.cfg);
        StaysNow(Point(d, w), Point(D(), exec.world), v, e.states[pick.index], pick.index, selected, pick.slice, batch, exec.frontierNs,
                 policy, exec.cfg);
        return None;
      }
      Join(batch, selected, pick, budget, model, d, w, e);
      more := Some(pick);
    }

    /** Reserves the batch with one slice more and lists the request as running.  No request has
        to be swapped out for that. */
    method Join(batch: nat, selected: seq<Pick>, pick: Pick, ghost budget: nat, ghost model: Model,
                ghost d: Desk, ghost w: World, ghost e: Desk)
      requires Sane() && Admissions.Before(d, w, e, exec.world, selected, pick.index, batch, policy, exec.cfg)
      requires pick.index < |e.states| && Lawful(e.states[pick.index], pick.slice, policy) && |d.running| < policy.maxRequests
      requires Reserve(exec.world.s, batch, Plains(selected + [pick]), exec.cfg).Some?
      requires Fair(e, exec.world, selected, budget, model, policy) && e.states[pick.index].request.model == model
      requires budget > 0 && SliceOf(e.states[pick.index], budget, policy) == Some(pick.slice)
      requires running == d.running && resumed == d.resumed && Tainted == d.tainted && states == e.states
      requires Enters(Point(d, w), exec.world, e.states[pick.index], pick.index, exec.frontierNs, exec.cfg)
      modifies Parts()
      ensures Sane() && exec.frontierNs == old(exec.frontierNs)
      ensures Joins(Point(d, w), Point(D(), exec.world), selected, pick, batch, exec.frontierNs, policy, exec.cfg)
      ensures Admission(d, w, D(), exec.world, selected, Some(pick), pick.index, batch, policy, exec.cfg)
      ensures pick.slice.count <= budget
      ensures Fair(D(), exec.world, selected + [pick], budget - pick.slice.count, model, policy)
      ensures MakePlan(old(exec.world).s, Plains(selected + [pick]), exec.cfg).Feasible?
      ensures MakePlan(old(exec.world).s, Plains(selected + [pick]), exec.cfg).victims == []
    {
      hide Executor.Valid, Sound, Act, Agrees, Roomy, Admission, Lawful, Reserve, Proper, Admissions.Before, Fair, MakePlan, SliceOf,
        Enters, Joins;
      ghost var v := exec.world;
      exec.SoundNow();
      FairRest(e, v, selected, budget, model, policy);
      LetIn(d, w, e, v, v, selected, pick, batch, policy, exec.cfg);
      BeforeLists(d, w, e, v, selected, pick.index, batch, policy, exec.cfg);
      var ok := exec.ReserveBatch(batch, Plains(selected) + [pick.slice.Plain()], [pick.slice.Plain()]);
      LetIn(d, w, e, v, exec.world, selected, pick, batch, policy, exec.cfg);
      running := running + [pick.index];
      if pick.index in resumed {
        resumed := Without(resumed, pick.index);
      } else {
        WithoutAbsent(resumed, pick.index);
      }
      ReservesFacts(v, batch, [pick.slice.Plain()], exec.cfg);
      FairJoined(d, w, e, D(), v, exec.world, selected, pick, budget, model, batch, policy, exec.cfg);
      JoinsNow(Point(d, w), Point(D(), exec.world), v, e.states[pick.index], selected, pick, batch, exec.frontierNs, policy, exec.cfg);
    }

    /** Adds waiting requests of the batch's model in order while budget and batch room last; the
        first that does not fit ends the pass. */
    method AdmitWaiting(batch: nat, waiting: seq<nat>, model: Model, first: seq<Pick>, budget0: nat)
      returns (failure: Option<Failure>, selected: seq<Pick>, budget: nat, ghost trail: seq<Point>)
      requires Sane() && Agrees(D(), exec.world, first, batch, policy) && exec.world.arriving == {}
      requires Waiting(D(), waiting) && Tokens(first) + budget0 == policy.maxTokens
      requires Fair(D(), exec.world, first, budget0, model, policy)
      modifies Parts()
      ensures Sane() && exec.frontierNs == old(exec.frontierNs)
      ensures failure.None? ==>
        && Filled(old(D()), old(exec.world), D(), exec.world, first, selected, budget, waiting, model, batch, policy, exec.cfg)
        && Fair(D(), exec.world, selected, budget, model, policy)
        && Fills(Point(old(D()), old(exec.world)), Point(D(), exec.world), ModelLine(old(states), waiting, model), first, selected, trail,
                 batch, exec.frontierNs, policy, exec.cfg)
      ensures failure.Some? ==> failure == Some(Inconsistent) && Tainted
    {
      hide Executor.Valid, Agrees, Roomy, Admission, Filled, Waiting, Fillings.Moved, Fair, Joined, Fills, Stays, Joins, ModelLine;
      ghost var d, w := D(), exec.world;
      trail := [Point(d, w)];
      FillsNone(Point(d, w), d.states, waiting, model, first, batch, exec.frontierNs, policy, exec.cfg);
      failure, selected, budget := None, first, budget0;
      FilledSelf(d, w, first, budget, model, batch, policy, exec.cfg);
      assert waiting[..0] == [];
      var k := 0;
      while k < |waiting|
        invariant Sane() && exec.frontierNs == old(exec.frontierNs) && k <= |waiting| && failure.None?
        invariant Filled(d, w, D(), exec.world, first, selected, budget, waiting[..k], model, batch, policy, exec.cfg)
        invariant Fair(D(), exec.world, selected, budget, model, policy)
        invariant Joining(trail, Point(d, w), Point(D(), exec.world), waiting[..k], model, first, selected, batch, exec.frontierNs, policy, exec.cfg)
      {
        ghost var f, u := D(), exec.world;
        FairRest(f, u, selected, budget, model, policy);
        FilledNext(d, w, f, u, first, selected, budget, waiting, k, model, batch, policy, exec.cfg);
        var i := waiting[k];
        if states[i].request.model != model {
          FilledSkip(d, w, f, u, first, selected, budget, waiting, k, model, batch, policy, exec.cfg);
          JoiningSkip(trail, Point(d, w), Point(f, u), waiting, k, model, first, selected, batch, exec.frontierNs, policy, exec.cfg);
        } else if budget == 0 || |running| >= policy.maxRequests {
          StopEarly(d, w, f, u, first, selected, budget, waiting, k, model, batch, policy, exec.cfg);
          StaysFull(Point(f, u), i, selected, batch, exec.frontierNs, policy, exec.cfg);
          JoiningStops(trail, Point(d, w), Point(f, u), Point(f, u), waiting, k, model, first, selected, batch, exec.frontierNs, policy, exec.cfg);
          return;
        } else {
          var more;
          failure, more := AdmitOne(batch, i, selected, budget, model);
          if failure.Some? {
            return;
          }
          if more.None? {
            StopUnfit(d, w, f, u, D(), exec.world, first, selected, budget, waiting, k, model, batch, policy, exec.cfg);
            JoiningStops(trail, Point(d, w), Point(f, u), Point(D(), exec.world), waiting, k, model, first, selected, batch, exec.frontierNs,
                         policy, exec.cfg);
            return;
          }
          JoiningMore(trail, Point(d, w), Point(f, u), Point(D(), exec.world), waiting, k, model, first, selected, more.value, batch,
                      exec.frontierNs, policy, exec.cfg);
          trail := trail + [Point(D(), exec.world)];
          FilledMore(d, w, f, u, D(), exec.world, first, selected, budget, waiting, k, more.value, model, batch, policy, exec.cfg);
          selected := selected + [more.value];
          budget := budget - more.value.slice.count;
        }
        k := k + 1;
      }
      assert waiting[..|waiting|] == waiting;
      JoiningEnds(trail, Point(d, w), Point(D(), exec.world), waiting, model, first, selected, batch, exec.frontierNs, policy, exec.cfg);
    }

    // -------------------------------------------------------------- arrivals

    /** The scheduler's time, and the unfinished requests that have arrived by then, oldest first. */
    method Arrivals() returns (now: nat, arrived: seq<nat>)
      requires exists i :: 0 <= i < |states| && !states[i].complete
      ensures now >= exec.frontierNs && arrived != [] && Clocked(states, exec.frontierNs, now)
      ensures forall i :: i in arrived <==> 0 <= i < |states| && !states[i].complete && states[i].request.arrival <= now
      ensures Distinctive(arrived)
      ensures forall j, k :: 0 <= j < k < |arrived| ==> Older(states, arrived[j], arrived[k])
    {
      now := exec.frontierNs;
      var some := false;
      var least, begun := 0, false;
      for i := 0 to |states|
        invariant begun <==> exists j :: 0 <= j < i && !states[j].complete
        invariant begun ==> exists j :: 0 <= j < i && !states[j].complete && states[j].request.arrival == least
        invariant forall j :: 0 <= j < i && !states[j].complete ==> least <= states[j].request.arrival
        invariant some <==> exists j :: 0 <= j < i && !states[j].complete && states[j].request.arrival <= exec.frontierNs
      {
        if !states[i].complete {
          if states[i].request.arrival <= now {
            some := true;
          }
          if !begun || states[i].request.arrival < least {
            begun, least := true, states[i].request.arrival;
          }
        }
      }
      if !some {
        now := least;
      }
      arrived := [];
      for i := 0 to |states|
        invariant forall j :: j in arrived <==> 0 <= j < i && !states[j].complete && states[j].request.arrival <= now
        invariant forall j, k :: 0 <= j < k < |arrived| ==> Older(states, arrived[j], arrived[k])
      {
        assert forall j :: 0 <= j < |arrived| ==> arrived[j] in arrived;
        if !states[i].complete && states[i].request.arrival <= now {
          arrived := Inserted(states, arrived, i);
        }
      }
      var i :| 0 <= i < |states| && !states[i].complete && states[i].request.arrival <= now;
      assert i in arrived;
    }

    // -------------------------------------------------------------- one batch

    /** Who waits, and whose model the batch is for: the oldest running request's, or else the
        first waiting one's. */
    method LineUpNow() returns (now: nat, waiting: seq<nat>, model: Model)
      requires Rested(D(), exec.world, policy) && Timely(D(), exec.frontierNs)
      requires exists i :: 0 <= i < |states| && !states[i].complete
      ensures now >= exec.frontierNs && Timely(D(), now) && Lined(D(), waiting, now)
      ensures Clocked(states, exec.frontierNs, now) && Queued(D(), waiting, now) && Leads(D(), waiting, model)
      ensures HeadOf(D(), model) || (running == [] && LeadOf(D(), waiting, model))
    {
      hide Rested, Timely, Lined, Clocked, Queued, Distinctive, Older, Among, Besides, HeadOf, LeadOf, Leads;
      var arrived;
      now, arrived := Arrivals();
      var runners := Among(running, arrived);
      waiting := Among(resumed, arrived);
      waiting := waiting + Besides(arrived, runners, waiting);
      LineUp(D(), exec.world, arrived, now, exec.frontierNs, policy);
      QueuedNow(D(), arrived, now);
      if runners == [] {
        LinedLead(D(), waiting, now);
      }
      var lead := if runners != [] then runners[0] else waiting[0];
      assert runners != [] ==> runners[0] in running;
      model := states[lead].request.model;
      LeadsNow(D(), waiting, model);
    }

    /** The pass over the running requests, and the reservation of what it selected.  That always
        succeeds, and swaps nobody out. */
    method ServeRunning(batch: nat, model: Model)
      returns (failure: Option<Failure>, picks: seq<Pick>, preempted: bool, budget: nat, ghost swept: World,
               ghost trail: seq<Point>, ghost tried: seq<seq<Pick>>)
      requires Sane() && Rested(D(), exec.world, policy) && Calm(D(), exec.world, policy)
      requires running != [] ==> HeadOf(D(), model)
      modifies Parts()
      ensures Sane() && exec.frontierNs == old(exec.frontierNs)
      ensures failure.None? ==>
        && Served(old(D()), old(exec.world), D(), exec.world, picks, budget, model, batch, policy, exec.cfg)
        && preempted == (|running| < |old(running)|) && |running| <= |old(running)|
        && (picks == [] ==> Rested(D(), exec.world, policy))
        && Fair(D(), exec.world, picks, budget, model, policy)
        && SweptOff(Point(old(D()), old(exec.world)), Point(D(), swept), picks, trail, tried, batch, policy, exec.cfg)
        && (picks == [] ==> exec.world == swept)
      ensures failure.None? && picks != [] ==>
        && Act(swept, Reserves(batch, Plains(picks)), exec.cfg) == Some(exec.world)
        && MakePlan(swept.s, Plains(picks), exec.cfg).Feasible? && MakePlan(swept.s, Plains(picks), exec.cfg).victims == []
      ensures failure.Some? ==> failure == Some(Inconsistent) && Tainted
    {
      hide Executor.Valid, Agrees, Rested, Roomy, Sweeping, Served, Sound, Proper, Reserve, Act, HeadOf, Calm, MakePlan, Affordable,
        Rationed, RunsModel, Rosters.Picked, SweptOff;
      ghost var d, w := D(), exec.world;
      failure, picks, preempted, budget, trail, tried := ScheduleRunning(batch, model);
      swept := exec.world;
      if failure.Some? {
        return;
      }
      ghost var e, v := D(), exec.world;
      exec.SoundNow();
      ShedShorter(d, w, e, v, |d.running|, picks, budget, model, policy, exec.cfg);
      ServedRunning(d, w, e, v, picks, budget, model, batch, policy, exec.cfg);
      if picks != [] {
        ReserveRunning(batch, picks, budget, model);
        ServedReserved(d, w, e, v, exec.world, picks, budget, model, batch, policy, exec.cfg);
      }
    }

    /** Reserves the slices of all running requests. */
    method ReserveRunning(batch: nat, picks: seq<Pick>, ghost budget: nat, ghost model: Model)
      requires Sane() && Rested(D(), exec.world, policy) && Fair(D(), exec.world, picks, budget, model, policy) && picks != []
      requires Rosters.Picked(states, picks, policy) && Affordable(exec.world.s, Plains(picks), exec.cfg)
      requires forall k :: 0 <= k < |picks| ==> picks[k].index in running
      modifies exec.Parts()
      ensures Sane() && exec.frontierNs == old(exec.frontierNs)
      ensures Fair(D(), exec.world, picks, budget, model, policy)
      ensures Act(old(exec.world), Reserves(batch, Plains(picks)), exec.cfg) == Some(exec.world)
      ensures var plan := MakePlan(old(exec.world).s, Plains(picks), exec.cfg); plan.Feasible? && plan.victims == []
    {
      hide Executor.Valid, Rested, Sound, Proper, Reserve, Act, Fair, MakePlan, Affordable, Rosters.Picked;
      ghost var e, v := D(), exec.world;
      exec.SoundNow();
      RunningReady(e, v, picks, budget, model, batch, policy, exec.cfg);
      var ok := exec.ReserveBatch(batch, Plains(picks), Plains(picks));
      RunningReserved(e, v, exec.world, picks, budget, model, batch, policy, exec.cfg);
    }

    /** The next batch: running requests first, then, unless someone had to be preempted, waiting
        ones.  If preemption left nothing to schedule the step is tried again, once at most. */
    method NextSchedule(batch: nat)
      returns (failure: Option<Failure>, picks: seq<Pick>, now: nat, ghost depth: nat, ghost passes: seq<Pass>)
      requires Sane() && Rested(D(), exec.world, policy) && Calm(D(), exec.world, policy) && Timely(D(), exec.frontierNs)
      requires exists i :: 0 <= i < |states| && !states[i].complete
      modifies Parts()
      ensures Sane() && exec.frontierNs == old(exec.frontierNs) <= now
      ensures failure.None? ==>
        && Scheduled(old(D()), old(exec.world), D(), exec.world, picks, now, batch, policy, exec.cfg)
        && Calm(D(), exec.world, policy) && Serving(running, picks)
      ensures failure == Some(CannotHold) ==> running == []
      ensures failure == Some(Inconsistent) ==> Tainted
      ensures failure != Some(Inconsistent) ==>
        && (failure == Some(CannotHold) <==> picks == [])
        && Chained(passes, Point(old(D()), old(exec.world)), Point(D(), exec.world), picks, now, batch, policy, exec.cfg)
      ensures Roomy(old(D()), old(exec.world), exec.cfg) ==> failure.None? || failure == Some(Inconsistent)
      ensures depth <= 2 && (old(running) == [] ==> depth == 1)
      decreases |running|
    {
      hide Executor.Valid, Agrees, Rested, Roomy, Lined, Scheduled, Served, Timely, Filled, Waiting, HeadOf, LeadOf, Fair, Calm, Act,
        SweptOff, Fills, Chained, Pass.Follows, Clocked, Queued, Leads;
      ghost var d, w, a := D(), exec.world, Point(D(), exec.world);
      passes := [];
      var waiting, model;
      now, waiting, model := LineUpNow();
      depth := 1;
      var preempted, budget;
      ghost var swept, trail, tried;
      failure, picks, preempted, budget, swept, trail, tried := ServeRunning(batch, model);
      if failure.Some? {
        return;
      }
      ghost var e, v, first, b := D(), exec.world, picks, Point(D(), swept);
      SweepsShorter(a, b, picks, trail, tried, batch, policy, exec.cfg);
      FairServes(e, v, picks, budget, model, policy);
      if !preempted {
        ghost var joined;
        failure, picks, joined := ServeWaiting(batch, waiting, model, picks, budget, now, d, w);
        if failure.None? {
          ghost var pass := Pass(a, b, Point(e, v), Point(D(), exec.world), exec.frontierNs, now, waiting, model, first, picks, trail, tried, joined);
          PassFills(pass, batch, policy, exec.cfg);
          ChainOne(pass, batch, policy, exec.cfg);
          passes := [pass];
          if picks == [] {
            failure := Some(CannotHold);
          }
        }
        return;
      }
      ghost var pass := Pass(a, b, Point(e, v), Point(e, v), exec.frontierNs, now, waiting, model, first, picks, trail, tried, []);
      PassSheds(pass, batch, policy, exec.cfg);
      ChainOne(pass, batch, policy, exec.cfg);
      passes := [pass];
      FairMeans(e, v, picks, budget, model, policy);
      HeadRuns(d, model);
      SweptScheduled(d, w, e, v, picks, budget, model, now, exec.frontierNs, batch, policy, exec.cfg);
      if picks == [] {
        ServedNothing(d, w, e, v, budget, model, exec.frontierNs, batch, policy, exec.cfg);
        ghost var more, others;
        failure, picks, now, more, others := NextSchedule(batch);
        depth := depth + more;
        if failure != Some(Inconsistent) {
          ChainMore(pass, others, a, Point(e, v), Point(D(), exec.world), picks, now, batch, policy, exec.cfg);
        }
        passes := [pass] + others;
        if failure.None? {
          ServedShed(d, w, e, v, budget, model, batch, policy, exec.cfg);
          ScheduledLater(d, w, e, v, D(), exec.world, picks, now, batch, policy, exec.cfg);
        }
      }
    }

    /** The pass over the waiting requests, when nobody was preempted. */
    method ServeWaiting(batch: nat, waiting: seq<nat>, model: Model, first: seq<Pick>, budget: nat, now: nat, ghost d: Desk, ghost w: World)
      returns (failure: Option<Failure>, picks: seq<Pick>, ghost joined: seq<Point>)
      requires Sane() && Served(d, w, D(), exec.world, first, budget, model, batch, policy, exec.cfg)
      requires |running| == |d.running| && Timely(d, now) && Lined(d, waiting, now) && Rested(d, w, policy)
      requires HeadOf(d, model) || (d.running == [] && LeadOf(d, waiting, model))
      requires Fair(D(), exec.world, first, budget, model, policy)
      modifies Parts()
      ensures Sane() && exec.frontierNs == old(exec.frontierNs)
      ensures failure.None? && picks != [] ==> Scheduled(d, w, D(), exec.world, picks, now, batch, policy, exec.cfg)
      ensures failure.None? ==>
        Fills(Point(old(D()), old(exec.world)), Point(D(), exec.world), ModelLine(d.states, waiting, model), first, picks, joined,
              batch, exec.frontierNs, policy, exec.cfg)
      ensures failure.None? ==> Calm(D(), exec.world, policy) && Serving(running, picks) && (picks == [] ==> running == [])
      ensures failure.Some? ==> failure == Some(Inconsistent) && Tainted
      ensures failure.None? && Roomy(d, w, exec.cfg) ==> picks != []
    {
      hide Executor.Valid, Agrees, Rested, Roomy, Lined, Scheduled, Served, Timely, Filled, Waiting, HeadOf, LeadOf, Fair, Calm, Fills;
      ghost var v := exec.world;
      SameDesk(d, w, D(), v, first, budget, model, batch, policy, exec.cfg);
      LinedMeans(d, w, waiting, now, policy);
      var left;
      failure, picks, left, joined := AdmitWaiting(batch, waiting, model, first, budget);
      if failure.None? {
        FilledScheduled(d, w, v, D(), exec.world, first, picks, budget, left, waiting, model, now, batch, policy, exec.cfg);
        FairMeans(D(), exec.world, picks, left, model, policy);
      }
    }

    // ------------------------------------------------------------- completion

    /** Books one slice: the request's frontier moves to its end; a request that has emitted all
        its output is released. */
    method Book(ghost todo: seq<Pick>, pick: Pick) returns (failure: Option<Failure>)
      requires Sane() && todo != [] && todo[0] == pick && Owes(D(), exec.world, todo, policy) && AllDelivered(states)
      requires Calm(D(), exec.world, policy)
      modifies Parts()
      ensures Sane() && exec.frontierNs == old(exec.frontierNs)
      ensures failure.None? ==>
        && Booking(old(D()), old(exec.world), D(), exec.world, todo, policy, exec.cfg) && Calm(D(), exec.world, policy)
        && Passes.Books(Point(old(D()), old(exec.world)), Point(D(), exec.world), pick, exec.cfg)
      ensures failure.Some? ==> failure == Some(Inconsistent) && Tainted
    {
      hide Executor.Valid, Sound, Act, Roomy, Owes, Lawful, AllDelivered, Booking, Calm;
      ghost var d, w := D(), exec.world;
      Due(d, w, todo, policy);
      var i := pick.index;
      LawfulAdvance(states[i], pick.slice, policy);
      var next := Advance(states[i], pick.slice);
      if next.None? {
        return Some(Inconsistent);
      }
      failure := None;
      var st := next.value;
      exec.SoundNow();
      if st.complete {
        DueOutside(d, w, todo, policy);
        exec.ReleaseRequest(st.request.id);
        Departed(d, w, exec.world, todo, st, policy, exec.cfg);
        running := Without(running, i);
      } else {
        Booked(d, w, todo, st, policy);
      }
      states := states[i := st];
      BookingIs(d, w, D(), exec.world, todo, st, policy, exec.cfg);
      BookingCalm(d, w, D(), exec.world, todo, policy, exec.cfg);
    }

    method ApplyCompletion(picks: seq<Pick>)
      returns (failure: Option<Failure>, ghost trail: seq<Point>)
      requires Sane() && Owes(D(), exec.world, picks, policy) && AllDelivered(states) && Timely(D(), exec.frontierNs)
      requires Calm(D(), exec.world, policy)
      modifies Parts()
      ensures Sane() && exec.frontierNs == old(exec.frontierNs)
      ensures failure.None? ==>
        && Rested(D(), exec.world, policy) && Calm(D(), exec.world, policy) && Timely(D(), exec.frontierNs) && AllDelivered(states)
        && (Roomy(old(D()), old(exec.world), exec.cfg) ==> Roomy(D(), exec.world, exec.cfg))
        && (picks != [] && old(running) != [] && picks[0].index == old(running)[0] ==> Measure(D()) < Measure(old(D())))
        && Tallied(trail, picks, Point(old(D()), old(exec.world)), Point(D(), exec.world), exec.cfg)
      ensures failure.Some? ==> failure == Some(Inconsistent) && Tainted
    {
      hide Executor.Valid, Roomy, Owes, AllDelivered, Timely, Progressed, Booking, Rested, Calm, Passes.Books, Tallied;
      ghost var d, w := D(), exec.world;
      trail := [Point(d, w)];
      TallyNone(Point(d, w), picks, exec.cfg);
      failure := None;
      var k := 0;
      assert picks[0..] == picks;
      while k < |picks|
        invariant Sane() && exec.frontierNs == old(exec.frontierNs) && k <= |picks| && failure.None?
        invariant Owes(D(), exec.world, picks[k..], policy) && AllDelivered(states) && Timely(D(), exec.frontierNs)
        invariant Calm(D(), exec.world, policy)
        invariant Roomy(d, w, exec.cfg) ==> Roomy(D(), exec.world, exec.cfg)
        invariant k == 0 ==> D() == d
        invariant k > 0 && Leading(d, picks) ==> Progressed(d, D(), picks[0].index)
        invariant Tallied(trail, picks[..k], Point(d, w), Point(D(), exec.world), exec.cfg)
      {
        ghost var todo := picks[k..];
        assert todo[0] == picks[k] && todo[1..] == picks[k + 1..];
        ghost var e, v := D(), exec.world;
        OwesSeated(e, v, todo, policy);
        failure := Book(todo, picks[k]);
        if failure.Some? {
          return;
        }
        BookingMeans(e, v, D(), exec.world, todo, exec.frontierNs, policy, exec.cfg);
        TallyMore(trail, picks, k, Point(d, w), Point(e, v), Point(D(), exec.world), exec.cfg);
        trail := trail + [Point(D(), exec.world)];
        if Leading(d, picks) {
          PicksApart(d, w, picks, k, policy);
          BookingProgress(d, w, e, v, D(), exec.world, picks, k, policy, exec.cfg);
        }
        k := k + 1;
      }
      assert picks[|picks|..] == [] && picks[..|picks|] == picks;
      OwesNothing(D(), exec.world, policy);
      if Leading(d, picks) {
        OwesSeated(d, w, picks, policy);
        ProgressShrinks(d, D(), policy);
      }
    }

    /** Schedules, executes and books one batch. */
    method Iterate(batch: nat)
      returns (failure: Option<Failure>, ghost passes: seq<Pass>, ghost picks: seq<Pick>, ghost booked: seq<Point>)
      requires Sane() && Rested(D(), exec.world, policy) && Calm(D(), exec.world, policy)
      requires Timely(D(), exec.frontierNs) && AllDelivered(states)
      requires exists i :: 0 <= i < |states| && !states[i].complete
      modifies Parts()
      ensures Sane() && exec.frontierNs >= old(exec.frontierNs)
      ensures failure.None? ==>
        && Rested(D(), exec.world, policy) && Calm(D(), exec.world, policy)
        && Timely(D(), exec.frontierNs) && AllDelivered(states)
      ensures failure == Some(CannotHold) ==> running == []
      ensures failure == Some(Inconsistent) ==> Tainted
      ensures Roomy(old(D()), old(exec.world), exec.cfg) ==>
        if failure.None? then Roomy(D(), exec.world, exec.cfg) && Measure(D()) < Measure(old(D()))
        else failure == Some(Inconsistent)
      ensures failure.None? ==>
        Iterated(passes, Point(old(D()), old(exec.world)), Point(D(), exec.world), picks, booked, exec.frontierNs, batch, policy, exec.cfg)
    {
      hide Executor.Valid, Sound, Act, Roomy, Agrees, Rested, Scheduled, AllDelivered, Owes, Timely, Leading, Calm, Chained, Tallied;
      ghost var d, w := D(), exec.world;
      var chosen, now;
      ghost var depth;
      failure, chosen, now, depth, passes := NextSchedule(batch);
      picks, booked := chosen, [];
      if failure.Some? {
        return;
      }
      ghost var f, u := D(), exec.world;
      ScheduledMeans(d, w, f, u, picks, now, batch, policy, exec.cfg);
      exec.SoundNow();
      var finish := exec.Execute(Plains(chosen), now);
      ExecutedOwes(f, u, exec.world, picks, batch, finish, policy, exec.cfg);
      CalmExecuted(f, u, exec.world, finish, policy, exec.cfg);
      TimelyLater(f, now, exec.frontierNs);
      ghost var x := exec.world;
      failure, booked := ApplyCompletion(chosen);
      if failure.None? {
        IteratedNow(passes, Point(d, w), Point(f, u), Point(f, x), Point(D(), exec.world), picks, now, booked, exec.frontierNs, batch, policy, exec.cfg);
      }
    }

    /** Runs at most the given number of batches.  It stops early only when all requests are done
        or when it raises; a frontier check can only raise after a recompute broke the rule.
        Where a lone request has room, as many batches as there are tokens in all lifetimes are
        enough to finish. */
    method Run(limit: nat) returns (failure: Option<Failure>, ghost days: seq<Point>)
      requires Sane() && Rested(D(), exec.world, policy) && Calm(D(), exec.world, policy)
      requires Timely(D(), exec.frontierNs) && AllDelivered(states)
      modifies Parts()
      ensures Sane()
      ensures failure == Some(CannotHold) ==> running == []
      ensures failure == Some(Inconsistent) ==> Tainted
      ensures failure.None? ==> AllDelivered(states) && Rested(D(), exec.world, policy) && Calm(D(), exec.world, policy)
      ensures days != [] && days[0] == Point(old(D()), old(exec.world)) && Lived(days, policy, exec.cfg)
      ensures failure.None? ==>
        && days[|days| - 1] == Point(D(), exec.world)
        && (|days| - 1 == limit || forall i :: 0 <= i < |states| ==> states[i].complete)
      ensures Roomy(old(D()), old(exec.world), exec.cfg) && limit >= Work(old(states)) && !Tainted ==>
        failure.None? && forall i :: 0 <= i < |states| ==> states[i].complete
    {
      hide Executor.Valid, Roomy, Rested, AllDelivered, Timely, Calm, Iterated;
      failure, days := None, [Point(D(), exec.world)];
      var batch := 0;
      MeasureStarts(D());
      while batch < limit && exists i :: 0 <= i < |states| && !states[i].complete
        invariant Sane() && Rested(D(), exec.world, policy) && Calm(D(), exec.world, policy)
        invariant Timely(D(), exec.frontierNs) && AllDelivered(states)
        invariant batch <= limit && failure.None? && |days| == batch + 1 && days[0] == Point(old(D()), old(exec.world))
        invariant days[batch] == Point(D(), exec.world) && Lived(days, policy, exec.cfg)
        invariant Roomy(old(D()), old(exec.world), exec.cfg) ==>
          Roomy(D(), exec.world, exec.cfg) && Measure(D()) + batch <= Work(old(states))
      {
        ghost var passes, picks, booked;
        failure, passes, picks, booked := Iterate(batch);
        if failure.Some? {
          return;
        }
        LivedMore(days, Point(D(), exec.world), passes, picks, booked, exec.frontierNs, policy, exec.cfg);
        days := days + [Point(D(), exec.world)];
        batch := batch + 1;
      }
      if exists i :: 0 <= i < |states| && !states[i].complete {
        RestedSeats(D(), exec.world, policy);
        MeasurePositive(D(), policy);
      }
    }
  }

  /** The batch has been executed and booked. */
  ghost predicate Executed(mid: Point, after: Point, b: Point, booked: seq<Point>, picks: seq<Pick>, finish: nat, cfg: Config)
    requires cfg.Valid()
  {
    && after.desk == mid.desk && Act(mid.world, Executes(finish), cfg) == Some(after.world) && Tallied(booked, picks, after, b, cfg)
  }

  /** A whole iteration: passes, execution, booking. */
  ghost predicate Iterated(passes: seq<Pass>, a: Point, b: Point, picks: seq<Pick>, booked: seq<Point>, finish: nat, batch: nat,
                           policy: Policy, cfg: Config)
    requires cfg.Valid()
  {
    exists mid: Point, after: Point, now: nat ::
      Chained(passes, a, mid, picks, now, batch, policy, cfg) && now <= finish && Executed(mid, after, b, booked, picks, finish, cfg)
  }

  lemma IteratedNow(passes: seq<Pass>, a: Point, mid: Point, after: Point, b: Point, picks: seq<Pick>, now: nat, booked: seq<Point>, finish: nat, batch: nat,
                    policy: Policy, cfg: Config)
    requires cfg.Valid() && Chained(passes, a, mid, picks, now, batch, policy, cfg) && now <= finish
    requires Tallied(booked, picks, after, b, cfg) && after.desk == mid.desk
    requires Act(mid.world, Executes(finish), cfg) == Some(after.world)
    ensures Iterated(passes, a, b, picks, booked, finish, batch, policy, cfg)
  {
    hide Chained, Act, Tallied;
    assert Executed(mid, after, b, booked, picks, finish, cfg);
  }

  lemma LeadsNow(d: Desk, waiting: seq<nat>, model: Model)
    requires var line := if d.running != [] then d.running else waiting;
      line != [] && line[0] < |d.states| && model == d.states[line[0]].request.model
    ensures Leads(d, waiting, model) && (HeadOf(d, model) || (d.running == [] && LeadOf(d, waiting, model)))
  {
  }

  /** Day after day one iteration: the k-th step is batch k. */
  ghost predicate Lived(days: seq<Point>, policy: Policy, cfg: Config)
    requires cfg.Valid()
  {
    forall k :: 0 <= k < |days| - 1 ==> OneDay(days[k], days[k + 1], k, policy, cfg)
  }

  ghost predicate OneDay(a: Point, b: Point, batch: nat, policy: Policy, cfg: Config)
    requires cfg.Valid()
  {
    exists passes, picks, booked, finish :: Iterated(passes, a, b, picks, booked, finish, batch, policy, cfg)
  }

  lemma LivedMore(days: seq<Point>, b: Point, passes: seq<Pass>, picks: seq<Pick>, booked: seq<Point>, finish: nat, policy: Policy, cfg: Config)
    requires cfg.Valid() && days != [] && Lived(days, policy, cfg)
    requires Iterated(passes, days[|days| - 1], b, picks, booked, finish, |days| - 1, policy, cfg)
    ensures Lived(days + [b], policy, cfg)
  {
    hide Iterated;
    assert OneDay(days[|days| - 1], b, |days| - 1, policy, cfg);
    hide OneDay;
  }

  /** The queue is the resumed requests and then the arrived others. */
  lemma QueuedNow(d: Desk, arrived: seq<nat>, now: nat)
    requires forall i :: i in arrived <==> 0 <= i < |d.states| && !d.states[i].complete && d.states[i].request.arrival <= now
    requires forall j, k :: 0 <= j < k < |arrived| ==> Older(d.states, arrived[j], arrived[k])
    ensures Queued(d, d.resumed + Besides(arrived, d.running, d.resumed), now)
  {
    var others := Besides(arrived, d.running, d.resumed);
    BesidesOrdered(d.states, arrived, d.running, d.resumed);
    QueuedIs(d, arrived, others, now);
  }

  lemma QueuedIs(d: Desk, arrived: seq<nat>, others: seq<nat>, now: nat)
    requires forall i :: i in arrived <==> 0 <= i < |d.states| && !d.states[i].complete && d.states[i].request.arrival <= now
    requires forall i :: i in others <==> i in arrived && i !in d.running && i !in d.resumed
    requires InOrder(d.states, others)
    ensures Queued(d, d.resumed + others, now)
  {
    hide Older;
    var waiting := d.resumed + others;
    assert waiting[..|d.resumed|] == d.resumed && waiting[|d.resumed|..] == others;
  }

  ghost predicate InOrder(states: seq<RequestState>, s: seq<nat>)
  {
    forall j, k :: 0 <= j < k < |s| ==> Older(states, s[j], s[k])
  }

  lemma {:induction false} BesidesOrdered(states: seq<RequestState>, s: seq<nat>, a: seq<nat>, b: seq<nat>)
    requires InOrder(states, s)
    ensures InOrder(states, Besides(s, a, b))
  {
    if s != [] {
      var rest := Besides(s[1..], a, b);
      OrderedRest(states, s);
      BesidesOrdered(states, s[1..], a, b);
      forall x | x in rest ensures Older(states, s[0], x) {
        var j :| 0 <= j < |s[1..]| && s[1..][j] == x;
        assert s[j + 1] == x;
      }
      OrderedFront(states, s[0], rest);
      assert [] + rest == rest;
    }
  }

  lemma OrderedRest(states: seq<RequestState>, s: seq<nat>)
    requires s != [] && InOrder(states, s)
    ensures InOrder(states, s[1..])
  {
    hide Older;
  }

  lemma OrderedFront(states: seq<RequestState>, x: nat, rest: seq<nat>)
    requires InOrder(states, rest) && forall y :: y in rest ==> Older(states, x, y)
    ensures InOrder(states, [x] + rest)
  {
    hide Older;
    var s := [x] + rest;
    forall j, k | 0 <= j < k < |s| ensures Older(states, s[j], s[k]) {
      assert s[k] == rest[k - 1] && (j > 0 ==> s[j] == rest[j - 1]);
    }
  }

  /** Stable insertion of the next request of the trace. */
  method Inserted(states: seq<RequestState>, arrived: seq<nat>, i: nat) returns (longer: seq<nat>)
    requires i < |states| && forall j :: 0 <= j < |arrived| ==> arrived[j] < i
    requires forall j, k :: 0 <= j < k < |arrived| ==> Older(states, arrived[j], arrived[k])
    ensures forall j :: j in longer <==> j == i || j in arrived
    ensures forall j, k :: 0 <= j < k < |longer| ==> Older(states, longer[j], longer[k])
  {
    var at := |arrived|;
    while at > 0 && states[arrived[at - 1]].request.arrival > states[i].request.arrival
      invariant 0 <= at <= |arrived|
      invariant forall k :: at <= k < |arrived| ==> Older(states, i, arrived[k])
    {
      at := at - 1;
    }
    longer := arrived[..at] + [i] + arrived[at..];
    InsertedElements(arrived, i, at, longer);
    forall k | 0 <= k < at ensures Older(states, arrived[k], i) {
      if k < at - 1 {
        assert Older(states, arrived[k], arrived[at - 1]);
      }
    }
    InsertedOlder(states, arrived, i, at, longer);
  }

  lemma InsertedElements(arrived: seq<nat>, i: nat, at: nat, longer: seq<nat>)
    requires at <= |arrived| && longer == arrived[..at] + [i] + arrived[at..]
    ensures forall j :: j in longer <==> j == i || j in arrived
  {
    assert arrived == arrived[..at] + arrived[at..];
  }

  lemma InsertedOlder(states: seq<RequestState>, arrived: seq<nat>, i: nat, at: nat, longer: seq<nat>)
    requires at <= |arrived| && longer == arrived[..at] + [i] + arrived[at..]
    requires forall j, k :: 0 <= j < k < |arrived| ==> Older(states, arrived[j], arrived[k])
    requires forall k :: 0 <= k < at ==> Older(states, arrived[k], i)
    requires forall k :: at <= k < |arrived| ==> Older(states, i, arrived[k])
    ensures forall j, k :: 0 <= j < k < |longer| ==> Older(states, longer[j], longer[k])
  {
    hide Older;
  }

  /** The elements of one list that are in another, in order. */
  function Among(s: seq<nat>, others: seq<nat>): (kept: seq<nat>)
    ensures forall i :: i in kept <==> i in s && i in others
  {
    if s == [] then [] else (if s[0] in others then [s[0]] else []) + Among(s[1..], others)
  }

  /** The elements of one list that are in neither of two others, in order. */
  function Besides(s: seq<nat>, a: seq<nat>, b: seq<nat>): (kept: seq<nat>)
    ensures forall i :: i in kept <==> i in s && i !in a && i !in b
  {
    if s == [] then [] else (if s[0] !in a && s[0] !in b then [s[0]] else []) + Besides(s[1..], a, b)
  }

  lemma {:induction false} AmongIs(s: seq<nat>, others: seq<nat>)
    requires Distinctive(s)
    ensures Distinctive(Among(s, others))
    ensures (forall i :: i in s ==> i in others) ==> Among(s, others) == s
  {
    if s != [] {
      AmongIs(s[1..], others);
      assert s[0] !in s[1..];
      Concatenated(if s[0] in others then [s[0]] else [], Among(s[1..], others));
    }
  }

  lemma {:induction false} BesidesIs(s: seq<nat>, a: seq<nat>, b: seq<nat>)
    requires Distinctive(s)
    ensures Distinctive(Besides(s, a, b))
  {
    if s != [] {
      BesidesIs(s[1..], a, b);
      assert s[0] !in s[1..];
      Concatenated(if s[0] !in a && s[0] !in b then [s[0]] else [], Besides(s[1..], a, b));
    }
  }

  /** The request whose turn it is gets what it can use of the budget. */
  lemma TurnDealt(d: Desk, w: World, e: Desk, v: World, k: nat, selected: seq<Pick>, budget: nat, model: Model, slice: BatchSlice,
                  policy: Policy, cfg: Config)
    requires Sweeping(d, w, e, v, k, selected, budget, model, policy, cfg) && Dealing(d, e, k, selected, budget, policy)
    requires k < |d.running| && k < |e.running| && e.running[k] == d.running[k] < |e.states| && budget > 0
    requires Dealt(d.states, d.running, selected, policy) && SliceOf(e.states[d.running[k]], budget, policy) == Some(slice)
    ensures Dealt(d.states, d.running, selected + [Pick(d.running[k], slice)], policy)
  {
    hide Roomy, Affordable, Rested, Picked, Ahead, SliceOf, Dealt;
    SweptShed(d, w, e, v, selected, policy, cfg);
    assert e.running[k] in e.running;
    DealtMore(d.states, d.running, selected, Pick(d.running[k], slice), policy);
  }

  /** Gives back the tokens of a preempted request that had been selected. */
  method Unpick(selected: seq<Pick>, victim: nat, budget: nat) returns (picks: seq<Pick>, left: nat)
    requires forall i, j :: 0 <= i < j < |selected| ==> selected[i].index != selected[j].index
    ensures (forall k :: 0 <= k < |selected| ==> selected[k].index != victim) ==> picks == selected && left == budget
    ensures forall k :: 0 <= k < |picks| ==> picks[k].index != victim && picks[k] in selected
    ensures forall k :: 0 <= k < |selected| && selected[k].index != victim ==> selected[k] in picks
    ensures forall k :: 0 <= k < |selected| && selected[k].index == victim ==> left == budget + selected[k].slice.count
  {
    picks, left := selected, budget;
    for k := 0 to |selected|
      invariant picks == selected && left == budget
      invariant forall j :: 0 <= j < k ==> selected[j].index != victim
    {
      if selected[k].index == victim {
        picks := selected[..k] + selected[k + 1..];
        left := budget + selected[k].slice.count;
        forall j | 0 <= j < |selected| && selected[j].index != victim ensures selected[j] in picks {
          assert selected[j] == (if j < k then picks[j] else picks[j - 1]);
        }
        return;
      }
    }
  }

  /** Everyone who runs or resumes has arrived, so the lists are as the scheduler takes them; the
      arrived others follow the resumed ones. */
  lemma LineUp(d: Desk, w: World, arrived: seq<nat>, now: nat, frontierNs: nat, policy: Policy)
    requires Rested(d, w, policy) && Timely(d, frontierNs) && frontierNs <= now && Distinctive(arrived) && arrived != []
    requires forall i :: i in arrived <==> 0 <= i < |d.states| && !d.states[i].complete && d.states[i].request.arrival <= now
    ensures Among(d.running, arrived) == d.running && Among(d.resumed, arrived) == d.resumed
    ensures Lined(d, d.resumed + Besides(arrived, d.running, d.resumed), now) && Timely(d, now)
    ensures forall i :: i in d.running ==> i < |d.states|
  {
    hide Rested, Timely, Distinctive, Lined;
    ListsApart(d, w, policy);
    Arrived(d, arrived, now, frontierNs);
    AmongIs(d.running, arrived);
    AmongIs(d.resumed, arrived);
    LineUpWaiting(d, arrived, now);
  }

  lemma LineUpWaiting(d: Desk, arrived: seq<nat>, now: nat)
    requires Distinctive(arrived) && arrived != [] && Distinctive(d.resumed)
    requires forall i :: i in arrived ==> i < |d.states| && !d.states[i].complete && d.states[i].request.arrival <= now
    requires forall i :: i in d.resumed ==> i !in d.running && i in arrived
    ensures Lined(d, d.resumed + Besides(arrived, d.running, d.resumed), now)
  {
    hide Distinctive;
    var others := Besides(arrived, d.running, d.resumed);
    BesidesIs(arrived, d.running, d.resumed);
    hide Besides;
    Concatenated(d.resumed, others);
    assert d.running == [] ==> arrived[0] in others || arrived[0] in d.resumed by {
      assert arrived[0] in arrived;
    }
    LinedBy(d, d.resumed + others, arrived, now);
  }

  lemma LinedBy(d: Desk, waiting: seq<nat>, arrived: seq<nat>, now: nat)
    requires Distinctive(waiting) && forall i :: i in waiting ==> i in arrived && i !in d.running
    requires forall i :: i in arrived ==> i < |d.states| && !d.states[i].complete && d.states[i].request.arrival <= now
    requires d.running == [] ==> waiting != []
    ensures Lined(d, waiting, now)
  {
    hide Distinctive;
  }

  lemma ListsApart(d: Desk, w: World, policy: Policy)
    requires Rested(d, w, policy)
    ensures forall i :: i in d.running ==> i < |d.states| && Live(d.states[i]) && i !in d.resumed
    ensures forall i :: i in d.resumed ==> i < |d.states| && Live(d.states[i]) && i !in d.running
    ensures Distinctive(d.running) && Distinctive(d.resumed)
  {
    RestedAgrees(d, w, 0, policy);
    AgreesMeans(d, w, [], 0, policy);
    SeatedMeans(d, policy);
    Apart(d.running, d.resumed);
  }

  lemma LinedLead(d: Desk, waiting: seq<nat>, now: nat)
    requires Lined(d, waiting, now) && d.running == []
    ensures waiting != [] && waiting[0] < |d.states|
  {
    assert waiting[0] in waiting;
  }

  lemma Arrived(d: Desk, arrived: seq<nat>, now: nat, frontierNs: nat)
    requires Timely(d, frontierNs) && frontierNs <= now
    requires forall i :: i in d.running || i in d.resumed ==> i < |d.states| && Live(d.states[i])
    requires forall i :: i in arrived <==> 0 <= i < |d.states| && !d.states[i].complete && d.states[i].request.arrival <= now
    ensures forall i :: i in d.running || i in d.resumed ==> i in arrived
    ensures Timely(d, now)
  {
  }
}
