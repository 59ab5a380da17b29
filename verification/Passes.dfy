/** One scheduling pass, step by step and exactly: the clock and the queue, who is preempted and why, the
    slice everybody gets, who joins from the queue, and why nobody else does.
 */
module Passes {
  import opened PrefixKeys
  import opened PlacementSpec
  import opened KvRuns
  import opened Frontiers
  import opened Rosters
  import opened Desks

  /** The scheduler's lists and the plane at one moment. */
  datatype Point = Point(desk: Desk, world: World)

  // ---------------------------------------------------------------- line-up

  ghost predicate Unfinished(states: seq<RequestState>, i: nat)
  {
    i < |states| && !states[i].complete
  }

  /** The scheduler's time: the plane's, unless nobody unfinished has arrived by then; then the first arrival. */
  ghost predicate Clocked(states: seq<RequestState>, frontierNs: nat, now: nat)
  {
    if exists i: nat :: Unfinished(states, i) && states[i].request.arrival <= frontierNs then now == frontierNs
    else
      && (exists i: nat :: Unfinished(states, i) && states[i].request.arrival == now)
      && forall i: nat :: Unfinished(states, i) ==> now <= states[i].request.arrival
  }

  /** The order of arrival times, then of the trace. */
  predicate Older(states: seq<RequestState>, i: nat, j: nat)
  {
    i < |states| && j < |states| && (states[i].request.arrival < states[j].request.arrival
                                     || (states[i].request.arrival == states[j].request.arrival && i < j))
  }

  /** The resumed requests in their order, then the arrived others, oldest first. */
  ghost predicate Queued(d: Desk, waiting: seq<nat>, now: nat)
  {
    && |d.resumed| <= |waiting| && waiting[..|d.resumed|] == d.resumed
    && var others := waiting[|d.resumed|..];
       && (forall i: nat :: i in others <==> Unfinished(d.states, i) && d.states[i].request.arrival <= now && i !in d.running && i !in d.resumed)
       && forall j, k :: 0 <= j < k < |others| ==> Older(d.states, others[j], others[k])
  }

  /** The batch is for the model of the oldest running request, or else of the first one waiting. */
  ghost predicate Leads(d: Desk, waiting: seq<nat>, model: Model)
  {
    var line := if d.running != [] then d.running else waiting;
    line != [] && line[0] < |d.states| && model == d.states[line[0]].request.model
  }

  // ------------------------------------------------------------- preemption

  /** The youngest running request leaves for the front of the resumed ones: as it is where it was swapped
      out, restarted where its blocks were dropped. */
  ghost predicate Yields(a: Point, b: Point, cfg: Config)
    requires cfg.Valid()
  {
    var d := a.desk;
    && d.running != [] && d.running[|d.running| - 1] < |d.states|
    && var v := d.running[|d.running| - 1];
       var id := d.states[v].request.id;
       && Act(a.world, Preempts(id), cfg) == Some(b.world) && Preempt(a.world.s, id, cfg).Preempted?
       && var dropped := Preempt(a.world.s, id, cfg).mode.Recompute?;
          b.desk == Desk(d.states[v := if dropped then Recomputed(d.states[v]) else d.states[v]],
                         d.running[..|d.running| - 1], [v] + d.resumed,
                         d.tainted || (dropped && !Restartable(d.states[v])))
  }

  lemma YieldsNow(a: Point, b: Point, cfg: Config)
    requires cfg.Valid() && a.desk.running != [] && a.desk.running[|a.desk.running| - 1] < |a.desk.states|
    requires var v := a.desk.running[|a.desk.running| - 1];
      var r := Preempt(a.world.s, a.desk.states[v].request.id, cfg);
      && Act(a.world, Preempts(a.desk.states[v].request.id), cfg) == Some(b.world) && r.Preempted?
      && b.desk == Desk(a.desk.states[v := if r.mode.Recompute? then Recomputed(a.desk.states[v]) else a.desk.states[v]],
                        a.desk.running[..|a.desk.running| - 1], [v] + a.desk.resumed,
                        a.desk.tainted || (r.mode.Recompute? && !Restartable(a.desk.states[v])))
    ensures Yields(a, b, cfg)
  {
  }

  /** Each preemption came when what had been tried could not be reserved. */
  ghost predicate Pressed(trail: seq<Point>, tried: seq<seq<Pick>>, batch: nat, cfg: Config)
    requires cfg.Valid()
  {
    && |trail| == |tried| + 1
    && forall k :: 0 <= k < |tried| ==> Reserve(trail[k].world.s, batch, Plains(tried[k]), cfg).None? && Yields(trail[k], trail[k + 1], cfg)
  }

  // ---------------------------------------------------------------- dealing

  /** What the slices dealt so far leave of the batch's token budget. */
  function Rest(picks: seq<Pick>, policy: Policy): nat
  {
    if Tokens(picks) <= policy.maxTokens then policy.maxTokens - Tokens(picks) else 0
  }

  /** One slice for each request in turn, as much as it can use of what is left. */
  ghost predicate Dealt(states: seq<RequestState>, order: seq<nat>, picks: seq<Pick>, policy: Policy)
  {
    && |picks| <= |order|
    && forall p :: 0 <= p < |picks| ==> DealtAt(states, order, picks, p, policy)
  }

  ghost predicate DealtAt(states: seq<RequestState>, order: seq<nat>, picks: seq<Pick>, p: nat, policy: Policy)
    requires p < |picks| <= |order|
  {
    && picks[p].index == order[p] < |states| && Rest(picks[..p], policy) > 0
    && SliceOf(states[order[p]], Rest(picks[..p], policy), policy) == Some(picks[p].slice)
  }

  /** What was tried: some of the slices that were dealt in the end, and the next request's. */
  ghost predicate Tries(states: seq<RequestState>, order: seq<nat>, picks: seq<Pick>, tried: seq<Pick>, policy: Policy)
  {
    && tried != [] && |tried| - 1 <= |picks| && tried[..|tried| - 1] == picks[..|tried| - 1]
    && Dealt(states, order, tried, policy)
  }

  /** The pass over the running requests: every preemption was forced, and whoever still runs has a slice. */
  ghost predicate SweptOff(a: Point, b: Point, picks: seq<Pick>, trail: seq<Point>, tried: seq<seq<Pick>>, batch: nat, policy: Policy, cfg: Config)
    requires cfg.Valid()
  {
    && Pressed(trail, tried, batch, cfg) && trail[0] == a && trail[|tried|] == b
    && (forall k :: 0 <= k < |tried| ==> Tries(a.desk.states, a.desk.running, picks, tried[k], policy))
    && Dealt(a.desk.states, a.desk.running, picks, policy)
  }

  lemma SweepsNone(a: Point, batch: nat, policy: Policy, cfg: Config)
    requires cfg.Valid()
    ensures SweptOff(a, a, [], [a], [], batch, policy, cfg)
  {
  }

  /** The same slices were tried again and again. */
  function Again(n: nat, picks: seq<Pick>): (tried: seq<seq<Pick>>)
    ensures |tried| == n && forall k :: 0 <= k < n ==> tried[k] == picks
  {
    seq(n, _ => picks)
  }

  lemma PressedNone(a: Point, picks: seq<Pick>, batch: nat, cfg: Config)
    requires cfg.Valid()
    ensures Pressed([a], Again(0, picks), batch, cfg)
  {
  }

  lemma PressedMore(trail: seq<Point>, tried: seq<seq<Pick>>, picks: seq<Pick>, b: Point, batch: nat, cfg: Config)
    requires cfg.Valid() && Pressed(trail, tried, batch, cfg)
    requires Reserve(trail[|tried|].world.s, batch, Plains(picks), cfg).None? && Yields(trail[|tried|], b, cfg)
    ensures Pressed(trail + [b], tried + [picks], batch, cfg)
  {
    hide Yields, Reserve, Plains;
  }

  lemma AgainMore(n: nat, picks: seq<Pick>)
    ensures Again(n, picks) + [picks] == Again(n + 1, picks)
  {
  }

  lemma PressedOn(trail: seq<Point>, picks: seq<Pick>, b: Point, batch: nat, cfg: Config)
    requires cfg.Valid() && trail != [] && Pressed(trail, Again(|trail| - 1, picks), batch, cfg)
    requires Reserve(trail[|trail| - 1].world.s, batch, Plains(picks), cfg).None? && Yields(trail[|trail| - 1], b, cfg)
    ensures Pressed(trail + [b], Again(|trail|, picks), batch, cfg)
  {
    hide Pressed, Yields, Reserve, Plains;
    AgainMore(|trail| - 1, picks);
    PressedMore(trail, Again(|trail| - 1, picks), picks, b, batch, cfg);
  }

  lemma PressedJoin(first: seq<Point>, tried: seq<seq<Pick>>, second: seq<Point>, more: seq<seq<Pick>>, batch: nat, cfg: Config)
    requires cfg.Valid() && Pressed(first, tried, batch, cfg) && Pressed(second, more, batch, cfg) && second[0] == first[|tried|]
    ensures Pressed(first + second[1..], tried + more, batch, cfg)
    ensures (first + second[1..])[0] == first[0] && (first + second[1..])[|tried + more|] == second[|more|]
  {
    hide Yields, Reserve, Plains;
    var trail, all := first + second[1..], tried + more;
    forall k | 0 <= k < |all| ensures Reserve(trail[k].world.s, batch, Plains(all[k]), cfg).None? && Yields(trail[k], trail[k + 1], cfg) {
      if k < |tried| {
        assert all[k] == tried[k] && trail[k] == first[k] && trail[k + 1] == first[k + 1];
      } else {
        var j := k - |tried|;
        assert all[k] == more[j] && trail[k + 1] == second[j + 1] && trail[k] == second[j];
      }
    }
  }

  lemma DealtMore(states: seq<RequestState>, order: seq<nat>, picks: seq<Pick>, pick: Pick, policy: Policy)
    requires Dealt(states, order, picks, policy) && |picks| < |order| && pick.index == order[|picks|] < |states|
    requires Rest(picks, policy) > 0 && SliceOf(states[pick.index], Rest(picks, policy), policy) == Some(pick.slice)
    ensures Dealt(states, order, picks + [pick], policy)
  {
    hide SliceOf, Rest;
    var longer := picks + [pick];
    forall p | 0 <= p < |longer| ensures DealtAt(states, order, longer, p, policy) {
      assert longer[..p] == picks[..p];
      if p < |picks| {
        assert DealtAt(states, order, picks, p, policy);
      } else {
        assert picks[..p] == picks;
      }
    }
  }

  /** The pass goes on with one more request. */
  lemma SweepsMore(a: Point, b: Point, c: Point, picks: seq<Pick>, pick: Pick, kept: bool, trail: seq<Point>, tried: seq<seq<Pick>>,
                   second: seq<Point>, batch: nat, policy: Policy, cfg: Config)
    requires cfg.Valid() && SweptOff(a, b, picks, trail, tried, batch, policy, cfg) && second != []
    requires Pressed(second, Again(|second| - 1, picks + [pick]), batch, cfg) && second[0] == b && second[|second| - 1] == c
    requires Dealt(a.desk.states, a.desk.running, picks + [pick], policy)
    ensures SweptOff(a, c, if kept then picks + [pick] else picks, trail + second[1..], tried + Again(|second| - 1, picks + [pick]), batch, policy, cfg)
  {
    hide Pressed, Dealt, Again;
    var more, now := Again(|second| - 1, picks + [pick]), if kept then picks + [pick] else picks;
    PressedLengths(trail, tried, batch, cfg);
    AgainIs(|second| - 1, picks + [pick]);
    PressedJoin(trail, tried, second, more, batch, cfg);
    forall k | 0 <= k < |tried + more| ensures Tries(a.desk.states, a.desk.running, now, (tried + more)[k], policy) {
      if k < |tried| {
        TriesOn(a.desk.states, a.desk.running, picks, pick, tried[k], policy);
        assert (tried + more)[k] == tried[k];
      } else {
        assert (tried + more)[k] == more[k - |tried|] == picks + [pick];
        TriesNow(a.desk.states, a.desk.running, picks, pick, policy);
      }
    }
  }

  lemma SweepsDealt(a: Point, b: Point, picks: seq<Pick>, trail: seq<Point>, tried: seq<seq<Pick>>, batch: nat, policy: Policy, cfg: Config)
    requires cfg.Valid() && SweptOff(a, b, picks, trail, tried, batch, policy, cfg)
    ensures Dealt(a.desk.states, a.desk.running, picks, policy)
  {
  }

  /** Each preemption takes one request off the running ones. */
  lemma {:induction false} PressedShorter(trail: seq<Point>, tried: seq<seq<Pick>>, k: nat, batch: nat, cfg: Config)
    requires cfg.Valid() && Pressed(trail, tried, batch, cfg) && k <= |tried|
    ensures |trail[k].desk.running| + k == |trail[0].desk.running|
  {
    if k > 0 {
      PressedShorter(trail, tried, k - 1, batch, cfg);
      assert Yields(trail[k - 1], trail[k], cfg) by {
        hide Yields;
        assert k == (k - 1) + 1;
      }
    }
  }

  lemma SweepsShorter(a: Point, b: Point, picks: seq<Pick>, trail: seq<Point>, tried: seq<seq<Pick>>, batch: nat, policy: Policy, cfg: Config)
    requires cfg.Valid() && SweptOff(a, b, picks, trail, tried, batch, policy, cfg)
    ensures tried != [] <==> |b.desk.running| < |a.desk.running|
  {
    hide Pressed;
    PressedLengths(trail, tried, batch, cfg);
    PressedShorter(trail, tried, |tried|, batch, cfg);
  }

  lemma AgainIs(n: nat, picks: seq<Pick>)
    ensures |Again(n, picks)| == n && forall k :: 0 <= k < n ==> Again(n, picks)[k] == picks
  {
  }

  lemma PressedLengths(trail: seq<Point>, tried: seq<seq<Pick>>, batch: nat, cfg: Config)
    requires cfg.Valid() && Pressed(trail, tried, batch, cfg)
    ensures |trail| == |tried| + 1
  {
  }

  lemma TriesOn(states: seq<RequestState>, order: seq<nat>, picks: seq<Pick>, pick: Pick, tried: seq<Pick>, policy: Policy)
    requires Tries(states, order, picks, tried, policy)
    ensures Tries(states, order, picks + [pick], tried, policy)
  {
    hide Dealt;
    assert (picks + [pick])[..|tried| - 1] == picks[..|tried| - 1];
  }

  lemma TriesNow(states: seq<RequestState>, order: seq<nat>, picks: seq<Pick>, pick: Pick, policy: Policy)
    requires Dealt(states, order, picks + [pick], policy)
    ensures Tries(states, order, picks, picks + [pick], policy) && Tries(states, order, picks + [pick], picks + [pick], policy)
  {
    hide Dealt;
    assert (picks + [pick])[..|picks|] == picks && picks[..|picks|] == picks;
  }

  // ---------------------------------------------------------------- joining

  /** The requests of the queue that are of the batch's model, in their order. */
  function ModelLine(states: seq<RequestState>, waiting: seq<nat>, model: Model): seq<nat>
  {
    if waiting == [] then []
    else
      var n := |waiting| - 1;
      ModelLine(states, waiting[..n], model) + (if waiting[n] < |states| && states[waiting[n]].request.model == model then [waiting[n]] else [])
  }

  /** A request that is new to the plane is admitted behind its cached prefix; one that was there stays. */
  ghost predicate Enters(a: Point, world: World, st: RequestState, i: nat, now: nat, cfg: Config)
    requires cfg.Valid()
  {
    && i < |a.desk.states|
    && var was := a.desk.states[i];
       if was.admitted then world == a.world && st == was
       else
         && Act(a.world, Admits(was.request, now), cfg) == Some(world) && was.request.id in world.frontier
         && st == was.(processed := world.frontier[was.request.id], admitted := true)
  }

  /** The request runs, behind all others, and its slice is reserved with theirs. */
  ghost predicate Joins(a: Point, b: Point, picks: seq<Pick>, pick: Pick, batch: nat, now: nat, policy: Policy, cfg: Config)
    requires cfg.Valid()
  {
    && |a.desk.running| < policy.maxRequests && Rest(picks, policy) > 0
    && exists world, st :: EnteredJoins(a, b, world, st, picks, pick, batch, now, policy, cfg)
  }

  ghost predicate EnteredJoins(a: Point, b: Point, world: World, st: RequestState, picks: seq<Pick>, pick: Pick, batch: nat, now: nat,
                               policy: Policy, cfg: Config)
    requires cfg.Valid()
  {
    && Enters(a, world, st, pick.index, now, cfg) && SliceOf(st, Rest(picks, policy), policy) == Some(pick.slice)
    && Act(world, Reserves(batch, [pick.slice.Plain()]), cfg) == Some(b.world)
    && b.desk == a.desk.(states := a.desk.states[pick.index := st], running := a.desk.running + [pick.index],
                         resumed := Without(a.desk.resumed, pick.index))
  }

  /** The slice does not fit beside the others, and what is new is forgotten again. */
  ghost predicate Rejects(a: Point, b: Point, world: World, st: RequestState, i: nat, picks: seq<Pick>, slice: BatchSlice, batch: nat,
                          now: nat, policy: Policy, cfg: Config)
    requires cfg.Valid()
  {
    && Enters(a, world, st, i, now, cfg) && SliceOf(st, Rest(picks, policy), policy) == Some(slice)
    && Reserve(world.s, batch, Plains(picks) + [slice.Plain()], cfg).None?
    && b.desk == a.desk
    && if a.desk.states[i].admitted then b.world == a.world else Act(world, Releases(st.request.id), cfg) == Some(b.world)
  }

  /** Why the next request does not join: no tokens or no place in the batch are left, or it does not fit. */
  ghost predicate Stays(a: Point, b: Point, i: nat, picks: seq<Pick>, batch: nat, now: nat, policy: Policy, cfg: Config)
    requires cfg.Valid()
  {
    if Rest(picks, policy) == 0 || |a.desk.running| >= policy.maxRequests then b == a
    else exists world, st, slice :: Rejects(a, b, world, st, i, picks, slice, batch, now, policy, cfg)
  }

  /** The first requests of the queue have joined one after the other. */
  ghost predicate Joined(trail: seq<Point>, queue: seq<nat>, first: seq<Pick>, picks: seq<Pick>, batch: nat, now: nat, policy: Policy, cfg: Config)
    requires cfg.Valid()
  {
    && |first| <= |picks| && picks[..|first|] == first && |trail| == |picks| - |first| + 1 <= |queue| + 1
    && forall k :: 0 <= k < |trail| - 1 ==>
         && picks[|first| + k].index == queue[k]
         && Joins(trail[k], trail[k + 1], picks[..|first| + k], picks[|first| + k], batch, now, policy, cfg)
  }

  /** The pass over the queue: it ends with the queue, or at the first request that has to stay. */
  ghost predicate Fills(a: Point, b: Point, queue: seq<nat>, first: seq<Pick>, picks: seq<Pick>, trail: seq<Point>, batch: nat, now: nat,
                        policy: Policy, cfg: Config)
    requires cfg.Valid()
  {
    && Joined(trail, queue, first, picks, batch, now, policy, cfg) && trail[0] == a
    && var n := |trail| - 1;
       if n == |queue| then b == trail[n] else Stays(trail[n], b, queue[n], picks, batch, now, policy, cfg)
  }

  lemma JoinedNone(a: Point, first: seq<Pick>, batch: nat, now: nat, policy: Policy, cfg: Config)
    requires cfg.Valid()
    ensures Joined([a], [], first, first, batch, now, policy, cfg)
  {
    assert first[..|first|] == first;
  }

  lemma JoinedMore(trail: seq<Point>, queue: seq<nat>, first: seq<Pick>, picks: seq<Pick>, pick: Pick, b: Point, batch: nat, now: nat,
                   policy: Policy, cfg: Config)
    requires cfg.Valid() && Joined(trail, queue, first, picks, batch, now, policy, cfg) && |trail| == |queue| + 1
    requires Joins(trail[|queue|], b, picks, pick, batch, now, policy, cfg)
    ensures Joined(trail + [b], queue + [pick.index], first, picks + [pick], batch, now, policy, cfg)
  {
    hide Joins;
    var longer, n := picks + [pick], |first|;
    assert longer[..n] == picks[..n];
    forall k | 0 <= k < |trail|
      ensures longer[n + k].index == (queue + [pick.index])[k]
      ensures Joins((trail + [b])[k], (trail + [b])[k + 1], longer[..n + k], longer[n + k], batch, now, policy, cfg)
    {
      assert longer[..n + k] == picks[..n + k];
      if k < |queue| {
        assert longer[n + k] == picks[n + k];
      } else {
        assert picks[..n + k] == picks;
      }
    }
  }

  lemma {:induction false} ModelLineStarts(states: seq<RequestState>, waiting: seq<nat>, k: nat, model: Model)
    requires k <= |waiting|
    ensures |ModelLine(states, waiting[..k], model)| <= |ModelLine(states, waiting, model)|
    ensures ModelLine(states, waiting[..k], model) == ModelLine(states, waiting, model)[..|ModelLine(states, waiting[..k], model)|]
    decreases |waiting| - k
  {
    if k < |waiting| {
      ModelLineStarts(states, waiting, k + 1, model);
      assert waiting[..k + 1][..k] == waiting[..k];
      var shorter, longer, all := ModelLine(states, waiting[..k], model), ModelLine(states, waiting[..k + 1], model), ModelLine(states, waiting, model);
      assert shorter == longer[..|shorter|];
      assert shorter == all[..|longer|][..|shorter|];
    } else {
      assert waiting[..k] == waiting;
    }
  }

  lemma ModelLineNext(states: seq<RequestState>, waiting: seq<nat>, k: nat, model: Model)
    requires k < |waiting|
    ensures ModelLine(states, waiting[..k + 1], model) ==
      ModelLine(states, waiting[..k], model) + (if waiting[k] < |states| && states[waiting[k]].request.model == model then [waiting[k]] else [])
  {
    assert waiting[..k + 1][..k] == waiting[..k];
  }

  /** The pass stops at a request of the batch's model, or with the queue. */
  lemma FillsAt(a: Point, b: Point, c: Point, states: seq<RequestState>, waiting: seq<nat>, k: nat, model: Model, first: seq<Pick>,
                picks: seq<Pick>, trail: seq<Point>, batch: nat, now: nat, policy: Policy, cfg: Config)
    requires cfg.Valid() && k <= |waiting| && Joined(trail, ModelLine(states, waiting[..k], model), first, picks, batch, now, policy, cfg)
    requires |trail| == |ModelLine(states, waiting[..k], model)| + 1 && trail[0] == a && trail[|trail| - 1] == b
    requires if k == |waiting| then c == b
             else waiting[k] < |states| && states[waiting[k]].request.model == model && Stays(b, c, waiting[k], picks, batch, now, policy, cfg)
    ensures Fills(a, c, ModelLine(states, waiting, model), first, picks, trail, batch, now, policy, cfg)
  {
    hide Stays, Joins;
    var part, queue := ModelLine(states, waiting[..k], model), ModelLine(states, waiting, model);
    ModelLineStarts(states, waiting, k, model);
    forall j | 0 <= j < |part| ensures part[j] == queue[j] {
      assert queue[..|part|][j] == queue[j];
    }
    if k == |waiting| {
      assert waiting[..k] == waiting;
    } else {
      ModelLineNext(states, waiting, k, model);
      ModelLineStarts(states, waiting, k + 1, model);
      var more := ModelLine(states, waiting[..k + 1], model);
      assert more == part + [waiting[k]];
      assert queue[..|more|][|part|] == queue[|part|];
    }
  }

  lemma EntersResumed(a: Point, i: nat, now: nat, cfg: Config)
    requires cfg.Valid() && i < |a.desk.states| && a.desk.states[i].admitted
    ensures Enters(a, a.world, a.desk.states[i], i, now, cfg)
  {
  }

  lemma StaysFull(a: Point, i: nat, picks: seq<Pick>, batch: nat, now: nat, policy: Policy, cfg: Config)
    requires cfg.Valid() && (Rest(picks, policy) == 0 || |a.desk.running| >= policy.maxRequests)
    ensures Stays(a, a, i, picks, batch, now, policy, cfg)
  {
  }

  lemma StaysNow(a: Point, b: Point, world: World, st: RequestState, i: nat, picks: seq<Pick>, slice: BatchSlice, batch: nat, now: nat,
                 policy: Policy, cfg: Config)
    requires cfg.Valid() && Enters(a, world, st, i, now, cfg) && SliceOf(st, Rest(picks, policy), policy) == Some(slice)
    requires Reserve(world.s, batch, Plains(picks) + [slice.Plain()], cfg).None? && b.desk == a.desk && i < |a.desk.states|
    requires Rest(picks, policy) > 0 && |a.desk.running| < policy.maxRequests
    requires if a.desk.states[i].admitted then b.world == world else Act(world, Releases(a.desk.states[i].request.id), cfg) == Some(b.world)
    ensures Stays(a, b, i, picks, batch, now, policy, cfg)
  {
    EntersSame(a, world, st, i, now, cfg);
    hide Enters, SliceOf, Rest, Reserve, Act;
    assert Rejects(a, b, world, st, i, picks, slice, batch, now, policy, cfg);
  }

  lemma EntersSame(a: Point, world: World, st: RequestState, i: nat, now: nat, cfg: Config)
    requires cfg.Valid() && Enters(a, world, st, i, now, cfg)
    ensures i < |a.desk.states| && st.request == a.desk.states[i].request && (a.desk.states[i].admitted ==> world == a.world)
  {
    hide Act;
  }

  lemma JoinsNow(a: Point, b: Point, world: World, st: RequestState, picks: seq<Pick>, pick: Pick, batch: nat, now: nat,
                 policy: Policy, cfg: Config)
    requires cfg.Valid() && Enters(a, world, st, pick.index, now, cfg) && SliceOf(st, Rest(picks, policy), policy) == Some(pick.slice)
    requires Rest(picks, policy) > 0 && |a.desk.running| < policy.maxRequests && pick.index < |a.desk.states|
    requires Act(world, Reserves(batch, [pick.slice.Plain()]), cfg) == Some(b.world)
    requires b.desk == a.desk.(states := a.desk.states[pick.index := st], running := a.desk.running + [pick.index],
                               resumed := Without(a.desk.resumed, pick.index))
    ensures Joins(a, b, picks, pick, batch, now, policy, cfg)
  {
    hide Enters, SliceOf, Rest, Act;
    assert EnteredJoins(a, b, world, st, picks, pick, batch, now, policy, cfg);
  }

  /** The queue has been gone through up to here, and everybody of the model has joined. */
  ghost predicate Joining(trail: seq<Point>, a: Point, b: Point, seen: seq<nat>, model: Model, first: seq<Pick>, picks: seq<Pick>, batch: nat,
                          now: nat, policy: Policy, cfg: Config)
    requires cfg.Valid()
  {
    && Joined(trail, ModelLine(a.desk.states, seen, model), first, picks, batch, now, policy, cfg)
    && |trail| == |ModelLine(a.desk.states, seen, model)| + 1 && trail[0] == a && trail[|trail| - 1] == b
  }

  lemma FillsNone(a: Point, states: seq<RequestState>, waiting: seq<nat>, model: Model, first: seq<Pick>, batch: nat, now: nat,
                  policy: Policy, cfg: Config)
    requires cfg.Valid() && states == a.desk.states
    ensures Joining([a], a, a, waiting[..0], model, first, first, batch, now, policy, cfg)
  {
    JoinedNone(a, first, batch, now, policy, cfg);
    assert waiting[..0] == [];
  }

  lemma JoiningSkip(trail: seq<Point>, a: Point, b: Point, waiting: seq<nat>, k: nat, model: Model, first: seq<Pick>, picks: seq<Pick>,
                    batch: nat, now: nat, policy: Policy, cfg: Config)
    requires cfg.Valid() && k < |waiting| && Joining(trail, a, b, waiting[..k], model, first, picks, batch, now, policy, cfg)
    requires waiting[k] < |a.desk.states| && a.desk.states[waiting[k]].request.model != model
    ensures Joining(trail, a, b, waiting[..k + 1], model, first, picks, batch, now, policy, cfg)
  {
    hide Joined;
    ModelLineNext(a.desk.states, waiting, k, model);
    assert ModelLine(a.desk.states, waiting[..k], model) + [] == ModelLine(a.desk.states, waiting[..k], model);
  }

  lemma JoiningMore(trail: seq<Point>, a: Point, b: Point, c: Point, waiting: seq<nat>, k: nat, model: Model, first: seq<Pick>,
                    picks: seq<Pick>, pick: Pick, batch: nat, now: nat, policy: Policy, cfg: Config)
    requires cfg.Valid() && k < |waiting| && Joining(trail, a, b, waiting[..k], model, first, picks, batch, now, policy, cfg)
    requires waiting[k] < |a.desk.states| && a.desk.states[waiting[k]].request.model == model && pick.index == waiting[k]
    requires Joins(b, c, picks, pick, batch, now, policy, cfg)
    ensures Joining(trail + [c], a, c, waiting[..k + 1], model, first, picks + [pick], batch, now, policy, cfg)
  {
    hide Joined, Joins;
    ModelLineNext(a.desk.states, waiting, k, model);
    JoinedMore(trail, ModelLine(a.desk.states, waiting[..k], model), first, picks, pick, c, batch, now, policy, cfg);
  }

  lemma JoiningStops(trail: seq<Point>, a: Point, b: Point, c: Point, waiting: seq<nat>, k: nat, model: Model, first: seq<Pick>,
                     picks: seq<Pick>, batch: nat, now: nat, policy: Policy, cfg: Config)
    requires cfg.Valid() && k < |waiting| && Joining(trail, a, b, waiting[..k], model, first, picks, batch, now, policy, cfg)
    requires waiting[k] < |a.desk.states| && a.desk.states[waiting[k]].request.model == model
    requires Stays(b, c, waiting[k], picks, batch, now, policy, cfg)
    ensures Fills(a, c, ModelLine(a.desk.states, waiting, model), first, picks, trail, batch, now, policy, cfg)
  {
    hide Joined, Stays, Fills;
    FillsAt(a, b, c, a.desk.states, waiting, k, model, first, picks, trail, batch, now, policy, cfg);
  }

  lemma JoiningEnds(trail: seq<Point>, a: Point, b: Point, waiting: seq<nat>, model: Model, first: seq<Pick>, picks: seq<Pick>,
                    batch: nat, now: nat, policy: Policy, cfg: Config)
    requires cfg.Valid() && Joining(trail, a, b, waiting, model, first, picks, batch, now, policy, cfg)
    ensures Fills(a, b, ModelLine(a.desk.states, waiting, model), first, picks, trail, batch, now, policy, cfg)
  {
    hide Joined, Stays, Fills;
    assert waiting[..|waiting|] == waiting;
    FillsAt(a, b, b, a.desk.states, waiting, |waiting|, model, first, picks, trail, batch, now, policy, cfg);
  }

  // --------------------------------------------------------------- one pass

  /** A pass from one rest to the next: the sweep, the reservation of what it dealt, and, unless somebody
      had to go, the queue. */
  datatype Pass = Pass(start: Point, swept: Point, mid: Point, finish: Point, frontierNs: nat, now: nat, waiting: seq<nat>, model: Model,
                       first: seq<Pick>, picks: seq<Pick>, trail: seq<Point>, tried: seq<seq<Pick>>, joined: seq<Point>)
  {
    ghost predicate Follows(batch: nat, policy: Policy, cfg: Config)
      requires cfg.Valid()
    {
      && Clocked(start.desk.states, frontierNs, now) && Queued(start.desk, waiting, now) && Leads(start.desk, waiting, model)
      && SweptOff(start, swept, first, trail, tried, batch, policy, cfg) && |first| == |swept.desk.running|
      && mid.desk == swept.desk
      && (if first == [] then mid.world == swept.world
          else Act(swept.world, Reserves(batch, Plains(first)), cfg) == Some(mid.world))
      && if tried != [] then finish == mid && picks == first
         else Fills(mid, finish, ModelLine(start.desk.states, waiting, model), first, picks, joined, batch, frontierNs, policy, cfg)
    }
  }

  /** A completed slice is booked: the request's frontier moves on, and a request that is done goes. */
  ghost predicate Books(a: Point, b: Point, pick: Pick, cfg: Config)
    requires cfg.Valid()
  {
    && pick.index < |a.desk.states| && Advance(a.desk.states[pick.index], pick.slice).Some?
    && var st := Advance(a.desk.states[pick.index], pick.slice).value;
       && b.desk == a.desk.(states := a.desk.states[pick.index := st],
                            running := if st.complete then Without(a.desk.running, pick.index) else a.desk.running)
       && if st.complete then Act(a.world, Releases(st.request.id), cfg) == Some(b.world) else b.world == a.world
  }

  /** All slices of a batch are booked in turn. */
  ghost predicate Tallied(trail: seq<Point>, picks: seq<Pick>, a: Point, b: Point, cfg: Config)
    requires cfg.Valid()
  {
    && |trail| == |picks| + 1 && trail[0] == a && trail[|picks|] == b
    && forall k :: 0 <= k < |picks| ==> Books(trail[k], trail[k + 1], picks[k], cfg)
  }

  lemma TallyNone(a: Point, picks: seq<Pick>, cfg: Config)
    requires cfg.Valid()
    ensures Tallied([a], picks[..0], a, a, cfg)
  {
  }

  lemma TallyMore(trail: seq<Point>, picks: seq<Pick>, k: nat, a: Point, b: Point, c: Point, cfg: Config)
    requires cfg.Valid() && k < |picks| && Tallied(trail, picks[..k], a, b, cfg) && Books(b, c, picks[k], cfg)
    ensures Tallied(trail + [c], picks[..k + 1], a, c, cfg)
  {
    hide Books;
    assert picks[..k + 1] == picks[..k] + [picks[k]];
  }

  /** Passes one after the other; all but the last leave nothing to schedule. */
  ghost predicate Chained(passes: seq<Pass>, a: Point, b: Point, picks: seq<Pick>, now: nat, batch: nat, policy: Policy, cfg: Config)
    requires cfg.Valid()
  {
    && passes != [] && passes[0].start == a
    && var n := |passes| - 1;
       && passes[n].finish == b && passes[n].picks == picks && passes[n].now == now
       && (forall k :: 0 <= k < |passes| ==> passes[k].Follows(batch, policy, cfg))
       && forall k :: 0 <= k < n ==> passes[k].picks == [] && passes[k].tried != [] && passes[k + 1].start == passes[k].finish
  }

  lemma PassFills(pass: Pass, batch: nat, policy: Policy, cfg: Config)
    requires cfg.Valid()
    requires Clocked(pass.start.desk.states, pass.frontierNs, pass.now) && Queued(pass.start.desk, pass.waiting, pass.now)
    requires Leads(pass.start.desk, pass.waiting, pass.model) && pass.tried == []
    requires SweptOff(pass.start, pass.swept, pass.first, pass.trail, pass.tried, batch, policy, cfg)
    requires |pass.first| == |pass.swept.desk.running| && pass.mid.desk == pass.swept.desk
    requires if pass.first == [] then pass.mid.world == pass.swept.world
             else Act(pass.swept.world, Reserves(batch, Plains(pass.first)), cfg) == Some(pass.mid.world)
    requires Fills(pass.mid, pass.finish, ModelLine(pass.start.desk.states, pass.waiting, pass.model), pass.first, pass.picks, pass.joined,
                   batch, pass.frontierNs, policy, cfg)
    ensures pass.Follows(batch, policy, cfg)
  {
    hide Clocked, Queued, Leads, SweptOff, Act, Fills, ModelLine;
  }

  lemma PassSheds(pass: Pass, batch: nat, policy: Policy, cfg: Config)
    requires cfg.Valid()
    requires Clocked(pass.start.desk.states, pass.frontierNs, pass.now) && Queued(pass.start.desk, pass.waiting, pass.now)
    requires Leads(pass.start.desk, pass.waiting, pass.model) && pass.tried != []
    requires SweptOff(pass.start, pass.swept, pass.first, pass.trail, pass.tried, batch, policy, cfg)
    requires |pass.first| == |pass.swept.desk.running| && pass.mid.desk == pass.swept.desk
    requires if pass.first == [] then pass.mid.world == pass.swept.world
             else Act(pass.swept.world, Reserves(batch, Plains(pass.first)), cfg) == Some(pass.mid.world)
    requires pass.finish == pass.mid && pass.picks == pass.first
    ensures pass.Follows(batch, policy, cfg)
  {
    hide Clocked, Queued, Leads, SweptOff, Act, Fills, ModelLine;
  }

  lemma ChainMore(pass: Pass, passes: seq<Pass>, a: Point, b: Point, c: Point, picks: seq<Pick>, now: nat, batch: nat, policy: Policy, cfg: Config)
    requires cfg.Valid() && pass.Follows(batch, policy, cfg) && pass.start == a && pass.finish == b && pass.picks == [] && pass.tried != []
    requires Chained(passes, b, c, picks, now, batch, policy, cfg)
    ensures Chained([pass] + passes, a, c, picks, now, batch, policy, cfg)
  {
    hide Pass.Follows;
    var all := [pass] + passes;
    forall k | 0 <= k < |all| ensures all[k].Follows(batch, policy, cfg) {
      assert k > 0 ==> all[k] == passes[k - 1];
    }
    forall k | 0 <= k < |all| - 1 ensures all[k].picks == [] && all[k].tried != [] && all[k + 1].start == all[k].finish {
      assert k > 0 ==> all[k] == passes[k - 1] && all[k + 1] == passes[k];
    }
  }

  lemma ChainOne(pass: Pass, batch: nat, policy: Policy, cfg: Config)
    requires cfg.Valid() && pass.Follows(batch, policy, cfg)
    ensures Chained([pass], pass.start, pass.finish, pass.picks, pass.now, batch, policy, cfg)
  {
    hide Pass.Follows;
  }
}
