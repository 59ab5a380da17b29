/** A request that the engine can drive into a broken frontier, call by call: four tokens of output
    behind a prompt of two, in a pool of three blocks.
 */
module Traps {
  import opened PrefixKeys
  import opened PlacementSpec
  import opened PlacementInvariant
  import opened PlannerSoundness
  import opened KvMemory
  import opened KvSteps
  import opened KvRuns
  import opened WorldFacts
  import opened LeanPlane
  import opened Replays
  import opened Frontiers
  import KvRefinement

  /** What the engine and the plane know of the one request. */
  datatype Scene = Scene(st: RequestState, w: World)

  /** The request's next chunk is reserved, executed and booked. */
  ghost predicate Served(a: Scene, b: Scene, batch: nat, policy: Policy, cfg: Config)
    requires cfg.Valid()
  {
    && SliceOf(a.st, policy.maxTokens, policy).Some?
    && var slice := SliceOf(a.st, policy.maxTokens, policy).value;
       && Play(a.w, [Reserves(batch, [slice.Plain()]), Executes(0)], cfg) == Some(b.w)
       && Advance(a.st, slice) == Some(b.st)
  }

  /** The reservation of its next chunk is refused, and it is preempted and recomputed. */
  ghost predicate Refused(a: Scene, b: Scene, batch: nat, policy: Policy, cfg: Config)
    requires cfg.Valid()
  {
    && SliceOf(a.st, policy.maxTokens, policy).Some?
    && Reserve(a.w.s, batch, [SliceOf(a.st, policy.maxTokens, policy).value.Plain()], cfg).None?
    && Preempt(a.w.s, a.st.request.id, cfg).Preempted? && Preempt(a.w.s, a.st.request.id, cfg).mode.Recompute?
    && Act(a.w, Preempts(a.st.request.id), cfg) == Some(b.w) && b.st == Recomputed(a.st)
  }

  const Blocks: nat := 3

  /** The request is alone, its blocks are exactly those in use, and engine and plane agree. */
  ghost predicate Lone(a: Scene, width: nat, cfg: Config)
  {
    && Lean(cfg) && cfg.blockTokens == 1 && Sound(a.w, cfg) && a.st.request.Valid() && a.st.request.model.layers == 1
    && var id := a.st.request.id;
       && a.w.s.kv.Keys == {id} && a.w.s.kv[id].request == a.st.request && a.w.s.kv[id].Width() == width <= Blocks
       && a.w.frontier == map[id := a.st.processed] && a.w.reserved == [] && a.w.arriving <= {id}
       && a.w.s.entries == [] && a.w.s.pendingBatch.None?
       && a.w.s.hot.capacity == Blocks && a.w.s.hot.Free() == Blocks - width
  }

  /** The chunk fits exactly if it ends within the pool. */
  lemma LoneReserves(a: Scene, width: nat, batch: nat, slice: Slice, cfg: Config)
    requires Lone(a, width, cfg) && slice.request == a.st.request.id && slice.count > 0 && width <= slice.End()
    ensures Reserve(a.w.s, batch, [slice], cfg).Some? <==> slice.End() <= Blocks
    ensures Reserve(a.w.s, batch, [slice], cfg).Some? ==>
      var t := Reserve(a.w.s, batch, [slice], cfg).value;
      && t.kv.Keys == a.w.s.kv.Keys && t.kv[slice.request].request == a.st.request && t.kv[slice.request].Width() == slice.End()
      && t.entries == [] && t.hot.capacity == Blocks && t.hot.Free() == Blocks - slice.End()
  {
    hide Sound, Inv, ReserveAll, Reserve, ReserveOne;
    var s, slices, id := a.w.s, [slice], slice.request;
    SoundInv(a.w, cfg);
    AllHere(s, cfg);
    OneGrowth(s, slice, cfg);
    LeanReserve(s, batch, slices, cfg);
    if Reserve(s, batch, slices, cfg).Some? {
      AfterMeans(s, ReserveAll(s, batch, slices, cfg).value, batch, slices, cfg);
      OneWidth(s, batch, slice, cfg);
      ReserveCapacity(s, batch, slices, cfg);
    }
  }

  lemma SoundInv(w: World, cfg: Config)
    requires Sound(w, cfg)
    ensures Inv(w.s, cfg)
  {
  }

  lemma OneGrowth(s: State, slice: Slice, cfg: Config)
    requires cfg.Valid() && cfg.blockTokens == 1 && slice.request in s.kv && s.kv[slice.request].request.model.layers == 1
    requires s.kv[slice.request].Width() <= slice.End()
    ensures GrowthSum(s.kv, [slice], cfg) == Grow(s.kv[slice.request], slice.End(), 1) == slice.End() - s.kv[slice.request].Width()
  {
    assert [slice][1..] == [];
    assert GrowthSum(s.kv, [], cfg) == 0;
  }

  lemma OneWidth(s: State, batch: nat, slice: Slice, cfg: Config)
    requires Lean(cfg) && cfg.blockTokens == 1 && Inv(s, cfg) && slice.request in s.kv && s.kv[slice.request].tier.Hot?
    requires s.kv[slice.request].Width() <= slice.End() && slice.count > 0
    ensures ReserveAll(s, batch, [slice], cfg).Some? ==>
      var t := ReserveAll(s, batch, [slice], cfg).value;
      slice.request in t.kv && t.kv[slice.request].Width() == slice.End() && t.kv[slice.request].request == s.kv[slice.request].request
  {
    hide Inv, GrowTable;
    var grow := Grow(s.kv[slice.request], slice.End(), 1);
    assert [slice][1..] == [];
    if GrowTable(s, slice.request, grow).Some? {
      GrowInv(s, slice.request, grow, cfg);
      GrowFree(s, slice.request, grow, cfg);
    }
  }

  /** A chunk is served. */
  lemma Serves(a: Scene, width: nat, batch: nat, policy: Policy, cfg: Config) returns (b: Scene)
    requires Lone(a, width, cfg) && SliceOf(a.st, policy.maxTokens, policy).Some?
    requires var slice := SliceOf(a.st, policy.maxTokens, policy).value;
      && slice.begin == a.st.processed && slice.request == a.st.request.id && slice.count > 0
      && width <= slice.End() <= Blocks && slice.End() <= a.st.request.Lifetime()
      && Advance(a.st, slice).Some? && Advance(a.st, slice).value.processed == slice.End() && Advance(a.st, slice).value.request == a.st.request
    ensures Served(a, b, batch, policy, cfg) && Lone(b, SliceOf(a.st, policy.maxTokens, policy).value.End(), cfg)
    ensures b.st == Advance(a.st, SliceOf(a.st, policy.maxTokens, policy).value).value && b.w.arriving == {}
  {
    hide Sound, Act, Reserve, Inv, SliceOf, Advance;
    var slice := SliceOf(a.st, policy.maxTokens, policy).value;
    var more := [slice.Plain()];
    LoneReserves(a, width, batch, slice.Plain(), cfg);
    assert a.w.reserved + more == more;
    OneProper(a.w, slice.Plain());
    ReservesFacts(a.w, batch, more, cfg);
    var mid := Act(a.w, Reserves(batch, more), cfg).value;
    ActSound(a.w, Reserves(batch, more), cfg);
    ExecutesFacts(mid, 0, cfg);
    ActSound(mid, Executes(0), cfg);
    var next := Act(mid, Executes(0), cfg).value;
    LeanExecutes(mid, 0, cfg);
    OneAdvanced(a.w.frontier, slice.Plain());
    b := Scene(Advance(a.st, slice).value, next);
    TwoPlayed(a.w, mid, next, Reserves(batch, more), Executes(0), cfg);
  }

  lemma OneProper(w: World, slice: Slice)
    requires w.reserved == [] && slice.count > 0 && slice.request in w.s.kv && slice.request in w.frontier
    requires slice.begin == w.frontier[slice.request] && slice.End() <= w.s.kv[slice.request].request.Lifetime()
    requires w.arriving <= {slice.request}
    ensures Proper(w, [slice])
  {
    assert w.reserved + [slice] == [slice];
    assert [slice][0].request in InBatch([slice]);
  }

  lemma OneAdvanced(frontier: map<nat, nat>, slice: Slice)
    requires frontier.Keys == {slice.request}
    ensures AdvancedAll(frontier, [slice]) == map[slice.request := slice.End()]
  {
    assert [slice][1..] == [];
    assert frontier[slice.request := slice.End()] == map[slice.request := slice.End()];
  }

  lemma LeanExecutes(w: World, finish: nat, cfg: Config)
    requires Lean(cfg) && Act(w, Executes(finish), cfg).Some?
    ensures Act(w, Executes(finish), cfg).value.s == w.s.(migrations := [], pendingBatch := None)
  {
    hide KvRefinement.Future;
  }

  lemma TwoPlayed(w: World, mid: World, next: World, first: Action, second: Action, cfg: Config)
    requires cfg.Valid() && Act(w, first, cfg) == Some(mid) && Act(mid, second, cfg) == Some(next)
    ensures Play(w, [first, second], cfg) == Some(next)
  {
    hide Act;
    assert [first, second][1..] == [second] && [second][1..] == [];
    PlayNone(next, cfg);
    assert Play(mid, [second], cfg) == Some(next);
  }

  /** A chunk that ends beyond the pool is refused, and the request starts over. */
  lemma Refuses(a: Scene, width: nat, batch: nat, policy: Policy, cfg: Config) returns (b: Scene)
    requires Lone(a, width, cfg) && width > 0 && a.w.arriving == {} && SliceOf(a.st, policy.maxTokens, policy).Some?
    requires var slice := SliceOf(a.st, policy.maxTokens, policy).value;
      slice.request == a.st.request.id && slice.count > 0 && width <= Blocks < slice.End()
    ensures Refused(a, b, batch, policy, cfg) && Lone(b, 0, cfg) && b.st == Recomputed(a.st)
  {
    hide Sound, Act, Reserve, Inv, SliceOf, Preempt;
    var id := a.st.request.id;
    LoneReserves(a, width, batch, SliceOf(a.st, policy.maxTokens, policy).value.Plain(), cfg);
    SoundInv(a.w, cfg);
    AllHere(a.w.s, cfg);
    PreemptsFacts(a.w, id, cfg);
    ActSound(a.w, Preempts(id), cfg);
    var next := Act(a.w, Preempts(id), cfg).value;
    PreemptTidy(a.w.s, id, {id}, cfg);
    SoundInv(next, cfg);
    NothingHeld(next.s, id, cfg);
    b := Scene(Recomputed(a.st), next);
    assert a.w.frontier[id := 0] == map[id := 0];
  }

  lemma NothingHeld(s: State, id: nat, cfg: Config)
    requires Lean(cfg) && Inv(s, cfg) && s.kv.Keys == {id} && s.kv[id].table == [] && s.entries == []
    ensures s.kv[id].Width() == 0 && s.hot.Free() == s.hot.capacity
  {
    hide Inv;
    SoloUses(s, id, cfg);
    FreeMost(s, cfg);
    assert s.kv[id].Total() == Times(0, s.kv[id].request.model.layers);
  }

  lemma FreeMost(s: State, cfg: Config)
    requires Inv(s, cfg)
    ensures s.hot.Free() <= s.hot.capacity
  {
    InvParts(s, cfg);
    s.hot.Counts();
  }

  /** One request at a time, in chunks of two tokens. */
  const Pairs: Policy := Policy(1, 2, 2)

  /** Two prompt tokens, four tokens of output, one layer. */
  const Asked: Request := Request(0, Model(0, 1, [1]), 0, 0, 2, 4, None)

  /** The prompt and a first decode step are served; the next is refused, and its recompute is right.
      One chunk of that is served; the next is refused too, and this recompute falls short.  Two chunks
      later the decode check fires. */
  ghost predicate Trapped(scenes: seq<Scene>, cfg: Config)
    requires cfg.Valid() && |scenes| == 8
  {
    && Served(scenes[0], scenes[1], 0, Pairs, cfg) && Served(scenes[1], scenes[2], 1, Pairs, cfg)
    && Refused(scenes[2], scenes[3], 2, Pairs, cfg) && Restartable(scenes[2].st)
    && Served(scenes[3], scenes[4], 2, Pairs, cfg)
    && Refused(scenes[4], scenes[5], 3, Pairs, cfg) && !Restartable(scenes[4].st)
    && Served(scenes[5], scenes[6], 3, Pairs, cfg) && Served(scenes[6], scenes[7], 4, Pairs, cfg)
    && !scenes[7].st.complete && SliceOf(scenes[7].st, Pairs.maxTokens, Pairs).None?
  }

  /** The trap, call by call, from an empty plane. */
  lemma TrapExists(mems: Mems, cfg: Config) returns (scenes: seq<Scene>)
    requires Lean(cfg) && cfg.blockTokens == 1
    ensures Pairs.Valid() && Asked.Valid()
    ensures |scenes| == 8 && scenes[0].st == Fresh(Asked).(admitted := true)
    ensures Act(Opening(Blocks, 0, mems), Admits(Asked, 0), cfg) == Some(scenes[0].w)
    ensures Trapped(scenes, cfg)
  {
    hide Sound, Act, Reserve, Inv, Served, Refused, Opening, Lone;
    var a := Admitted(Asked, mems, cfg);
    var b := Serves(a, 0, 0, Pairs, cfg);
    var c := Serves(b, 2, 1, Pairs, cfg);
    var d := Refuses(c, 3, 2, Pairs, cfg);
    var e := Serves(d, 0, 2, Pairs, cfg);
    var f := Refuses(e, 2, 3, Pairs, cfg);
    var g := Serves(f, 0, 3, Pairs, cfg);
    var h := Serves(g, 2, 4, Pairs, cfg);
    scenes := [a, b, c, d, e, f, g, h];
  }

  lemma Admitted(request: Request, mems: Mems, cfg: Config) returns (a: Scene)
    requires Lean(cfg) && cfg.blockTokens == 1 && request.Valid() && request.model.layers == 1
    ensures a.st == Fresh(request).(admitted := true) && Lone(a, 0, cfg)
    ensures Act(Opening(Blocks, 0, mems), Admits(request, 0), cfg) == Some(a.w)
  {
    hide Sound, Act, Inv, Admit;
    var w := Opening(Blocks, 0, mems);
    OpeningSound(Blocks, 0, mems, cfg);
    AdmitsFacts(w, request, 0, cfg);
    ActSound(w, Admits(request, 0), cfg);
    var next := Act(w, Admits(request, 0), cfg).value;
    AdmitsLean(w, request, cfg);
    SoundInv(next, cfg);
    NothingHeld(next.s, request.id, cfg);
    a := Scene(Fresh(request).(admitted := true), next);
  }

  lemma AdmitsLean(w: World, request: Request, cfg: Config)
    requires Lean(cfg) && request.Valid() && request.id !in w.s.kv && Act(w, Admits(request, 0), cfg).Some?
    ensures var next := Act(w, Admits(request, 0), cfg).value;
      next.s == Joined(w.s, request) && next.frontier == w.frontier[request.id := 0]
  {
  }
}
