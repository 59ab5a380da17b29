/** Whole runs of the memory plane: paged storage in two tiers, with sharing, eviction,
    swapping and block reuse, reads like one flat array of KV values per request.
 */
module KvRuns {
  import opened Modular
  import opened PrefixKeys
  import opened PrefixSpec
  import opened Tables
  import opened PlacementSpec
  import opened PlacementInvariant
  import opened PlacementRuns
  import opened KvMemory
  import opened KvRefinement
  import opened KvSteps
  import opened KvReservation
  import opened KvAdmission
  import opened KvLifecycle

  /** The plane, the executed contents of both tiers, how many tokens of each request are
      decided, the slices of the batch in the making, and the request just admitted. */
  datatype World = World(s: State, mems: Mems, frontier: map<nat, nat>, reserved: seq<Slice>, arriving: set<nat>)

  datatype Action =
    | Admits(request: Request, now: nat)
    | Reserves(batch: nat, more: seq<Slice>)
    | Executes(finish: nat)
    | Preempts(id: nat)
    | Releases(id: nat)

  ghost predicate AllCounted(slices: seq<Slice>)
  {
    forall i :: 0 <= i < |slices| ==> slices[i].count > 0
  }

  /** One call.  None stands for a call that raises, or that breaks the calling protocol: a
      batch only grows, by slices that continue their requests; preemption precedes the first
      reservation of a batch; a request just admitted joins the batch or is released. */
  ghost function Act(w: World, action: Action, cfg: Config): Option<World>
    requires cfg.Valid()
  {
    match action
    case Admits(request, now) =>
      if !request.Valid() || request.id in w.s.kv || w.arriving != {} then None
      else
        var keys := KeysFor(request, cfg.blockTokens);
        (match Admit(w.s, request, keys, now, cfg)
         case None => None
         case Some(next) =>
           Some(w.(s := next, frontier := w.frontier[request.id := HitFront(w.s, request, keys, now, cfg)],
                   arriving := {request.id})))
    case Reserves(batch, more) =>
      var slices := w.reserved + more;
      if !AllCounted(slices) || !Continuing(w.s, w.frontier, more) || !(w.arriving <= InBatch(slices)) then None
      else
        (match Reserve(w.s, batch, slices, cfg)
         case None => None
         case Some(next) =>
           Some(w.(s := next, frontier := AdvancedAll(w.frontier, more), reserved := slices, arriving := {})))
    case Executes(finish) =>
      if w.arriving != {} then None
      else
        (match Complete(w.s.(migrations := [], pendingBatch := None), w.reserved, finish, cfg)
         case None => None
         case Some(next) =>
           Some(w.(s := next, mems := Future(w.s, w.mems, w.reserved, cfg), reserved := [])))
    case Preempts(id) =>
      if w.reserved != [] || w.arriving != {} then None
      else
        (match Preempt(w.s, id, cfg)
         case Refused => None
         case Preempted(next, mode) => Some(w.(s := next, frontier := AfterPreempt(w.frontier, id, mode))))
    case Releases(id) =>
      if id in InBatch(w.reserved) then None
      else
        (match Release(w.s, id)
         case None => None
         case Some(next) => Some(w.(s := next, frontier := w.frontier - {id}, arriving := w.arriving - {id})))
  }

  ghost function Play(w: World, actions: seq<Action>, cfg: Config): Option<World>
    requires cfg.Valid()
    decreases |actions|
  {
    if actions == [] then Some(w)
    else
      match Act(w, actions[0], cfg)
      case None => None
      case Some(next) => Play(next, actions[1..], cfg)
  }

  lemma PlayNone(w: World, cfg: Config)
    requires cfg.Valid()
    ensures Play(w, [], cfg) == Some(w)
  {
  }

  /** A run ends with its last action. */
  lemma {:induction false} PlayLast(w: World, actions: seq<Action>, cfg: Config)
    requires cfg.Valid() && actions != [] && Play(w, actions, cfg).Some?
    ensures var front, last := actions[..|actions| - 1], actions[|actions| - 1];
      Play(w, front, cfg).Some? && Act(Play(w, front, cfg).value, last, cfg) == Play(w, actions, cfg)
    decreases |actions|
  {
    hide Act;
    if |actions| == 1 {
      assert actions[1..] == [] && actions[..0] == [];
    } else {
      var next := Act(w, actions[0], cfg).value;
      PlayLast(next, actions[1..], cfg);
      assert actions[1..][..|actions| - 2] == actions[..|actions| - 1][1..];
    }
  }

  ghost function Opening(hotBlocks: nat, coldBlocks: nat, mems: Mems): World
  {
    World(Start(hotBlocks, coldBlocks), mems, map[], [], {})
  }

  ghost predicate Sound(w: World, cfg: Config)
  {
    Good(w.s, w.mems, w.frontier, w.reserved, w.arriving, cfg) && AllCounted(w.reserved)
  }

  lemma OpeningSound(hotBlocks: nat, coldBlocks: nat, mems: Mems, cfg: Config)
    ensures Sound(Opening(hotBlocks, coldBlocks, mems), cfg)
  {
    StartInv(hotBlocks, coldBlocks, cfg);
  }

  lemma SoundMeans(w: World, cfg: Config)
    requires Sound(w, cfg)
    ensures Good(w.s, w.mems, w.frontier, w.reserved, w.arriving, cfg) && AllCounted(w.reserved)
    ensures forall i :: 0 <= i < |w.reserved| ==> w.reserved[i].count > 0
  {
  }

  /** Every action keeps every promise about the contents. */
  lemma ActSound(w: World, action: Action, cfg: Config)
    requires cfg.Valid() && Sound(w, cfg) && Act(w, action, cfg).Some?
    ensures Sound(Act(w, action, cfg).value, cfg)
  {
    hide Good, Admit, Reserve, Complete, Preempt, Release, Continuing, AdvancedAll, Future, KeysFor, HitFront, Sound;
    SoundMeans(w, cfg);
    match action
    case Admits(request, now) =>
      AdmitGood(w.s, request, now, w.mems, w.frontier, w.reserved, cfg);
      IsSound(Act(w, action, cfg).value, cfg);
    case Reserves(batch, more) =>
      ReserveGood(w.s, batch, w.reserved, more, w.mems, w.frontier, w.arriving, cfg);
      IsSound(Act(w, action, cfg).value, cfg);
    case Executes(finish) =>
      ExecuteGood(w.s, finish, w.mems, w.frontier, w.reserved, w.arriving, cfg);
      IsSound(Act(w, action, cfg).value, cfg);
    case Preempts(id) =>
      PreemptGood(w.s, id, w.mems, w.frontier, cfg);
      IsSound(Act(w, action, cfg).value, cfg);
    case Releases(id) =>
      GoodInv(w.s, w.mems, w.frontier, w.reserved, w.arriving, cfg);
      ReleaseInv(w.s, id, cfg);
      ReleaseGood(w.s, id, w.mems, w.frontier, w.reserved, w.arriving, cfg);
      IsSound(Act(w, action, cfg).value, cfg);
  }

  lemma IsSound(w: World, cfg: Config)
    requires Good(w.s, w.mems, w.frontier, w.reserved, w.arriving, cfg) && AllCounted(w.reserved)
    ensures Sound(w, cfg)
  {
  }

  lemma {:induction false} PlaySound(w: World, actions: seq<Action>, cfg: Config)
    requires cfg.Valid() && Sound(w, cfg) && Play(w, actions, cfg).Some?
    ensures Sound(Play(w, actions, cfg).value, cfg)
    decreases |actions|
  {
    hide Sound, Act;
    if actions != [] {
      ActSound(w, actions[0], cfg);
      PlaySound(Act(w, actions[0], cfg).value, actions[1..], cfg);
    }
  }

  /** Where a token lives: its block in the layer's table, and its slot in the block. */
  ghost predicate StoredAt(st: RequestKv, layer: nat, position: nat, blockTokens: nat, b: nat, slot: nat)
    requires blockTokens > 0
  {
    && layer < |st.table| && position / blockTokens < |st.table[layer]|
    && b == st.table[layer][position / blockTokens] && slot == position % blockTokens
  }

  /** The data refinement: after any run, from any initial contents, every decided token of
      every live request is found through its block table, in whichever tier the request is,
      with exactly the value that was computed for that request, layer and position. */
  lemma RunReads(hotBlocks: nat, coldBlocks: nat, mems: Mems, actions: seq<Action>, cfg: Config,
                 id: nat, layer: nat, position: nat) returns (b: nat, slot: nat)
    requires cfg.Valid() && Play(Opening(hotBlocks, coldBlocks, mems), actions, cfg).Some?
    requires var w := Play(Opening(hotBlocks, coldBlocks, mems), actions, cfg).value;
      && id in w.s.kv && layer < w.s.kv[id].request.model.layers && id in w.frontier && position < w.frontier[id]
    ensures var w := Play(Opening(hotBlocks, coldBlocks, mems), actions, cfg).value;
      var st := w.s.kv[id];
      && StoredAt(st, layer, position, cfg.blockTokens, b, slot)
      && Stored(Future(w.s, w.mems, w.reserved, cfg).Of(st.tier), b, slot, st.request.model.TokenBytes(layer),
                KvOf(st.request, layer, position))
  {
    hide Sound, Act, Play;
    OpeningSound(hotBlocks, coldBlocks, mems, cfg);
    PlaySound(Opening(hotBlocks, coldBlocks, mems), actions, cfg);
    var w := Play(Opening(hotBlocks, coldBlocks, mems), actions, cfg).value;
    b, slot := TokenReads(w, cfg, id, layer, position);
  }

  lemma TokenReads(w: World, cfg: Config, id: nat, layer: nat, position: nat) returns (b: nat, slot: nat)
    requires cfg.Valid() && Sound(w, cfg)
    requires id in w.s.kv && layer < w.s.kv[id].request.model.layers && id in w.frontier && position < w.frontier[id]
    ensures StoredAt(w.s.kv[id], layer, position, cfg.blockTokens, b, slot)
    ensures var st := w.s.kv[id];
      Stored(Future(w.s, w.mems, w.reserved, cfg).Of(st.tier), b, slot, st.request.model.TokenBytes(layer),
             KvOf(st.request, layer, position))
  {
    hide Sound, Future, Span, KvOf;
    var st := w.s.kv[id];
    slot := position % cfg.blockTokens;
    TokenShape(w, cfg, id, layer, position);
    b := st.table[layer][position / cfg.blockTokens];
    PositionIs(position, cfg.blockTokens);
    SoundReads(w, cfg, id);
    assert TokenAt(st, Future(w.s, w.mems, w.reserved, cfg).Of(st.tier), cfg.blockTokens, layer, position / cfg.blockTokens, slot);
  }

  lemma PositionIs(position: nat, blockTokens: nat)
    requires blockTokens > 0
    ensures Span(position / blockTokens, blockTokens) + position % blockTokens == position
    ensures 0 <= position % blockTokens < blockTokens
  {
    SpanIs(position / blockTokens, blockTokens);
  }

  lemma SoundReads(w: World, cfg: Config, id: nat)
    requires Sound(w, cfg) && id in w.s.kv
    ensures id in w.frontier
    ensures ReadsRight(w.s.kv[id], w.frontier[id], Future(w.s, w.mems, w.reserved, cfg).Of(w.s.kv[id].tier), cfg.blockTokens)
  {
    hide Inv, Exclusive, Clean, BatchOk, EntriesHold, Future, ReadsRight;
  }

  lemma TokenShape(w: World, cfg: Config, id: nat, layer: nat, position: nat)
    requires cfg.Valid() && Sound(w, cfg)
    requires id in w.s.kv && layer < w.s.kv[id].request.model.layers && id in w.frontier && position < w.frontier[id]
    ensures layer < |w.s.kv[id].table| && position / cfg.blockTokens < |w.s.kv[id].table[layer]|
  {
    hide Span, Inv;
    TokenCovered(w, cfg, id);
    PositionCovered(position, w.s.kv[id].Width(), cfg.blockTokens);
    ShapeOf(w.s, id, cfg);
  }

  lemma TokenCovered(w: World, cfg: Config, id: nat)
    requires Sound(w, cfg) && id in w.s.kv && id in w.frontier
    ensures Inv(w.s, cfg) && w.frontier[id] <= Span(w.s.kv[id].Width(), cfg.blockTokens)
  {
    hide Inv, AllRead, Exclusive, Clean, BatchOk, EntriesHold, Span;
  }

  lemma PositionCovered(position: nat, width: nat, blockTokens: nat)
    requires blockTokens > 0 && position < Span(width, blockTokens)
    ensures position / blockTokens < width
  {
    SpanIs(width, blockTokens);
    SpanIs(position / blockTokens, blockTokens);
    MultiplesOrdered(width, position / blockTokens, blockTokens);
  }

  lemma ShapeOf(s: State, id: nat, cfg: Config)
    requires Inv(s, cfg) && id in s.kv
    ensures s.kv[id].Width() > 0 ==> Rectangular(s.kv[id].table, s.kv[id].request.model.layers, s.kv[id].Width())
  {
    hide Accounted, ColdBalanced;
    assert Shaped(s.kv[id], cfg);
  }

  /** Published prefix blocks are immutable: in every reachable state an entry's blocks hold, or
      hold as soon as the pending batch ran, the KV of the tokens that its key was computed from. */
  lemma RunPublished(hotBlocks: nat, coldBlocks: nat, mems: Mems, actions: seq<Action>, cfg: Config, i: nat, layer: nat, slot: nat)
    requires cfg.Valid() && Play(Opening(hotBlocks, coldBlocks, mems), actions, cfg).Some?
    requires var w := Play(Opening(hotBlocks, coldBlocks, mems), actions, cfg).value;
      i < |w.s.entries| && layer < |w.s.entries[i].blocks| && slot < cfg.blockTokens
    ensures var w := Play(Opening(hotBlocks, coldBlocks, mems), actions, cfg).value;
      var key, b := w.s.entries[i].key, w.s.entries[i].blocks[layer];
      var content := KeyContent(key, layer, cfg.blockTokens, slot);
      && Stored(Future(w.s, w.mems, w.reserved, cfg).hot, b, slot, KeyModel(key).TokenBytes(layer), content)
      && (w.reserved == [] && w.s.migrations == [] ==> Stored(w.mems.hot, b, slot, KeyModel(key).TokenBytes(layer), content))
  {
    hide Act, Play;
    OpeningSound(hotBlocks, coldBlocks, mems, cfg);
    PlaySound(Opening(hotBlocks, coldBlocks, mems), actions, cfg);
    var w := Play(Opening(hotBlocks, coldBlocks, mems), actions, cfg).value;
    assert BlocksHold(w.s.entries[i].key, w.s.entries[i].blocks, Future(w.s, w.mems, w.reserved, cfg).hot, cfg.blockTokens);
  }
}
