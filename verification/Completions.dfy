/** Completing a batch: every slice advances its request's frontier, finished requests leave,
    and the work that is left shrinks.
 */
module Completions {
  import opened PrefixKeys
  import opened PlacementSpec
  import opened KvMemory
  import opened KvRefinement
  import opened KvRuns
  import opened WorldFacts
  import opened LeanPlane
  import opened Frontiers
  import opened Rosters
  import opened Desks
  import opened Sweeps
  import opened Admissions
  import opened Fillings
  import opened Batches

  /** The batch has run; these slices are still to be booked. */
  ghost predicate Owes(d: Desk, w: World, todo: seq<Pick>, policy: Policy)
  {
    && Seated(d, policy) && Mirrors(d.states, w) && Tracks(d.states, w.frontier, todo)
    && Picked(d.states, todo, policy) && Fed(d, todo)
    && w.reserved == [] && w.arriving == {} && w.s.pendingBatch.None?
  }

  lemma OwesNothing(d: Desk, w: World, policy: Policy)
    ensures Owes(d, w, [], policy) <==> Rested(d, w, policy)
  {
  }

  lemma ExecutedOwes(d: Desk, w: World, next: World, picks: seq<Pick>, batch: nat, finish: nat, policy: Policy, cfg: Config)
    requires Agrees(d, w, picks, batch, policy) && w.arriving == {} && Sound(w, cfg) && cfg.Valid()
    requires Act(w, Executes(finish), cfg) == Some(next)
    ensures Owes(d, next, picks, policy)
    ensures Roomy(d, w, cfg) ==> Roomy(d, next, cfg)
  {
    hide Act, Sound, Seated, Tracks, Picked, Fed, Roomy;
    AgreesMeans(d, w, picks, batch, policy);
    ExecutesFacts(w, finish, cfg);
    KeepMirrors(d.states, w, next);
    if Roomy(d, w, cfg) {
      ExecutedRoomy(d, w, next, finish, cfg);
    }
  }

  lemma ExecutedRoomy(d: Desk, w: World, next: World, finish: nat, cfg: Config)
    requires Roomy(d, w, cfg) && cfg.Valid() && Act(w, Executes(finish), cfg) == Some(next)
    ensures Roomy(d, next, cfg)
  {
    hide Complete, KnownStates;
    CompletePending(w.s.(migrations := [], pendingBatch := None), w.reserved, finish, cfg);
  }

  // ------------------------------------------------------------- one slice

  lemma {:induction false} FrontDrop(st: RequestState, i: nat, todo: seq<Pick>)
    requires todo != [] && todo[0].index != i
    ensures Front(st, i, todo) == Front(st, i, todo[1..])
    decreases |todo|
  {
    if |todo| > 1 {
      var front := todo[..|todo| - 1];
      assert todo[1..][..|todo| - 2] == front[1..];
      FrontDrop(st, i, front);
    }
  }

  /** The first slice is due: the engine's frontier is its begin, the plane's its end. */
  lemma Due(d: Desk, w: World, todo: seq<Pick>, policy: Policy)
    requires Owes(d, w, todo, policy) && todo != []
    ensures var i := todo[0].index;
      && i < |d.states| && Live(d.states[i]) && d.states[i].Bounded() && Lawful(d.states[i], todo[0].slice, policy)
      && i in d.running && d.states[i].request.id in w.s.kv && d.states[i].request.id in w.frontier
      && w.frontier[d.states[i].request.id] == todo[0].slice.End()
      && (!d.tainted ==> d.states[i].OnFrontier())
  {
    SeatedMeans(d, policy);
    var i := todo[0].index;
    assert Tracked(d.states[i], i, w.frontier, todo);
    FrontPicked(d.states[i], todo, 0);
  }

  /** A request that goes on. */
  lemma Booked(d: Desk, w: World, todo: seq<Pick>, st: RequestState, policy: Policy)
    requires Owes(d, w, todo, policy) && todo != [] && todo[0].index < |d.states|
    requires Advance(d.states[todo[0].index], todo[0].slice) == Some(st) && !st.complete
    ensures Owes(d.(states := d.states[todo[0].index := st]), w, todo[1..], policy)
  {
    hide Mirrors, Tracks, Picked, Fed, Roster, OnTrack;
    var i := todo[0].index;
    var e := d.(states := d.states[i := st]);
    Due(d, w, todo, policy);
    LawfulAdvance(d.states[i], todo[0].slice, policy);
    BookedRoster(d, i, st, policy);
    BookedMirrors(d.states, w, i, st);
    BookedPicks(d, w, todo, i, st, policy);
  }

  lemma BookedRoster(d: Desk, i: nat, st: RequestState, policy: Policy)
    requires Seated(d, policy) && i < |d.states| && Live(d.states[i]) && Live(st) && st.request == d.states[i].request
    requires st.Bounded() && (d.states[i].OnFrontier() ==> st.OnFrontier())
    ensures Seated(d.(states := d.states[i := st]), policy)
  {
  }

  lemma BookedMirrors(states: seq<RequestState>, w: World, i: nat, st: RequestState)
    requires Mirrors(states, w) && i < |states| && Live(states[i]) && Live(st) && st.request == states[i].request
    ensures Mirrors(states[i := st], w)
  {
    forall id | id in w.s.kv ensures Owned(states[i := st], id) {
      OwnedStill(states, i, st, id);
    }
  }

  lemma BookedPicks(d: Desk, w: World, todo: seq<Pick>, i: nat, st: RequestState, policy: Policy)
    requires Owes(d, w, todo, policy) && todo != [] && i == todo[0].index && i < |d.states|
    requires st.request == d.states[i].request && st.processed == todo[0].slice.End() > 0
    ensures Tracks(d.states[i := st], w.frontier, todo[1..]) && Picked(d.states[i := st], todo[1..], policy)
    ensures Fed(d.(states := d.states[i := st]), todo[1..])
  {
    hide Mirrors, Seated, Lawful;
    var rest, states' := todo[1..], d.states[i := st];
    Due(d, w, todo, policy);
    assert forall k :: 0 <= k < |rest| ==> rest[k] == todo[k + 1] && rest[k].index != i;
    FrontUnpicked(st, i, rest);
    forall j | 0 <= j < |states'| && Live(states'[j]) ensures Tracked(states'[j], j, w.frontier, rest) {
      if j != i {
        assert Tracked(d.states[j], j, w.frontier, todo);
        FrontDrop(d.states[j], j, todo);
      }
    }
    BookedFed(d, todo, i, st);
  }

  lemma BookedFed(d: Desk, todo: seq<Pick>, i: nat, st: RequestState)
    requires Fed(d, todo) && todo != [] && i == todo[0].index && i < |d.states| && st.processed > 0
    ensures Fed(d.(states := d.states[i := st]), todo[1..])
  {
    var e := d.(states := d.states[i := st]);
    forall j | j in e.running && j < |e.states| ensures e.states[j].processed > 0 || Desks.Chosen(todo[1..], j) {
      if j != i && Desks.Chosen(todo, j) {
        var k :| 0 <= k < |todo| && todo[k].index == j;
        assert todo[1..][k - 1].index == j;
      }
    }
  }

  ghost function Finished(d: Desk, i: nat, st: RequestState): Desk
    requires i < |d.states|
  {
    d.(states := d.states[i := st], running := Without(d.running, i))
  }

  /** A request that is done leaves the running ones and the plane. */
  lemma Departed(d: Desk, w: World, next: World, todo: seq<Pick>, st: RequestState, policy: Policy, cfg: Config)
    requires Owes(d, w, todo, policy) && todo != [] && todo[0].index < |d.states|
    requires Advance(d.states[todo[0].index], todo[0].slice) == Some(st) && st.complete
    requires Sound(w, cfg) && cfg.Valid() && Act(w, Releases(st.request.id), cfg) == Some(next)
    ensures Owes(Finished(d, todo[0].index, st), next, todo[1..], policy)
    ensures st.request == d.states[todo[0].index].request
    ensures Roomy(d, w, cfg) ==> Roomy(Finished(d, todo[0].index, st), next, cfg)
  {
    hide Mirrors, Tracks, Picked, Fed, Roster, OnTrack, Act, Sound, Roomy, Seated;
    var i := todo[0].index;
    Due(d, w, todo, policy);
    LawfulAdvance(d.states[i], todo[0].slice, policy);
    ReleasesFacts(w, st.request.id, cfg);
    DepartedRoster(d, i, st, policy);
    SeatedMeans(d, policy);
    hide KnownStates;
    DepartedMirrors(d.states, w, next, i, st);
    BookedPicks(d, w, todo, i, st, policy);
    DepartedPicks(d, w, next, todo, i, st, policy);
    if Roomy(d, w, cfg) {
      ReleaseActs(w, st.request.id, next, cfg);
      DepartedRoomy(d, w, next, i, st, policy, cfg);
    }
  }

  lemma DepartedRoster(d: Desk, i: nat, st: RequestState, policy: Policy)
    requires Seated(d, policy) && i < |d.states| && i in d.running && st.complete && st.admitted && st.request == d.states[i].request
    ensures Seated(Finished(d, i, st), policy)
    ensures forall j :: j in Without(d.running, i) <==> j in d.running && j != i
    ensures i !in d.resumed
  {
    SeatedMeans(d, policy);
    WithoutIs(d.running, i);
    Apart(d.running, d.resumed);
    Concatenated(Without(d.running, i), d.resumed);
    var e := Finished(d, i, st);
    forall j | 0 <= j < |e.states| && Live(e.states[j]) ensures j in e.running + e.resumed {
      assert j in d.running + d.resumed;
    }
  }

  lemma DepartedMirrors(states: seq<RequestState>, w: World, next: World, i: nat, st: RequestState)
    requires KnownStates(states) && Mirrors(states, w) && i < |states| && st.complete && st.request == states[i].request
    requires next.s.kv == w.s.kv - {st.request.id} && next.frontier == w.frontier - {st.request.id}
    ensures Mirrors(states[i := st], next)
  {
    hide Owned;
    forall id | id in next.s.kv ensures Owned(states[i := st], id) {
      OwnedStill(states, i, st, id);
    }
    DistinctIds(states, i);
  }

  lemma DepartedPicks(d: Desk, w: World, next: World, todo: seq<Pick>, i: nat, st: RequestState, policy: Policy)
    requires Owes(d, w, todo, policy) && todo != [] && i == todo[0].index && i < |d.states| && st.complete
    requires st.request == d.states[i].request && next.frontier == w.frontier - {st.request.id}
    requires Tracks(d.states[i := st], w.frontier, todo[1..]) && Fed(d.(states := d.states[i := st]), todo[1..])
    requires forall j :: j in Without(d.running, i) <==> j in d.running && j != i
    ensures Tracks(d.states[i := st], next.frontier, todo[1..]) && Fed(Finished(d, i, st), todo[1..])
  {
    hide Mirrors, Picked;
    var rest, states' := todo[1..], d.states[i := st];
    forall j | 0 <= j < |states'| && Live(states'[j]) ensures Tracked(states'[j], j, next.frontier, rest) {
      assert Tracked(states'[j], j, w.frontier, rest);
      SeatedMeans(d, policy);
    }
    RestElsewhere(d, todo, i, policy, w);
  }

  lemma RestElsewhere(d: Desk, todo: seq<Pick>, i: nat, policy: Policy, w: World)
    requires Owes(d, w, todo, policy) && todo != [] && i == todo[0].index
    ensures forall k :: 0 <= k < |todo[1..]| ==> todo[1..][k].index != i
  {
    hide Mirrors, Tracks, Seated, Lawful, Fed;
    assert forall k :: 0 <= k < |todo[1..]| ==> todo[1..][k] == todo[k + 1];
  }

  lemma DepartedRoomy(d: Desk, w: World, next: World, i: nat, st: RequestState, policy: Policy, cfg: Config)
    requires Roomy(d, w, cfg) && Seated(d, policy) && i < |d.states| && i in d.running && st.request == d.states[i].request
    requires Seated(Finished(d, i, st), policy)
    requires Release(w.s, st.request.id) == Some(next.s) && next.s.kv == w.s.kv - {st.request.id}
    requires forall j :: j in Without(d.running, i) <==> j in d.running && j != i
    ensures Roomy(Finished(d, i, st), next, cfg)
  {
    hide Release, Roster;
    var e := Finished(d, i, st);
    ReleaseTidy(w.s, st.request.id, Busy(d));
    forall j | j in Busy(d) && j != st.request.id ensures j in Busy(e) {
      var k :| k in d.running && k < |d.states| && d.states[k].request.id == j;
      assert k in e.running && e.states[k].request.id == j;
    }
    SeatedMeans(e, policy);
  }

  // -------------------------------------------------------------- work left

  /** The lifetimes of the unfinished requests. */
  function Work(states: seq<RequestState>): (tokens: nat)
  {
    if states == [] then 0
    else (if states[0].complete || states[0].request.Lifetime() < 0 then 0 else states[0].request.Lifetime()) + Work(states[1..])
  }

  lemma {:induction false} WorkUpdate(states: seq<RequestState>, i: nat, st: RequestState)
    requires i < |states| && st.request == states[i].request && !states[i].complete && st.request.Lifetime() >= 0
    ensures Work(states[i := st]) == Work(states) - (if st.complete then st.request.Lifetime() else 0)
    ensures Work(states) >= st.request.Lifetime()
  {
    if i > 0 {
      WorkUpdate(states[1..], i - 1, st);
      assert states[i := st][1..] == states[1..][i - 1 := st];
    } else {
      assert states[i := st][1..] == states[1..];
    }
  }

  /** What is left to do, counting the head's progress. */
  ghost function Measure(d: Desk): int
  {
    Work(d.states) - (if d.running != [] && d.running[0] < |d.states| then d.states[d.running[0]].processed else 0)
  }

  lemma MeasurePositive(d: Desk, policy: Policy)
    requires Seated(d, policy) && exists i :: 0 <= i < |d.states| && !d.states[i].complete
    ensures Measure(d) > 0
  {
    hide Roster, OnTrack;
    SeatedMeans(d, policy);
    var i :| 0 <= i < |d.states| && !d.states[i].complete;
    var h := if d.running != [] then d.running[0] else i;
    assert d.running != [] ==> d.running[0] in d.running;
    assert d.states[h].Bounded();
    WorkUpdate(d.states, h, d.states[h]);
  }

  /** The head has advanced, or it is done. */
  ghost predicate Progressed(d: Desk, e: Desk, h: nat)
  {
    && h < |d.states| == |e.states| && e.states[h].request == d.states[h].request && e.tainted == d.tainted
    && Work(e.states) <= Work(d.states) - (if e.states[h].complete then d.states[h].request.Lifetime() else 0)
    && (!e.states[h].complete ==>
         e.running != [] && e.running[0] == h && e.states[h].processed > d.states[h].processed)
  }

  lemma ProgressShrinks(d: Desk, e: Desk, policy: Policy)
    requires Seated(d, policy) && d.running != [] && Progressed(d, e, d.running[0])
    ensures Measure(e) < Measure(d)
  {
    hide Roster, OnTrack;
    SeatedMeans(d, policy);
    var h := d.running[0];
    assert h in d.running;
    assert d.states[h].Bounded();
  }

  /** Booking the head's own slice. */
  lemma HeadBooked(d: Desk, e: Desk, pick: Pick, st: RequestState, policy: Policy)
    requires Seated(d, policy) && d.running != [] && d.running[0] == pick.index && pick.index < |d.states|
    requires Lawful(d.states[pick.index], pick.slice, policy) && Advance(d.states[pick.index], pick.slice) == Some(st)
    requires e == if st.complete then Finished(d, pick.index, st) else d.(states := d.states[pick.index := st])
    ensures Progressed(d, e, pick.index)
  {
    hide Roster, OnTrack;
    SeatedMeans(d, policy);
    assert pick.index in d.running;
    LawfulAdvance(d.states[pick.index], pick.slice, policy);
    RequestOf(d.states[pick.index], pick.slice, policy);
    WorkUpdate(d.states, pick.index, st);
  }

  /** Booking another slice keeps the head's progress. */
  lemma OtherBooked(d: Desk, e: Desk, f: Desk, h: nat, pick: Pick, st: RequestState, policy: Policy)
    requires Progressed(d, e, h) && Seated(e, policy) && pick.index < |e.states| && pick.index != h
    requires Live(e.states[pick.index]) && Lawful(e.states[pick.index], pick.slice, policy)
    requires Advance(e.states[pick.index], pick.slice) == Some(st)
    requires f == if st.complete then Finished(e, pick.index, st) else e.(states := e.states[pick.index := st])
    ensures Progressed(d, f, h)
  {
    hide Roster, OnTrack;
    SeatedMeans(e, policy);
    LawfulAdvance(e.states[pick.index], pick.slice, policy);
    WorkUpdate(e.states, pick.index, st);
    WithoutIs(e.running, pick.index);
  }

  /** Completed requests have emitted all their output and processed their whole lifetime. */
  ghost predicate AllDelivered(states: seq<RequestState>)
  {
    forall i :: 0 <= i < |states| && states[i].complete ==>
      states[i].emitted == states[i].request.outputTokens && states[i].processed == states[i].request.Lifetime()
  }

  lemma OwnersDelivered(d: Desk, f: Desk)
    requires AllDelivered(d.states) && Owners(d, f)
    ensures AllDelivered(f.states) && Work(f.states) == Work(d.states)
  {
    assert forall i :: 0 <= i < |d.states| ==> SameOwner(d.states[i], f.states[i]);
    OwnersWork(d.states, f.states);
  }

  lemma {:induction false} OwnersWork(a: seq<RequestState>, b: seq<RequestState>)
    requires |a| == |b| && forall i :: 0 <= i < |a| ==> b[i].request == a[i].request && b[i].complete == a[i].complete
    ensures Work(a) == Work(b)
  {
    if a != [] {
      OwnersWork(a[1..], b[1..]);
    }
  }

  // ------------------------------------------------------- booking as a whole

  /** One slice booked: the request advanced, and left if it is done. */
  ghost predicate Booking(d: Desk, w: World, e: Desk, v: World, todo: seq<Pick>, policy: Policy, cfg: Config)
  {
    && todo != [] && todo[0].index < |d.states| && Owes(e, v, todo[1..], policy)
    && var i := todo[0].index;
       var next := Advance(d.states[i], todo[0].slice);
       && next.Some? && Live(d.states[i]) && Lawful(d.states[i], todo[0].slice, policy)
       && e == (if next.value.complete then Finished(d, i, next.value) else d.(states := d.states[i := next.value]))
       && (AllDelivered(d.states) ==> AllDelivered(e.states))
       && (Roomy(d, w, cfg) ==> Roomy(e, v, cfg))
  }

  lemma DueOutside(d: Desk, w: World, todo: seq<Pick>, policy: Policy)
    requires Owes(d, w, todo, policy)
    ensures forall id :: id !in InBatch(w.reserved)
  {
  }

  lemma BookingIs(d: Desk, w: World, e: Desk, v: World, todo: seq<Pick>, st: RequestState, policy: Policy, cfg: Config)
    requires Owes(d, w, todo, policy) && todo != [] && todo[0].index < |d.states| && Owes(e, v, todo[1..], policy)
    requires Advance(d.states[todo[0].index], todo[0].slice) == Some(st)
    requires e == if st.complete then Finished(d, todo[0].index, st) else d.(states := d.states[todo[0].index := st])
    requires if st.complete then (Roomy(d, w, cfg) ==> Roomy(e, v, cfg)) else v == w
    ensures Booking(d, w, e, v, todo, policy, cfg)
  {
    hide Owes, Lawful, Tidy, Lean;
    var i := todo[0].index;
    Due(d, w, todo, policy);
    LawfulAdvance(d.states[i], todo[0].slice, policy);
    if !st.complete && Roomy(d, w, cfg) {
      OwesSeated(e, v, todo[1..], policy);
      AdvancedRoomy(d, w, i, st, cfg);
    }
  }

  lemma AdvancedRoomy(d: Desk, w: World, i: nat, st: RequestState, cfg: Config)
    requires Roomy(d, w, cfg) && i < |d.states| && st.request == d.states[i].request && KnownStates(d.states[i := st])
    ensures Roomy(d.(states := d.states[i := st]), w, cfg)
  {
    hide Tidy, Lean, KnownStates;
    var e := d.(states := d.states[i := st]);
    assert Busy(e) == Busy(d);
  }

  lemma OwesSeated(d: Desk, w: World, todo: seq<Pick>, policy: Policy)
    requires Owes(d, w, todo, policy)
    ensures Seated(d, policy) && KnownStates(d.states)
  {
  }

  lemma BookingMeans(d: Desk, w: World, e: Desk, v: World, todo: seq<Pick>, now: nat, policy: Policy, cfg: Config)
    requires Booking(d, w, e, v, todo, policy, cfg) && AllDelivered(d.states) && Timely(d, now) && Seated(d, policy)
    ensures Owes(e, v, todo[1..], policy) && AllDelivered(e.states) && Timely(e, now)
    ensures Roomy(d, w, cfg) ==> Roomy(e, v, cfg)
  {
    hide Owes, Roomy, Roster, AllDelivered;
    SeatedMeans(d, policy);
    WithoutIs(d.running, todo[0].index);
    LawfulAdvance(d.states[todo[0].index], todo[0].slice, policy);
  }

  lemma PicksApart(d: Desk, w: World, picks: seq<Pick>, k: nat, policy: Policy)
    requires Owes(d, w, picks, policy) && k < |picks|
    ensures k > 0 ==> picks[k].index != picks[0].index
  {
    hide Mirrors, Tracks, Seated, Lawful;
  }

  /** The first slice is the oldest running request's. */
  ghost predicate Leading(d: Desk, picks: seq<Pick>)
  {
    picks != [] && d.running != [] && picks[0].index == d.running[0]
  }

  lemma BookingProgress(d: Desk, w: World, e: Desk, v: World, f: Desk, u: World, picks: seq<Pick>, k: nat,
                        policy: Policy, cfg: Config)
    requires k < |picks| && Booking(e, v, f, u, picks[k..], policy, cfg) && Leading(d, picks) && Seated(e, policy)
    requires Owes(e, v, picks[k..], policy)
    requires if k == 0 then e == d else Progressed(d, e, picks[0].index)
    requires k > 0 ==> picks[k].index != picks[0].index
    ensures Progressed(d, f, picks[0].index)
  {
    hide Owes, Roomy, Roster, AllDelivered, Progressed, Lawful, Seated;
    var todo := picks[k..];
    assert todo[0] == picks[k];
    var st := Advance(e.states[picks[k].index], picks[k].slice).value;
    if k == 0 {
      HeadBooked(d, f, picks[0], st, policy);
    } else {
      OtherBooked(d, e, f, picks[0].index, picks[k], st, policy);
    }
  }

  // ---------------------------------------------------------- one iteration

  lemma ScheduledMeans(d: Desk, w: World, f: Desk, u: World, picks: seq<Pick>, now: nat, batch: nat, policy: Policy, cfg: Config)
    requires Scheduled(d, w, f, u, picks, now, batch, policy, cfg) && AllDelivered(d.states)
    ensures Agrees(f, u, picks, batch, policy) && u.arriving == {} && u.reserved == Plains(picks) && Timely(f, now)
    ensures AllDelivered(f.states) && |f.states| == |d.states|
    ensures Roomy(d, w, cfg) ==>
      Roomy(f, u, cfg) && Measure(f) <= Measure(d) && f.running != [] && picks != [] && picks[0].index == f.running[0]
  {
    hide Roomy, Timely;
    AgreesMeans(f, u, picks, batch, policy);
    OwnersDelivered(d, f);
  }

  lemma TimelyLater(d: Desk, now: nat, later: nat)
    requires Timely(d, now) && now <= later
    ensures Timely(d, later)
  {
  }

  lemma MeasureStarts(d: Desk)
    ensures Measure(d) <= Work(d.states)
  {
  }

  lemma RestedSeats(d: Desk, w: World, policy: Policy)
    requires Rested(d, w, policy)
    ensures Seated(d, policy)
  {
  }

  // ------------------------------------------------- what is read meanwhile

  /** The slices of a batch pass the compiler's checks. */
  lemma BatchCompiles(d: Desk, w: World, picks: seq<Pick>, batch: nat, policy: Policy, k: nat)
    requires Agrees(d, w, picks, batch, policy) && k < |picks|
    ensures picks[k].index < |d.states| && Compilable(picks[k].slice, d.states[picks[k].index].request)
  {
    AgreesMeans(d, w, picks, batch, policy);
    LawfulAdvance(d.states[picks[k].index], picks[k].slice, policy);
  }

  /** While a batch is being put together, its attention reads find, for every request of the
      batch and every token before its slice's end, the value computed for that token. */
  lemma BatchReads(d: Desk, w: World, picks: seq<Pick>, batch: nat, policy: Policy, cfg: Config, k: nat, layer: nat, position: nat)
    returns (b: nat, slot: nat)
    requires Agrees(d, w, picks, batch, policy) && Sound(w, cfg) && cfg.Valid() && k < |picks|
    requires picks[k].index < |d.states| && position < picks[k].slice.End()
    requires layer < d.states[picks[k].index].request.model.layers
    ensures var st := d.states[picks[k].index];
      && st.request.id in w.s.kv && StoredAt(w.s.kv[st.request.id], layer, position, cfg.blockTokens, b, slot)
      && Stored(Future(w.s, w.mems, w.reserved, cfg).Of(w.s.kv[st.request.id].tier), b, slot, st.request.model.TokenBytes(layer),
                KvOf(st.request, layer, position))
  {
    hide Sound, Future, KvOf, StoredAt;
    AgreesMeans(d, w, picks, batch, policy);
    var i := picks[k].index;
    var st := d.states[i];
    FrontPicked(st, picks, k);
    assert Tracked(st, i, w.frontier, picks);
    b, slot := TokenReads(w, cfg, st.request.id, layer, position);
  }
}
