/** The engine's request states, its running and resumed lists, and how they mirror the
    memory plane, as predicates on values.
 */
module Rosters {
  import opened PlacementSpec
  import opened KvWrites
  import opened KvSteps
  import opened KvRuns
  import opened WorldFacts
  import opened Frontiers

  datatype Pick = Pick(index: nat, slice: BatchSlice)

  function Plains(picks: seq<Pick>): (slices: seq<Slice>)
    ensures |slices| == |picks|
    ensures forall k :: 0 <= k < |picks| ==> slices[k] == picks[k].slice.Plain()
  {
    seq(|picks|, k requires 0 <= k < |picks| => picks[k].slice.Plain())
  }

  lemma PlainsPush(picks: seq<Pick>, pick: Pick)
    ensures Plains(picks + [pick]) == Plains(picks) + [pick.slice.Plain()]
  {
  }

  predicate Live(st: RequestState)
  {
    st.admitted && !st.complete
  }

  /** What the scheduler's slice of a request looks like, whatever its budget. */
  ghost predicate Lawful(st: RequestState, slice: BatchSlice, policy: Policy)
  {
    && slice.request == st.request.id && slice.begin == st.processed && slice.count > 0
    && if st.Decoding() then
         slice.decode && slice.emits && slice.count == 1 && st.processed == st.request.promptTokens + st.emitted - 1
       else
         && !slice.decode && slice.End() <= st.prefillTarget && slice.count <= policy.chunkTokens
         && slice.emits == (slice.End() == st.prefillTarget && slice.End() >= st.request.promptTokens)
  }

  lemma SliceLawful(st: RequestState, budget: nat, policy: Policy)
    requires policy.Valid() && budget > 0 && st.Bounded() && SliceOf(st, budget, policy).Some?
    ensures var slice := SliceOf(st, budget, policy).value;
      Lawful(st, slice, policy) && slice.count <= budget && Compilable(slice, st.request)
  {
  }

  lemma LawfulAdvance(st: RequestState, slice: BatchSlice, policy: Policy)
    requires st.Bounded() && Lawful(st, slice, policy) && !st.complete
    ensures Compilable(slice, st.request)
    ensures st.OnFrontier() ==> Advance(st, slice).Some?
    ensures Advance(st, slice).Some? ==>
      var next := Advance(st, slice).value;
      && next.request == st.request && next.admitted == st.admitted && next.processed == slice.End()
      && (!next.complete ==> next.Bounded()) && (st.OnFrontier() && !next.complete ==> next.OnFrontier())
      && (next.complete ==> next.emitted == st.request.outputTokens && next.processed == st.request.Lifetime())
  {
  }

  // ------------------------------------------------------------------- roster

  ghost predicate Distinctive(s: seq<nat>)
  {
    forall i, j :: 0 <= i < j < |s| ==> s[i] != s[j]
  }

  ghost predicate KnownStates(states: seq<RequestState>)
  {
    && (forall i :: 0 <= i < |states| ==> states[i].request.Valid())
    && (forall i, j :: 0 <= i < j < |states| ==> states[i].request.id != states[j].request.id)
    && (forall i :: 0 <= i < |states| && !states[i].complete ==> states[i].Bounded())
    && (forall i :: 0 <= i < |states| && !states[i].admitted ==> states[i] == Fresh(states[i].request))
  }

  /** Running and resumed requests are exactly the admitted, unfinished ones, each listed once. */
  ghost predicate Roster(states: seq<RequestState>, running: seq<nat>, resumed: seq<nat>)
  {
    && KnownStates(states)
    && Distinctive(running + resumed)
    && (forall i :: i in running + resumed ==> i < |states| && Live(states[i]))
    && (forall i :: 0 <= i < |states| && Live(states[i]) ==> i in running + resumed)
  }

  ghost predicate OnTrack(states: seq<RequestState>)
  {
    forall i :: 0 <= i < |states| && !states[i].complete ==> states[i].OnFrontier()
  }

  /** The plane holds exactly the live requests. */
  ghost predicate Mirrors(states: seq<RequestState>, w: World)
  {
    && w.frontier.Keys == w.s.kv.Keys
    && (forall i :: 0 <= i < |states| ==> (Live(states[i]) <==> states[i].request.id in w.s.kv))
    && (forall i :: 0 <= i < |states| && Live(states[i]) ==> w.s.kv[states[i].request.id].request == states[i].request)
    && (forall id :: id in w.s.kv ==> Owned(states, id))
  }

  ghost predicate Owned(states: seq<RequestState>, id: nat)
  {
    exists i :: 0 <= i < |states| && states[i].request.id == id
  }

  /** Where the plane's frontier of a request stands: at its slice's end once that is reserved. */
  ghost function Front(st: RequestState, i: nat, picks: seq<Pick>): nat
  {
    if picks == [] then st.processed
    else if picks[|picks| - 1].index == i then picks[|picks| - 1].slice.End()
    else Front(st, i, picks[..|picks| - 1])
  }

  /** The plane's frontier is the engine's, moved to the slice end where a slice is reserved. */
  ghost predicate Tracks(states: seq<RequestState>, frontier: map<nat, nat>, picks: seq<Pick>)
  {
    forall i :: 0 <= i < |states| && Live(states[i]) ==> Tracked(states[i], i, frontier, picks)
  }

  ghost predicate Tracked(st: RequestState, i: nat, frontier: map<nat, nat>, picks: seq<Pick>)
  {
    st.request.id in frontier && frontier[st.request.id] == Front(st, i, picks)
  }

  lemma {:induction false} FrontUnpicked(st: RequestState, i: nat, picks: seq<Pick>)
    requires forall k :: 0 <= k < |picks| ==> picks[k].index != i
    ensures Front(st, i, picks) == st.processed
  {
    if picks != [] {
      FrontUnpicked(st, i, picks[..|picks| - 1]);
    }
  }

  lemma {:induction false} FrontPicked(st: RequestState, picks: seq<Pick>, k: nat)
    requires k < |picks| && forall j :: k < j < |picks| ==> picks[j].index != picks[k].index
    ensures Front(st, picks[k].index, picks) == picks[k].slice.End()
  {
    if k < |picks| - 1 {
      FrontPicked(st, picks[..|picks| - 1], k);
    }
  }

  ghost predicate Picked(states: seq<RequestState>, picks: seq<Pick>, policy: Policy)
  {
    && (forall k :: 0 <= k < |picks| ==>
          picks[k].index < |states| && Live(states[picks[k].index]) && Lawful(states[picks[k].index], picks[k].slice, policy))
    && (forall j, k :: 0 <= j < k < |picks| ==> picks[j].index != picks[k].index)
  }

  function Tokens(picks: seq<Pick>): nat
  {
    if picks == [] then 0 else Tokens(picks[..|picks| - 1]) + picks[|picks| - 1].slice.count
  }

  lemma TokensPush(picks: seq<Pick>, pick: Pick)
    ensures Tokens(picks + [pick]) == Tokens(picks) + pick.slice.count
  {
    var longer := picks + [pick];
    assert longer[..|longer| - 1] == picks;
  }

  // ------------------------------------------------------ towards the plane

  lemma PicksCounted(states: seq<RequestState>, picks: seq<Pick>, policy: Policy)
    requires Picked(states, picks, policy)
    ensures AllCounted(Plains(picks))
  {
  }

  /** Nothing reserved yet: all picked slices together continue the plane's frontiers. */
  lemma FirstProper(states: seq<RequestState>, w: World, picks: seq<Pick>, policy: Policy)
    requires KnownStates(states) && Mirrors(states, w) && Tracks(states, w.frontier, []) && Picked(states, picks, policy)
    requires w.reserved == [] && w.arriving == {}
    ensures Proper(w, Plains(picks)) && w.reserved + Plains(picks) == Plains(picks)
  {
    PicksCounted(states, picks, policy);
    var more := Plains(picks);
    assert [] + more == more;
    forall k | 0 <= k < |more| && more[k].request in w.s.kv && more[k].request in w.frontier
      ensures more[k].begin == w.frontier[more[k].request] && more[k].End() <= w.s.kv[more[k].request].request.Lifetime()
    {
      var i := picks[k].index;
      assert Tracked(states[i], i, w.frontier, []);
      LawfulAdvance(states[i], picks[k].slice, policy);
    }
  }

  /** One more slice on top of the reserved ones. */
  lemma NextProper(states: seq<RequestState>, w: World, picks: seq<Pick>, pick: Pick, policy: Policy)
    requires KnownStates(states) && Mirrors(states, w) && Tracks(states, w.frontier, picks) && Picked(states, picks + [pick], policy)
    requires w.reserved == Plains(picks) && pick.index < |states| && w.arriving <= {states[pick.index].request.id}
    ensures Proper(w, [pick.slice.Plain()]) && w.reserved + [pick.slice.Plain()] == Plains(picks + [pick])
  {
    var longer, i := picks + [pick], pick.index;
    PlainsPush(picks, pick);
    PicksCounted(states, longer, policy);
    NewPick(picks, pick);
    assert longer[|picks|] == pick;
    FrontUnpicked(states[i], i, picks);
    assert Tracked(states[i], i, w.frontier, picks);
    LawfulAdvance(states[i], pick.slice, policy);
    InBatchPush(w.reserved, pick.slice.Plain());
  }

  lemma NewPick(picks: seq<Pick>, pick: Pick)
    requires forall j, k :: 0 <= j < k < |picks + [pick]| ==> (picks + [pick])[j].index != (picks + [pick])[k].index
    ensures forall k :: 0 <= k < |picks| ==> picks[k].index != pick.index
  {
    var longer := picks + [pick];
    forall k | 0 <= k < |picks| ensures picks[k].index != pick.index {
      assert longer[k].index != longer[|picks|].index;
    }
  }

  lemma AdvanceTracks(states: seq<RequestState>, frontier: map<nat, nat>, picks: seq<Pick>, pick: Pick)
    requires KnownStates(states) && Tracks(states, frontier, picks)
    requires pick.index < |states| && pick.slice.request == states[pick.index].request.id
    ensures Tracks(states, Advanced(frontier, pick.slice.Plain()), picks + [pick])
  {
    var longer := picks + [pick];
    assert longer[..|longer| - 1] == picks;
    forall i | 0 <= i < |states| && Live(states[i]) ensures Tracked(states[i], i, Advanced(frontier, pick.slice.Plain()), longer) {
      assert Tracked(states[i], i, frontier, picks);
    }
  }

  lemma {:induction false} AdvancedPush(frontier: map<nat, nat>, slices: seq<Slice>, slice: Slice)
    ensures AdvancedAll(frontier, slices + [slice]) == Advanced(AdvancedAll(frontier, slices), slice)
    decreases |slices|
  {
    if slices == [] {
      assert [slice][1..] == [] && slices + [slice] == [slice];
    } else {
      AdvancedPush(Advanced(frontier, slices[0]), slices[1..], slice);
      assert (slices + [slice])[1..] == slices[1..] + [slice];
    }
  }

  lemma {:induction false} AdvancedTracks(states: seq<RequestState>, frontier: map<nat, nat>, picks: seq<Pick>, policy: Policy)
    requires KnownStates(states) && Tracks(states, frontier, []) && Picked(states, picks, policy)
    ensures Tracks(states, AdvancedAll(frontier, Plains(picks)), picks)
    decreases |picks|
  {
    if picks != [] {
      var front, last := picks[..|picks| - 1], picks[|picks| - 1];
      AdvancedTracks(states, frontier, front, policy);
      AdvancedPush(frontier, Plains(front), last.slice.Plain());
      assert front + [last] == picks;
      PlainsPush(front, last);
      AdvanceTracks(states, AdvancedAll(frontier, Plains(front)), front, last);
    }
  }

  lemma OneTracks(states: seq<RequestState>, frontier: map<nat, nat>, picks: seq<Pick>, pick: Pick)
    requires KnownStates(states) && Tracks(states, frontier, picks)
    requires pick.index < |states| && pick.slice.request == states[pick.index].request.id
    ensures Tracks(states, AdvancedAll(frontier, [pick.slice.Plain()]), picks + [pick])
  {
    AdvanceTracks(states, frontier, picks, pick);
    var one := [pick.slice.Plain()];
    assert one[1..] == [];
  }

  lemma KeepMirrors(states: seq<RequestState>, w: World, next: World)
    requires Mirrors(states, w) && Keeps(w, next) && next.frontier.Keys == next.s.kv.Keys
    ensures Mirrors(states, next)
  {
  }

  // ------------------------------------------------------------ preemption

  function Without(s: seq<nat>, i: nat): (rest: seq<nat>)
  {
    if s == [] then [] else if s[0] == i then s[1..] else [s[0]] + Without(s[1..], i)
  }

  lemma {:induction false} WithoutIs(s: seq<nat>, i: nat)
    requires Distinctive(s)
    ensures forall j :: j in Without(s, i) <==> j in s && j != i
    ensures Distinctive(Without(s, i)) && |Without(s, i)| == |s| - (if i in s then 1 else 0)
    ensures i !in s ==> Without(s, i) == s
    ensures s != [] && s[0] != i ==> Without(s, i) != [] && Without(s, i)[0] == s[0]
  {
    if s != [] {
      WithoutIs(s[1..], i);
      if s[0] == i {
        assert forall j :: j in s[1..] ==> j != i;
      } else {
        forall k | 0 <= k < |Without(s[1..], i)| ensures Without(s[1..], i)[k] != s[0] {
          assert Without(s[1..], i)[k] in s[1..];
        }
      }
    }
  }

  /** The last running request goes to the front of the resumed ones. */
  lemma PreemptRoster(states: seq<RequestState>, running: seq<nat>, resumed: seq<nat>, st: RequestState)
    requires Roster(states, running, resumed) && running != [] && running[|running| - 1] < |states|
    requires var v := running[|running| - 1];
      st == states[v] || st == Recomputed(states[v])
    ensures var v := running[|running| - 1];
      Roster(states[v := st], running[..|running| - 1], [v] + resumed)
  {
    var n := |running|;
    var v := running[n - 1];
    var all, all' := running + resumed, running[..n - 1] + ([v] + resumed);
    assert all == all' by {
      assert running == running[..n - 1] + [v];
    }
    assert v in all;
    BoundedRestart(states[v]);
  }

  lemma BoundedRestart(st: RequestState)
    requires st.Bounded()
    ensures Recomputed(st).Bounded() && (st.OnFrontier() && Restartable(st) ==> Recomputed(st).OnFrontier())
  {
  }

  lemma PreemptMirrors(states: seq<RequestState>, w: World, next: World, v: nat, st: RequestState)
    requires KnownStates(states) && Mirrors(states, w) && Tracks(states, w.frontier, []) && v < |states| && Live(states[v])
    requires Keeps(w, next) && st.request == states[v].request && Live(st)
    requires (next.frontier == w.frontier && st.processed == states[v].processed)
             || (next.frontier == w.frontier[st.request.id := 0] && st.processed == 0)
    ensures Mirrors(states[v := st], next) && Tracks(states[v := st], next.frontier, [])
  {
    PreemptTracks(states, w.frontier, next.frontier, v, st);
    hide Tracks, KnownStates;
    var states' := states[v := st];
    assert st.request.id in w.s.kv;
    forall id | id in next.s.kv ensures Owned(states', id) {
      OwnedStill(states, v, st, id);
    }
  }

  lemma OwnedStill(states: seq<RequestState>, v: nat, st: RequestState, id: nat)
    requires v < |states| && st.request == states[v].request && Owned(states, id)
    ensures Owned(states[v := st], id)
  {
    var i :| 0 <= i < |states| && states[i].request.id == id;
    var states' := states[v := st];
    assert states'[i].request.id == id;
  }

  lemma PreemptTracks(states: seq<RequestState>, frontier: map<nat, nat>, frontier': map<nat, nat>, v: nat, st: RequestState)
    requires KnownStates(states) && Tracks(states, frontier, []) && v < |states| && Live(states[v])
    requires st.request == states[v].request && Live(st)
    requires (frontier' == frontier && st.processed == states[v].processed)
             || (frontier' == frontier[st.request.id := 0] && st.processed == 0)
    ensures Tracks(states[v := st], frontier', [])
  {
    var states' := states[v := st];
    forall i | 0 <= i < |states'| && Live(states'[i]) ensures Tracked(states'[i], i, frontier', []) {
      assert Tracked(states[i], i, frontier, []);
    }
  }
}
