/** Each operation of the placement plane keeps the promises about the contents. */
module KvSteps {
  import opened Modular
  import opened PrefixKeys
  import opened PlacementSpec
  import opened PlacementInvariant
  import opened PlannerSoundness
  import opened KvMemory
  import opened KvRefinement
  import opened KvWrites
  import opened KvPublish

  // -------------------------------------------------------------- reservation

  /** Blocks cover tokens in the same units as spans do. */
  lemma BlocksSpan(tokens: nat, width: nat, blockTokens: nat)
    requires blockTokens > 0
    ensures BlocksFor(tokens, blockTokens) <= width <==> tokens <= Span(width, blockTokens)
  {
    var n := BlocksFor(tokens, blockTokens);
    var sum := tokens + blockTokens - 1;
    assert sum == n * blockTokens + sum % blockTokens;
    SpanIs(n, blockTokens);
    SpanIs(width, blockTokens);
    MultiplesOrdered(n, width, blockTokens);
    MultiplesOrdered(width, n, blockTokens);
  }

  /** What a new slice has to satisfy before its reservation. */
  ghost predicate Next(s: State, frontier: map<nat, nat>, reserved: seq<Slice>, slice: Slice)
  {
    && slice.request in s.kv && slice.request in frontier && s.kv[slice.request].tier.Hot?
    && slice.request !in InBatch(reserved) && slice.count > 0
    && slice.begin == frontier[slice.request] && slice.End() <= s.kv[slice.request].request.Lifetime()
  }

  /** Growing, committing to the writes and publishing the blocks the slice will fill. */
  lemma ReserveNewGood(s: State, batch: nat, slice: Slice, mems: Mems, frontier: map<nat, nat>, reserved: seq<Slice>,
                       exempt: set<nat>, cfg: Config)
    requires cfg.Valid() && Good(s, mems, frontier, reserved, exempt, cfg) && Next(s, frontier, reserved, slice)
    requires ReserveOne(s, batch, slice, cfg).Some?
    ensures Good(ReserveOne(s, batch, slice, cfg).value, mems, Advanced(frontier, slice), reserved + [slice], exempt, cfg)
  {
    hide Good, Inv, GrowTable, PublishFor, Continues;
    var id := slice.request;
    GoodInv(s, mems, frontier, reserved, exempt, cfg);
    ReserveOneExact(s, batch, slice, cfg);
    var grow := Grow(s.kv[id], slice.End(), cfg.blockTokens);
    var grown := GrowTable(s, id, grow).value;
    GrowFree(s, id, grow, cfg);
    GrowInv(s, id, grow, cfg);
    if grow > 0 {
      GrowGood(s, id, grow, mems, frontier, reserved, exempt, cfg);
    } else {
      NoGrowth(s, id);
    }
    MarkGood(grown, id, batch, mems, frontier, reserved, exempt, cfg);
    var marked := Marked(grown, id, batch);
    WiderCovers(s.kv[id], marked.kv[id], slice.End(), cfg);
    ContinuesMarked(s, marked, frontier, reserved, slice, cfg);
    SliceGood(marked, slice, mems, frontier, reserved, exempt, cfg);
    if cfg.Caching() {
      PublishForGood(marked, id, slice.End(), s.kv[id].request.arrival, true, mems, Advanced(frontier, slice),
                     reserved + [slice], exempt, cfg);
    }
  }

  lemma WiderCovers(st: RequestKv, marked: RequestKv, end: nat, cfg: Config)
    requires cfg.Valid() && end > 0 && marked.Width() == st.Width() + Grow(st, end, cfg.blockTokens)
    ensures BlocksFor(end, cfg.blockTokens) <= marked.Width() && end <= Span(marked.Width(), cfg.blockTokens)
    ensures marked.table != []
  {
    BlocksSpan(end, marked.Width(), cfg.blockTokens);
    BlocksCover(end, cfg.blockTokens);
  }

  lemma ContinuesMarked(s: State, marked: State, frontier: map<nat, nat>, reserved: seq<Slice>, slice: Slice, cfg: Config)
    requires Next(s, frontier, reserved, slice) && slice.request in marked.kv
    requires marked.kv[slice.request].tier == s.kv[slice.request].tier
    requires marked.kv[slice.request].request == s.kv[slice.request].request
    requires slice.End() <= Span(marked.kv[slice.request].Width(), cfg.blockTokens)
    ensures Continues(marked, frontier, reserved, slice, cfg)
  {
  }

  /** Repeating a reserved slice grows nothing and writes nothing new. */
  lemma ReserveAgainGood(s: State, batch: nat, slice: Slice, mems: Mems, frontier: map<nat, nat>, reserved: seq<Slice>,
                         exempt: set<nat>, cfg: Config)
    requires cfg.Valid() && Good(s, mems, frontier, reserved, exempt, cfg) && slice in reserved && slice.count > 0
    ensures ReserveOne(s, batch, slice, cfg).Some?
    ensures Good(ReserveOne(s, batch, slice, cfg).value, mems, frontier, reserved, exempt, cfg)
  {
    hide Good, Inv, GrowTable, PublishFor;
    var id := slice.request;
    ReservedCovered(s, mems, frontier, reserved, exempt, slice, cfg);
    NoGrowth(s, id);
    MarkGood(s, id, batch, mems, frontier, reserved, exempt, cfg);
    var marked := Marked(s, id, batch);
    assert marked.kv[id].Width() == s.kv[id].Width();
    if cfg.Caching() {
      PublishForGood(marked, id, slice.End(), s.kv[id].request.arrival, true, mems, frontier, reserved, exempt, cfg);
    }
  }

  lemma ReservedCovered(s: State, mems: Mems, frontier: map<nat, nat>, reserved: seq<Slice>, exempt: set<nat>, slice: Slice, cfg: Config)
    requires cfg.Valid() && Good(s, mems, frontier, reserved, exempt, cfg) && slice in reserved && slice.count > 0
    ensures slice.request in s.kv && s.kv[slice.request].tier.Hot? && slice.request in frontier
    ensures slice.End() <= frontier[slice.request]
    ensures BlocksFor(slice.End(), cfg.blockTokens) <= s.kv[slice.request].Width()
    ensures Grow(s.kv[slice.request], slice.End(), cfg.blockTokens) == 0 && s.kv[slice.request].table != []
  {
    hide Inv, AllRead, EntriesHold, Exclusive, Clean, Future;
    var i :| 0 <= i < |reserved| && reserved[i] == slice;
    BlocksSpan(slice.End(), s.kv[slice.request].Width(), cfg.blockTokens);
    BlocksCover(slice.End(), cfg.blockTokens);
  }

  lemma {:induction false} ReserveAgainAll(s: State, batch: nat, slices: seq<Slice>, mems: Mems, frontier: map<nat, nat>,
                                           reserved: seq<Slice>, exempt: set<nat>, cfg: Config)
    requires cfg.Valid() && Good(s, mems, frontier, reserved, exempt, cfg)
    requires forall i :: 0 <= i < |slices| ==> slices[i] in reserved && slices[i].count > 0
    ensures ReserveAll(s, batch, slices, cfg).Some?
    ensures Good(ReserveAll(s, batch, slices, cfg).value, mems, frontier, reserved, exempt, cfg)
    ensures SameShapes(s, ReserveAll(s, batch, slices, cfg).value)
    decreases |slices|
  {
    if slices != [] {
      hide Good, ReserveOne, SameShapes;
      var mid := AgainFirst(s, batch, slices[0], mems, frontier, reserved, exempt, cfg);
      ReserveAgainAll(mid, batch, slices[1..], mems, frontier, reserved, exempt, cfg);
      ShapesChain(s, mid, ReserveAll(mid, batch, slices[1..], cfg).value);
    } else {
      hide Good, ReserveOne;
    }
  }

  lemma AgainFirst(s: State, batch: nat, slice: Slice, mems: Mems, frontier: map<nat, nat>,
                   reserved: seq<Slice>, exempt: set<nat>, cfg: Config) returns (mid: State)
    requires cfg.Valid() && Good(s, mems, frontier, reserved, exempt, cfg) && slice in reserved && slice.count > 0
    ensures ReserveOne(s, batch, slice, cfg) == Some(mid)
    ensures Good(mid, mems, frontier, reserved, exempt, cfg) && SameShapes(s, mid)
  {
    hide Good, ReserveOne, Inv;
    ReserveAgainGood(s, batch, slice, mems, frontier, reserved, exempt, cfg);
    ReservedCovered(s, mems, frontier, reserved, exempt, slice, cfg);
    GoodInv(s, mems, frontier, reserved, exempt, cfg);
    ReserveOneExact(s, batch, slice, cfg);
    mid := ReserveOne(s, batch, slice, cfg).value;
  }

  lemma ShapesChain(a: State, b: State, c: State)
    requires SameShapes(a, b) && SameShapes(b, c)
    ensures SameShapes(a, c)
  {
  }

  /** Tiers and identities do not change. */
  ghost predicate SameShapes(s: State, next: State)
  {
    && next.kv.Keys == s.kv.Keys
    && forall id :: id in s.kv ==> next.kv[id].tier == s.kv[id].tier && next.kv[id].request == s.kv[id].request
  }

  ghost function AdvancedAll(frontier: map<nat, nat>, slices: seq<Slice>): map<nat, nat>
    decreases |slices|
  {
    if slices == [] then frontier else AdvancedAll(Advanced(frontier, slices[0]), slices[1..])
  }

  ghost predicate AllNext(s: State, frontier: map<nat, nat>, reserved: seq<Slice>, slices: seq<Slice>)
  {
    && (forall i :: 0 <= i < |slices| ==> Next(s, frontier, reserved, slices[i]))
    && (forall i, j :: 0 <= i < j < |slices| ==> slices[i].request != slices[j].request)
  }

  lemma {:induction false} ReserveNewAll(s: State, batch: nat, slices: seq<Slice>, mems: Mems, frontier: map<nat, nat>,
                                         reserved: seq<Slice>, exempt: set<nat>, cfg: Config)
    requires cfg.Valid() && Good(s, mems, frontier, reserved, exempt, cfg) && AllNext(s, frontier, reserved, slices)
    requires ReserveAll(s, batch, slices, cfg).Some?
    ensures Good(ReserveAll(s, batch, slices, cfg).value, mems, AdvancedAll(frontier, slices), reserved + slices, exempt, cfg)
    decreases |slices|
  {
    hide Good, ReserveOne, AllNext;
    if slices == [] {
      assert reserved + slices == reserved;
    } else {
      var mid := NewFirst(s, batch, slices, mems, frontier, reserved, exempt, cfg);
      ReserveNewAll(mid, batch, slices[1..], mems, Advanced(frontier, slices[0]), reserved + [slices[0]], exempt, cfg);
      assert reserved + [slices[0]] + slices[1..] == reserved + slices;
    }
  }

  lemma NewFirst(s: State, batch: nat, slices: seq<Slice>, mems: Mems, frontier: map<nat, nat>,
                 reserved: seq<Slice>, exempt: set<nat>, cfg: Config) returns (mid: State)
    requires cfg.Valid() && Good(s, mems, frontier, reserved, exempt, cfg) && AllNext(s, frontier, reserved, slices)
    requires slices != [] && ReserveOne(s, batch, slices[0], cfg).Some?
    ensures ReserveOne(s, batch, slices[0], cfg) == Some(mid)
    ensures Good(mid, mems, Advanced(frontier, slices[0]), reserved + [slices[0]], exempt, cfg)
    ensures AllNext(mid, Advanced(frontier, slices[0]), reserved + [slices[0]], slices[1..])
  {
    hide Good, ReserveOne, AllNext, Inv;
    NextFirst(s, frontier, reserved, slices);
    ReserveNewGood(s, batch, slices[0], mems, frontier, reserved, exempt, cfg);
    GoodInv(s, mems, frontier, reserved, exempt, cfg);
    ReserveOneExact(s, batch, slices[0], cfg);
    mid := ReserveOne(s, batch, slices[0], cfg).value;
    NextRest(s, mid, frontier, reserved, slices);
  }

  lemma NextFirst(s: State, frontier: map<nat, nat>, reserved: seq<Slice>, slices: seq<Slice>)
    requires slices != [] && AllNext(s, frontier, reserved, slices)
    ensures Next(s, frontier, reserved, slices[0])
  {
  }

  lemma NextRest(s: State, mid: State, frontier: map<nat, nat>, reserved: seq<Slice>, slices: seq<Slice>)
    requires slices != [] && AllNext(s, frontier, reserved, slices) && slices[0].request in s.kv
    requires GrewOnly(s, mid, slices[0].request)
    ensures AllNext(mid, Advanced(frontier, slices[0]), reserved + [slices[0]], slices[1..])
  {
    InBatchPush(reserved, slices[0]);
    var rest := slices[1..];
    forall i | 0 <= i < |rest| ensures Next(mid, Advanced(frontier, slices[0]), reserved + [slices[0]], rest[i]) {
      assert rest[i] == slices[i + 1] && Next(s, frontier, reserved, slices[i + 1]);
    }
  }

  lemma {:induction false} ReserveAllSplit(s: State, batch: nat, a: seq<Slice>, b: seq<Slice>, cfg: Config)
    requires cfg.Valid() && ReserveAll(s, batch, a, cfg).Some?
    ensures ReserveAll(s, batch, a + b, cfg) == ReserveAll(ReserveAll(s, batch, a, cfg).value, batch, b, cfg)
    decreases |a|
  {
    hide ReserveOne;
    if a == [] {
      assert a + b == b;
    } else {
      ReserveAllSplit(ReserveOne(s, batch, a[0], cfg).value, batch, a[1..], b, cfg);
      assert (a + b)[1..] == a[1..] + b;
    }
  }
}
