/** Admission and the contents: a prefix hit hands the new request blocks that already hold,
    or will hold once the current batch ran, exactly the tokens of its own prompt.
 */
module KvAdmission {
  import opened Modular
  import opened PrefixKeys
  import opened PrefixSpec
  import opened PrefixProvenance
  import opened Tables
  import opened PlacementSpec
  import opened PlacementInvariant
  import opened PlacementRuns
  import opened KvMemory
  import opened KvRefinement
  import opened KvPublish

  ghost function Admitted(s: State, p: Prefix, st: RequestKv): State
  {
    s.WithCache(p).(kv := s.kv[st.request.id := st], nextOrder := s.nextOrder + 1)
  }

  /** A block of a hit is no block that still awaits tokens. */
  ghost predicate OffTable(s: State, frontier: map<nat, nat>, table: Table, cfg: Config)
    requires frontier.Keys == s.kv.Keys
  {
    forall id: nat, l: nat, o: nat :: id in s.kv && s.kv[id].tier.Hot? && Unfinished(s.kv[id], frontier[id], cfg.blockTokens, l, o)
      ==> s.kv[id].table[l][o] !in Cells(table)
  }

  /** The new request's blocks are all finished and hold its tokens. */
  ghost predicate Arriving(st: RequestKv, front: nat, memory: Memory, cfg: Config)
  {
    && st.tier.Hot? && ReadsRight(st, front, memory, cfg.blockTokens)
    && front <= Span(st.Width(), cfg.blockTokens) && front <= st.request.Lifetime()
    && forall l: nat, o: nat :: !Unfinished(st, front, cfg.blockTokens, l, o)
  }

  lemma AdmittedGood(s: State, p: Prefix, st: RequestKv, front: nat, mems: Mems, frontier: map<nat, nat>,
                     reserved: seq<Slice>, exempt: set<nat>, cfg: Config)
    requires Good(s, mems, frontier, reserved, exempt, cfg) && st.request.id !in s.kv && st.order == s.nextOrder
    requires Accounted(p, cfg.budget, Held(s.kv, Hot) + Cells(st.table)) && Shaped(st, cfg)
    requires EntriesHold(p.entries, Future(s, mems, reserved, cfg).hot, cfg) && KeepsOff(s, frontier, p.entries, cfg)
    requires OffTable(s, frontier, st.table, cfg) && Arriving(st, front, Future(s, mems, reserved, cfg).hot, cfg)
    ensures Good(Admitted(s, p, st), mems, frontier[st.request.id := front], reserved, exempt + {st.request.id}, cfg)
  {
    hide Inv, Accounted, Shaped, ReadsRight, BlocksHold, Dirty, WriteAll, Held, Unfinished, KeepsOff, OffTable, Exclusive,
         Arriving, Covering, AllRead;
    var next := Admitted(s, p, st);
    GoodInv(s, mems, frontier, reserved, exempt, cfg);
    ArrivingHot(st, front, Future(s, mems, reserved, cfg).hot, cfg);
    NewRequestInv(s, p, st, cfg);
    NewOutside(s, st.request.id, frontier, reserved);
    assert SameTables(s.kv, next.kv, reserved);
    WriteFrame(ApplyAll(mems, s.migrations).hot, s.kv, next.kv, reserved, cfg.blockTokens);
    assert Future(next, mems, reserved, cfg) == Future(s, mems, reserved, cfg);
    AdmittedExclusive(s, p, st, front, Future(s, mems, reserved, cfg).hot, frontier, cfg);
    AdmittedReads(s, p, st, front, Future(s, mems, reserved, cfg), frontier, cfg);
  }

  lemma ArrivingHot(st: RequestKv, front: nat, memory: Memory, cfg: Config)
    requires Arriving(st, front, memory, cfg)
    ensures st.tier.Hot?
  {
  }

  lemma NewOutside(s: State, id: nat, frontier: map<nat, nat>, reserved: seq<Slice>)
    requires frontier.Keys == s.kv.Keys && BatchOk(s, frontier, reserved) && id !in s.kv
    ensures forall i :: 0 <= i < |reserved| ==> reserved[i].request != id
  {
  }

  lemma AdmittedReads(s: State, p: Prefix, st: RequestKv, front: nat, mems: Mems, frontier: map<nat, nat>, cfg: Config)
    requires Covering(s, frontier, cfg) && frontier.Keys == s.kv.Keys && AllRead(s, frontier, mems, cfg)
    requires st.request.id !in s.kv && Arriving(st, front, mems.hot, cfg)
    ensures Covering(Admitted(s, p, st), frontier[st.request.id := front], cfg)
    ensures AllRead(Admitted(s, p, st), frontier[st.request.id := front], mems, cfg)
  {
    hide ReadsRight;
  }

  lemma AdmittedExclusive(s: State, p: Prefix, st: RequestKv, front: nat, memory: Memory, frontier: map<nat, nat>, cfg: Config)
    requires Inv(s, cfg) && frontier.Keys == s.kv.Keys && Exclusive(s, frontier, cfg) && st.request.id !in s.kv
    requires Accounted(p, cfg.budget, Held(s.kv, Hot) + Cells(st.table))
    requires KeepsOff(s, frontier, p.entries, cfg) && OffTable(s, frontier, st.table, cfg) && Arriving(st, front, memory, cfg)
    ensures Exclusive(Admitted(s, p, st), frontier[st.request.id := front], cfg)
  {
    hide Inv, Accounted, Held, EntryCells, Unfinished, ReadsRight;
    var next := Admitted(s, p, st);
    var frontier' := frontier[st.request.id := front];
    forall id: nat, l: nat, o: nat | id in next.kv && next.kv[id].tier.Hot? && Unfinished(next.kv[id], frontier'[id], cfg.blockTokens, l, o)
      ensures UnfinishedCell(next, frontier', id, l, o, cfg) && p.pool.refs[next.kv[id].table[l][o]] == 1
    {
      UnfinishedMeans(next, frontier', id, l, o, cfg);
      assert id != st.request.id;
      UnfinishedMeans(s, frontier, id, l, o, cfg);
      UnsharedMeans(s, cfg, id, l, o);
      AvoidsCells(p.entries, s.kv[id].table[l][o]);
      AccountedRefs(p, cfg.budget, Held(s.kv, Hot) + Cells(st.table));
    }
  }

  lemma AccountedRefs(p: Prefix, budget: Budget, others: multiset<nat>)
    requires Accounted(p, budget, others)
    ensures p.pool.refs == EntryCells(p.entries) + others
  {
  }

  // --------------------------------------------------------------------- hits

  /** Hits and surviving entries were all entries before. */
  lemma HitsGood(p: Prefix, request: Request, keys: seq<Key>, now: nat, cfg: Config, good: (Key, seq<nat>) -> bool)
    requires cfg.Valid() && request.Valid() && AllGood(p.entries, good)
    ensures var hits := AdmissionHits(p, request, keys, now, cfg);
      && AllGood(hits.p.entries, good) && |hits.found| <= |keys|
      && |hits.found| <= (request.promptTokens - 1) / cfg.blockTokens
      && forall i :: 0 <= i < |hits.found| ==> good(keys[i], hits.found[i])
  {
    LookupHitsGood(p, keys, (request.promptTokens - 1) / cfg.blockTokens, now, cfg.budget, good);
  }

  lemma LookupHitsGood(p: Prefix, keys: seq<Key>, most: nat, now: nat, budget: Budget, good: (Key, seq<nat>) -> bool)
    requires AllGood(p.entries, good)
    ensures var hits := Lookup(p, keys, most, now, budget);
      && AllGood(hits.p.entries, good) && |hits.found| <= |keys| && |hits.found| <= most
      && forall i :: 0 <= i < |hits.found| ==> good(keys[i], hits.found[i])
  {
    hide AllGood, LookupFrom, ExpireFrom;
    var asked := if most < |keys| then keys[..most] else keys;
    ExpireGood(p, 0, now, budget, good);
    LookupGood(Expire(p, now, budget), asked, [], good);
  }

  ghost predicate HitsHold(request: Request, keys: seq<Key>, found: seq<seq<nat>>, memory: Memory, cfg: Config)
  {
    && |found| <= |keys| && (forall i :: 0 <= i < |found| ==> |found[i]| == request.model.layers)
    && (forall i :: 0 <= i < |found| ==> BlocksHold(keys[i], found[i], memory, cfg.blockTokens))
  }

  /** The table built from the hits reads as the request's own prompt prefix. */
  lemma HitsArrive(st: RequestKv, found: seq<seq<nat>>, memory: Memory, cfg: Config)
    requires cfg.Valid() && st.request.Valid() && st.tier.Hot? && RightKeys(st.request, st.keys, cfg)
    requires HitsHold(st.request, st.keys, found, memory, cfg)
    requires |found| <= (st.request.promptTokens - 1) / cfg.blockTokens
    requires HitTable(found, st.request.model.layers) == Some(st.table)
    ensures Arriving(st, |found| * cfg.blockTokens, memory, cfg)
    ensures |found| * cfg.blockTokens < st.request.promptTokens
  {
    var front := |found| * cfg.blockTokens;
    SpanIs(|found|, cfg.blockTokens);
    HitFrontier(|found|, st.request.promptTokens, cfg.blockTokens);
    assert st.Width() == |found|;
    forall l: nat, o: nat, w: nat
      | l < |st.table| && o < |st.table[l]| && w < cfg.blockTokens && Span(o, cfg.blockTokens) + w < front
      ensures TokenAt(st, memory, cfg.blockTokens, l, o, w)
    {
      HitReads(st, found, memory, l, o, w, cfg);
    }
    forall l: nat, o: nat ensures !Unfinished(st, front, cfg.blockTokens, l, o) {
      if l < |st.table| && o < |st.table[l]| {
        SpanOrdered(o + 1, |found|, cfg.blockTokens);
      }
    }
  }

  lemma HitFrontier(n: nat, promptTokens: nat, blockTokens: nat)
    requires blockTokens > 0 && promptTokens > 0 && n <= (promptTokens - 1) / blockTokens
    ensures n * blockTokens <= promptTokens - 1
  {
    MultiplesOrdered(n, (promptTokens - 1) / blockTokens, blockTokens);
  }

  lemma HitReads(st: RequestKv, found: seq<seq<nat>>, memory: Memory, l: nat, o: nat, w: nat, cfg: Config)
    requires HitsHold(st.request, st.keys, found, memory, cfg) && KeysOf(st.request, cfg.blockTokens, st.keys)
    requires HitTable(found, st.request.model.layers) == Some(st.table)
    requires l < |st.table| && o < |st.table[l]| && w < cfg.blockTokens
    ensures TokenAt(st, memory, cfg.blockTokens, l, o, w)
  {
    hide KeysOf;
    assert st.table[l][o] == found[o][l];
    assert BlocksHold(st.keys[o], found[o], memory, cfg.blockTokens);
    KeyedSlot(st, o, l, w, cfg);
  }

  lemma OffHits(s: State, frontier: map<nat, nat>, p: Prefix, request: Request, keys: seq<Key>, now: nat, table: Table, cfg: Config)
    requires cfg.Valid() && request.Valid() && frontier.Keys == s.kv.Keys && KeepsOff(s, frontier, s.entries, cfg)
    requires p == AdmissionHits(s.Cache(), request, keys, now, cfg).p
    requires HitTable(AdmissionHits(s.Cache(), request, keys, now, cfg).found, request.model.layers) == Some(table)
    requires forall i :: 0 <= i < |AdmissionHits(s.Cache(), request, keys, now, cfg).found| ==>
      |AdmissionHits(s.Cache(), request, keys, now, cfg).found[i]| == request.model.layers
    ensures KeepsOff(s, frontier, p.entries, cfg) && OffTable(s, frontier, table, cfg)
  {
    hide AdmissionHits, Unfinished, HitTable, Avoids;
    var found := AdmissionHits(s.Cache(), request, keys, now, cfg).found;
    forall id: nat, l: nat, o: nat | id in s.kv && s.kv[id].tier.Hot? && Unfinished(s.kv[id], frontier[id], cfg.blockTokens, l, o)
      ensures UnfinishedCell(s, frontier, id, l, o, cfg)
      ensures AllGood(p.entries, Avoids(s.kv[id].table[l][o])) && s.kv[id].table[l][o] !in Cells(table)
    {
      UnfinishedMeans(s, frontier, id, l, o, cfg);
      var b := s.kv[id].table[l][o];
      HitsGood(s.Cache(), request, keys, now, cfg, Avoids(b));
      forall i | 0 <= i < |found| ensures b !in found[i] {
        AvoidsMeans(keys[i], found[i], b);
      }
      NotInHits(found, request.model.layers, table, b);
    }
  }

  lemma NotInHits(found: seq<seq<nat>>, layers: nat, table: Table, b: nat)
    requires HitTable(found, layers) == Some(table) && forall i :: 0 <= i < |found| ==> |found[i]| == layers
    ensures b in Cells(table) ==> exists i :: 0 <= i < |found| && b in found[i]
  {
    if b in Cells(table) {
      var l, o := CellAt(table, b);
      assert table[l][o] == found[o][l];
    }
  }

  ghost function HitFront(s: State, request: Request, keys: seq<Key>, now: nat, cfg: Config): nat
    requires cfg.Valid() && request.Valid()
  {
    if !cfg.Caching() || request.tokens.None? then 0
    else |AdmissionHits(s.Cache(), request, keys, now, cfg).found| * cfg.blockTokens
  }

  /** Admission keeps every promise.  The new request starts behind its prefix hits, strictly
      inside its prompt, and is not part of the batch in the making yet. */
  lemma AdmitGood(s: State, request: Request, now: nat, mems: Mems, frontier: map<nat, nat>, reserved: seq<Slice>, cfg: Config)
    requires cfg.Valid() && Good(s, mems, frontier, reserved, {}, cfg) && request.Valid() && request.id !in s.kv
    ensures var keys := KeysFor(request, cfg.blockTokens);
      && Admit(s, request, keys, now, cfg).Some?
      && HitFront(s, request, keys, now, cfg) < request.promptTokens
      && Admit(s, request, keys, now, cfg).value.kv.Keys == s.kv.Keys + {request.id}
      && Admit(s, request, keys, now, cfg).value.kv[request.id].hitTokens == HitFront(s, request, keys, now, cfg)
      && Good(Admit(s, request, keys, now, cfg).value, mems, frontier[request.id := HitFront(s, request, keys, now, cfg)],
              reserved, {request.id}, cfg)
  {
    hide Good, Arriving;
    var keys := KeysFor(request, cfg.blockTokens);
    if cfg.Caching() && request.tokens.Some? {
      HitGood(s, request, keys, now, mems, frontier, reserved, cfg);
    } else {
      NewGood(s, request, mems, frontier, reserved, cfg);
      assert s.WithCache(s.Cache()) == s;
    }
  }

  lemma NewGood(s: State, request: Request, mems: Mems, frontier: map<nat, nat>, reserved: seq<Slice>, cfg: Config)
    requires Good(s, mems, frontier, reserved, {}, cfg) && request.Valid() && request.id !in s.kv
    ensures Good(Admitted(s, s.Cache(), RequestKv(request, s.nextOrder, Hot, [], -1, [], 0)), mems, frontier[request.id := 0],
                 reserved, {request.id}, cfg)
  {
    var st := RequestKv(request, s.nextOrder, Hot, [], -1, [], 0);
    GoodInv(s, mems, frontier, reserved, {}, cfg);
    KeepsOffNow(s, frontier, cfg);
    InvParts(s, cfg);
    assert Held(s.kv, Hot) + Cells([]) == Held(s.kv, Hot);
    assert {} + {request.id} == {request.id};
    EmptyArrives(st, Future(s, mems, reserved, cfg).hot, cfg);
    NewParts(s, mems, frontier, reserved, cfg);
    hide Good, Accounted, KeepsOff, Unfinished, EntriesHold, Future, Held, Arriving;
    AdmittedGood(s, s.Cache(), st, 0, mems, frontier, reserved, {}, cfg);
  }

  lemma NewParts(s: State, mems: Mems, frontier: map<nat, nat>, reserved: seq<Slice>, cfg: Config)
    requires Good(s, mems, frontier, reserved, {}, cfg)
    ensures frontier.Keys == s.kv.Keys && EntriesHold(s.Cache().entries, Future(s, mems, reserved, cfg).hot, cfg)
    ensures OffTable(s, frontier, [], cfg)
  {
  }

  lemma EmptyArrives(st: RequestKv, memory: Memory, cfg: Config)
    requires st.tier.Hot? && st.table == [] && st.request.Valid()
    ensures Arriving(st, 0, memory, cfg)
  {
  }

  lemma HitGood(s: State, request: Request, keys: seq<Key>, now: nat, mems: Mems, frontier: map<nat, nat>, reserved: seq<Slice>, cfg: Config)
    requires cfg.Valid() && Good(s, mems, frontier, reserved, {}, cfg) && request.Valid() && request.id !in s.kv
    requires cfg.Caching() && request.tokens.Some? && keys == KeysFor(request, cfg.blockTokens)
    ensures var hits := AdmissionHits(s.Cache(), request, keys, now, cfg);
      && HitTable(hits.found, request.model.layers).Some?
      && |hits.found| * cfg.blockTokens < request.promptTokens
      && Good(Admitted(s, hits.p, RequestKv(request, s.nextOrder, Hot, HitTable(hits.found, request.model.layers).value, -1, keys,
                                            |hits.found| * cfg.blockTokens)),
              mems, frontier[request.id := |hits.found| * cfg.blockTokens], reserved, {request.id}, cfg)
  {
    hide Good, Inv, Accounted, HitTable, AdmissionHits, KeepsOff, OffTable, Arriving, Shaped, EntriesHold, Future, KeysFor, RightKeys,
         HitsHold, Held, Cells;
    GoodInv(s, mems, frontier, reserved, {}, cfg);
    InvParts(s, cfg);
    KeysRight(request, cfg);
    HitFacts(s.Cache(), request, keys, now, cfg, Held(s.kv, Hot));
    var hits := AdmissionHits(s.Cache(), request, keys, now, cfg);
    var table := HitTable(hits.found, request.model.layers).value;
    var st := RequestKv(request, s.nextOrder, Hot, table, -1, keys, |hits.found| * cfg.blockTokens);
    HitShaped(st, |hits.found|, cfg);
    EntriesNow(s, mems, frontier, reserved, cfg);
    var memory := Future(s, mems, reserved, cfg).hot;
    HitsHeld(s.Cache(), request, keys, now, memory, cfg);
    RightMeans(request, keys, cfg);
    HitsArrive(st, hits.found, memory, cfg);
    OffHits(s, frontier, hits.p, request, keys, now, table, cfg);
    assert {} + {request.id} == {request.id};
    AdmittedGood(s, hits.p, st, |hits.found| * cfg.blockTokens, mems, frontier, reserved, {}, cfg);
  }

  lemma RightMeans(request: Request, keys: seq<Key>, cfg: Config)
    requires RightKeys(request, keys, cfg)
    ensures KeysOf(request, cfg.blockTokens, keys)
  {
  }

  lemma EntriesNow(s: State, mems: Mems, frontier: map<nat, nat>, reserved: seq<Slice>, cfg: Config)
    requires Good(s, mems, frontier, reserved, {}, cfg)
    ensures EntriesHold(s.Cache().entries, Future(s, mems, reserved, cfg).hot, cfg)
    ensures frontier.Keys == s.kv.Keys && KeepsOff(s, frontier, s.entries, cfg)
  {
    KeepsOffNow(s, frontier, cfg);
  }

  lemma HitsHeld(p: Prefix, request: Request, keys: seq<Key>, now: nat, memory: Memory, cfg: Config)
    requires cfg.Valid() && request.Valid() && EntriesHold(p.entries, memory, cfg)
    requires forall i :: 0 <= i < |AdmissionHits(p, request, keys, now, cfg).found| ==>
      |AdmissionHits(p, request, keys, now, cfg).found[i]| == request.model.layers
    ensures var hits := AdmissionHits(p, request, keys, now, cfg);
      && EntriesHold(hits.p.entries, memory, cfg) && HitsHold(request, keys, hits.found, memory, cfg)
      && |hits.found| <= (request.promptTokens - 1) / cfg.blockTokens
  {
    hide AdmissionHits, BlocksHold;
    EntriesHoldAll(p.entries, memory, cfg);
    HitsGood(p, request, keys, now, cfg, Holds(memory, cfg));
    EntriesHoldAll(AdmissionHits(p, request, keys, now, cfg).p.entries, memory, cfg);
  }
}
