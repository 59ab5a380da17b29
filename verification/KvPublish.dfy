/** Cache operations and the contents: a block is published only when all its tokens are
    decided, so an entry holds what its key promises and names no block still being filled.
 */
module KvPublish {
  import opened PrefixKeys
  import opened PrefixSpec
  import opened PrefixProvenance
  import opened Tables
  import opened PlacementSpec
  import opened PlacementInvariant
  import opened PlannerSoundness
  import opened KvMemory
  import opened KvRefinement

  /** Blocks before the published count lie below the frontier and inside the prompt. */
  ghost predicate Finished(st: RequestKv, complete: nat, frontier: nat, cfg: Config)
  {
    && (forall l :: 0 <= l < |st.table| ==> complete <= |st.table[l]|)
    && (forall o: nat :: o < complete ==> Filled(o, frontier, cfg.blockTokens))
  }

  ghost predicate Filled(o: nat, frontier: nat, blockTokens: nat)
  {
    Span(o + 1, blockTokens) <= frontier
  }

  lemma CompleteFinished(st: RequestKv, end: nat, frontier: nat, cfg: Config)
    requires cfg.Valid() && end <= frontier
    requires forall l :: 0 <= l < |st.table| ==> Min(end, st.request.promptTokens) / cfg.blockTokens <= |st.table[l]|
    ensures Finished(st, Min(end, st.request.promptTokens) / cfg.blockTokens, frontier, cfg)
  {
    var n := Min(end, st.request.promptTokens);
    forall o: nat | o < n / cfg.blockTokens ensures Filled(o, frontier, cfg.blockTokens) {
      WholeBlocks(n, cfg.blockTokens, o);
    }
  }

  /** A finished block holds what its key stands for. */
  lemma FinishedHolds(st: RequestKv, frontier: nat, memory: Memory, complete: nat, o: nat, cfg: Config)
    requires ReadsRight(st, frontier, memory, cfg.blockTokens) && Finished(st, complete, frontier, cfg)
    requires o < complete && o < |st.keys| && KeysOf(st.request, cfg.blockTokens, st.keys)
    requires forall l :: 0 <= l < |st.table| ==> o < |st.table[l]|
    ensures BlocksHold(st.keys[o], Selected(st.table, o), memory, cfg.blockTokens)
  {
    hide Finished, ReadsRight, KeysOf;
    var blocks := Selected(st.table, o);
    forall l: nat, w: nat | l < |blocks| && w < cfg.blockTokens
      ensures Stored(memory, blocks[l], w, KeyModel(st.keys[o]).TokenBytes(l), KeyContent(st.keys[o], l, cfg.blockTokens, w))
    {
      FinishedSlot(st, frontier, memory, complete, o, l, w, cfg);
      KeyedSlot(st, o, l, w, cfg);
    }
  }

  lemma FinishedSlot(st: RequestKv, frontier: nat, memory: Memory, complete: nat, o: nat, l: nat, w: nat, cfg: Config)
    requires ReadsRight(st, frontier, memory, cfg.blockTokens) && Finished(st, complete, frontier, cfg)
    requires o < complete && l < |st.table| && w < cfg.blockTokens
    ensures o < |st.table[l]| && TokenAt(st, memory, cfg.blockTokens, l, o, w)
  {
    assert Filled(o, frontier, cfg.blockTokens);
    assert o < |st.table[l]|;
    var b := st.table[l][o];
  }

  lemma KeyedSlot(st: RequestKv, o: nat, l: nat, w: nat, cfg: Config)
    requires o < |st.keys| && KeysOf(st.request, cfg.blockTokens, st.keys) && w < cfg.blockTokens
    ensures KeyModel(st.keys[o]) == st.request.model
    ensures KeyContent(st.keys[o], l, cfg.blockTokens, w) == KvOf(st.request, l, Span(o, cfg.blockTokens) + w)
  {
    hide KeyModel, KeyContent, KvOf, Parent;
    KeyAt(st.request, cfg.blockTokens, |st.keys|, o);
    KeyContentIsKv(st.request, cfg.blockTokens, o, l, w);
    KeyedModel(st.request, cfg.blockTokens, o + 1);
  }

  lemma KeyedModel(request: Request, blockTokens: nat, count: nat)
    requires request.tokens.Some? && Span(count, blockTokens) <= |request.tokens.value|
    ensures KeyModel(Parent(request, blockTokens, count)) == request.model
  {
    hide Span;
    ParentMeans(request, blockTokens, count);
  }

  /** A finished block is not one that still awaits tokens. */
  lemma FinishedAvoids(s: State, frontier: map<nat, nat>, id: nat, complete: nat, o: nat, id': nat, l': nat, o': nat, cfg: Config)
    requires Inv(s, cfg) && frontier.Keys == s.kv.Keys && Exclusive(s, frontier, cfg)
    requires id in s.kv && s.kv[id].tier.Hot? && Finished(s.kv[id], complete, frontier[id], cfg) && o < complete
    requires id' in s.kv && s.kv[id'].tier.Hot? && Unfinished(s.kv[id'], frontier[id'], cfg.blockTokens, l', o')
    ensures s.kv[id'].table[l'][o'] !in Selected(s.kv[id].table, o)
  {
    var b := s.kv[id'].table[l'][o'];
    var blocks := Selected(s.kv[id].table, o);
    if b in blocks {
      var l :| 0 <= l < |blocks| && blocks[l] == b;
      assert Filled(o, frontier[id], cfg.blockTokens);
      CellIn(s.kv[id].table, l, o);
      UnsharedMeans(s, cfg, id', l', o');
      UnsharedCell(s, cfg, id', l', o', l, o);
      assert false;
    }
  }

  lemma PublishForGood(s: State, id: nat, end: nat, now: nat, pending: bool, mems: Mems, frontier: map<nat, nat>,
                       reserved: seq<Slice>, exempt: set<nat>, cfg: Config)
    requires cfg.Valid() && Good(s, mems, frontier, reserved, exempt, cfg)
    requires id in s.kv && s.kv[id].tier.Hot? && s.kv[id].table != []
    requires BlocksFor(end, cfg.blockTokens) <= s.kv[id].Width() && end <= frontier[id]
    ensures PublishFor(s, id, end, now, pending, cfg).Some?
    ensures Good(PublishFor(s, id, end, now, pending, cfg).value, mems, frontier, reserved, exempt, cfg)
    ensures PublishFor(s, id, end, now, pending, cfg).value.kv == s.kv
  {
    hide Inv, Good, Accounted, EntriesHold, KeepsOff, PublishFrom, Finished;
    var st := s.kv[id];
    var complete := Min(end, st.request.promptTokens) / cfg.blockTokens;
    GoodInv(s, mems, frontier, reserved, exempt, cfg);
    PublishForFree(s, id, end, now, pending, cfg);
    var p := Publish(s.Cache(), st.keys, st.table, complete, now, pending, cfg.budget);
    var next := PublishFor(s, id, end, now, pending, cfg).value;
    assert next == s.WithCache(p) && next.Cache() == p;
    InvParts(next, cfg);
    CompleteFinished(st, end, frontier[id], cfg);
    PublishHolds(s, id, complete, now, pending, mems, frontier, reserved, exempt, cfg);
    PublishKeepsOff(s, id, complete, now, pending, frontier, reserved, mems, exempt, cfg);
    CacheGood(s, p, mems, frontier, reserved, exempt, cfg);
  }

  lemma PublishHolds(s: State, id: nat, complete: nat, now: nat, pending: bool, mems: Mems, frontier: map<nat, nat>,
                     reserved: seq<Slice>, exempt: set<nat>, cfg: Config)
    requires Good(s, mems, frontier, reserved, exempt, cfg) && id in s.kv && s.kv[id].tier.Hot?
    requires frontier.Keys == s.kv.Keys && Finished(s.kv[id], complete, frontier[id], cfg)
    ensures forall l :: 0 <= l < |s.kv[id].table| ==> complete <= |s.kv[id].table[l]|
    ensures EntriesHold(Publish(s.Cache(), s.kv[id].keys, s.kv[id].table, complete, now, pending, cfg.budget).entries,
                        Future(s, mems, reserved, cfg).hot, cfg)
  {
    hide Inv, Exclusive, Clean, Covering, BatchOk, Future, PublishFrom, ReadsRight, EntriesHold, Holds;
    var st := s.kv[id];
    var memory := Future(s, mems, reserved, cfg).hot;
    var good := Holds(memory, cfg);
    EntriesHoldAll(s.entries, memory, cfg);
    ExpireGood(s.Cache(), 0, now, cfg.budget, good);
    ShapedKeys(s, id, cfg);
    forall o | 0 <= o < complete && o < |st.keys| ensures good(st.keys[o], Selected(st.table, o)) {
      FinishedHolds(st, frontier[id], memory, complete, o, cfg);
      HoldsMeans(st.keys[o], Selected(st.table, o), memory, cfg);
    }
    var live := Expire(s.Cache(), now, cfg.budget);
    PublishGood(live, st.keys, st.table, 0, complete, now, pending, cfg.budget, good);
    EntriesHoldAll(Publish(s.Cache(), st.keys, st.table, complete, now, pending, cfg.budget).entries, memory, cfg);
  }

  lemma HoldsMeans(key: Key, blocks: seq<nat>, memory: Memory, cfg: Config)
    ensures Holds(memory, cfg)(key, blocks) <==> BlocksHold(key, blocks, memory, cfg.blockTokens)
  {
  }

  lemma ShapedKeys(s: State, id: nat, cfg: Config)
    requires Inv(s, cfg) && id in s.kv
    ensures s.kv[id].keys != [] ==> KeysOf(s.kv[id].request, cfg.blockTokens, s.kv[id].keys)
  {
    assert Shaped(s.kv[id], cfg);
  }

  lemma PublishKeepsOff(s: State, id: nat, complete: nat, now: nat, pending: bool, frontier: map<nat, nat>,
                        reserved: seq<Slice>, mems: Mems, exempt: set<nat>, cfg: Config)
    requires Good(s, mems, frontier, reserved, exempt, cfg) && id in s.kv && s.kv[id].tier.Hot?
    requires frontier.Keys == s.kv.Keys && Finished(s.kv[id], complete, frontier[id], cfg)
    ensures forall l :: 0 <= l < |s.kv[id].table| ==> complete <= |s.kv[id].table[l]|
    ensures KeepsOff(s, frontier, Publish(s.Cache(), s.kv[id].keys, s.kv[id].table, complete, now, pending, cfg.budget).entries, cfg)
  {
    hide Inv, Exclusive, Clean, Covering, BatchOk, Future, PublishFrom, AllRead, EntriesHold, Avoids, Unfinished;
    var st := s.kv[id];
    KeepsOffNow(s, frontier, cfg);
    var live := Expire(s.Cache(), now, cfg.budget);
    forall id': nat, l': nat, o': nat
      | id' in s.kv && s.kv[id'].tier.Hot? && Unfinished(s.kv[id'], frontier[id'], cfg.blockTokens, l', o')
      ensures UnfinishedCell(s, frontier, id', l', o', cfg)
      ensures AllGood(Publish(s.Cache(), st.keys, st.table, complete, now, pending, cfg.budget).entries, Avoids(s.kv[id'].table[l'][o']))
    {
      UnfinishedMeans(s, frontier, id', l', o', cfg);
      var b := s.kv[id'].table[l'][o'];
      ExpireGood(s.Cache(), 0, now, cfg.budget, Avoids(b));
      forall o | 0 <= o < complete && o < |st.keys| ensures Avoids(b)(st.keys[o], Selected(st.table, o)) {
        FinishedAvoids(s, frontier, id, complete, o, id', l', o', cfg);
        AvoidsMeans(st.keys[o], Selected(st.table, o), b);
      }
      PublishGood(live, st.keys, st.table, 0, complete, now, pending, cfg.budget, Avoids(b));
    }
  }

  ghost predicate UnfinishedCell(s: State, frontier: map<nat, nat>, id: nat, l: nat, o: nat, cfg: Config)
  {
    id in s.kv && l < |s.kv[id].table| && o < |s.kv[id].table[l]|
  }

  lemma UnfinishedMeans(s: State, frontier: map<nat, nat>, id: nat, l: nat, o: nat, cfg: Config)
    requires id in s.kv && id in frontier && Unfinished(s.kv[id], frontier[id], cfg.blockTokens, l, o)
    ensures UnfinishedCell(s, frontier, id, l, o, cfg)
  {
  }

  lemma AvoidsMeans(key: Key, blocks: seq<nat>, b: nat)
    ensures Avoids(b)(key, blocks) <==> b !in blocks
  {
  }

  // ------------------------------------------------------- eviction, release

  /** Evicting keeps every promise: the other entries keep their blocks. */
  lemma EvictGood(s: State, i: nat, mems: Mems, frontier: map<nat, nat>, reserved: seq<Slice>, exempt: set<nat>, cfg: Config)
    requires Good(s, mems, frontier, reserved, exempt, cfg) && i < |s.entries|
    ensures Good(s.WithCache(Evict(s.Cache(), i, cfg.budget)), mems, frontier, reserved, exempt, cfg)
  {
    hide Inv, Accounted, Held;
    var p := Evict(s.Cache(), i, cfg.budget);
    InvParts(s, cfg);
    EvictAccounted(s.Cache(), i, cfg.budget, Held(s.kv, Hot));
    Subentries(s, p.entries, mems, frontier, reserved, exempt, cfg);
    CacheGood(s, p, mems, frontier, reserved, exempt, cfg);
  }

  /** A cache that only drops or reorders entries keeps the entries' promises. */
  lemma Subentries(s: State, entries: seq<Entry>, mems: Mems, frontier: map<nat, nat>, reserved: seq<Slice>, exempt: set<nat>, cfg: Config)
    requires Good(s, mems, frontier, reserved, exempt, cfg)
    requires forall j :: 0 <= j < |entries| ==> exists k :: 0 <= k < |s.entries| && entries[j] == s.entries[k]
    ensures EntriesHold(entries, Future(s, mems, reserved, cfg).hot, cfg) && KeepsOff(s, frontier, entries, cfg)
  {
    hide Inv, AllRead, Exclusive, Clean, BatchOk, Covering, Future, BlocksHold, Unfinished, Avoids;
    GoodInv(s, mems, frontier, reserved, exempt, cfg);
    KeepsOffNow(s, frontier, cfg);
    forall id: nat, l: nat, o: nat | id in s.kv && s.kv[id].tier.Hot? && Unfinished(s.kv[id], frontier[id], cfg.blockTokens, l, o)
      ensures UnfinishedCell(s, frontier, id, l, o, cfg) && AllGood(entries, Avoids(s.kv[id].table[l][o]))
    {
      UnfinishedMeans(s, frontier, id, l, o, cfg);
    }
  }

  lemma {:induction false} EvictKeysGood(s: State, keys: seq<Key>, mems: Mems, frontier: map<nat, nat>, reserved: seq<Slice>,
                                         exempt: set<nat>, cfg: Config)
    requires Good(s, mems, frontier, reserved, exempt, cfg) && EvictKeys(s, keys, cfg).Some?
    ensures Good(EvictKeys(s, keys, cfg).value, mems, frontier, reserved, exempt, cfg)
    ensures EvictKeys(s, keys, cfg).value.kv == s.kv
    decreases |keys|
  {
    if keys != [] {
      hide Good, Evict;
      var i := Find(s.entries, keys[0]);
      EvictGood(s, i, mems, frontier, reserved, exempt, cfg);
      EvictKeysGood(s.WithCache(Evict(s.Cache(), i, cfg.budget)), keys[1..], mems, frontier, reserved, exempt, cfg);
    }
  }
}
