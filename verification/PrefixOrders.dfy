/** What the operations of the prefix cache do to its entries, said without their definitions: which
    entries are found, which go, and in which order the rest stands.  Together with the accounts of
    PrefixSpec this determines pool and bytes as well.
 */
module PrefixOrders {
  import opened PrefixKeys
  import opened PrefixSpec

  // ------------------------------------------------------------------- keys

  function KeysOf(entries: seq<Entry>): seq<Key>
  {
    if entries == [] then [] else [entries[0].key] + KeysOf(entries[1..])
  }

  ghost predicate HasKey(entries: seq<Entry>, key: Key)
  {
    exists i :: 0 <= i < |entries| && entries[i].key == key
  }

  /** The entries that no key names, in their order. */
  function Rest(entries: seq<Entry>, keys: seq<Key>): seq<Entry>
  {
    if entries == [] then [] else (if entries[0].key in keys then [] else [entries[0]]) + Rest(entries[1..], keys)
  }

  /** Each key once, in the order of the last time it is named. */
  function Recent(keys: seq<Key>): seq<Key>
  {
    if keys == [] then [] else if keys[0] in keys[1..] then Recent(keys[1..]) else [keys[0]] + Recent(keys[1..])
  }

  /** The entries named have gone to the young end, in the order in which they were last named. */
  ghost predicate Rejuvenated(before: seq<Entry>, after: seq<Entry>, used: seq<Key>)
  {
    && (forall e :: e in after <==> e in before)
    && KeysOf(after) == KeysOf(Rest(before, used)) + Recent(used)
  }

  lemma {:induction false} KeysJoin(a: seq<Entry>, b: seq<Entry>)
    ensures KeysOf(a + b) == KeysOf(a) + KeysOf(b)
  {
    if a == [] {
      assert a + b == b;
    } else {
      assert (a + b)[1..] == a[1..] + b;
      KeysJoin(a[1..], b);
    }
  }

  lemma {:induction false} RestJoin(a: seq<Entry>, b: seq<Entry>, keys: seq<Key>)
    ensures Rest(a + b, keys) == Rest(a, keys) + Rest(b, keys)
  {
    if a == [] {
      assert a + b == b;
    } else {
      assert (a + b)[1..] == a[1..] + b;
      RestJoin(a[1..], b, keys);
    }
  }

  lemma {:induction false} RestAll(entries: seq<Entry>, keys: seq<Key>)
    requires forall e :: e in entries ==> e.key !in keys
    ensures Rest(entries, keys) == entries
  {
    if entries != [] {
      RestAll(entries[1..], keys);
    }
  }

  lemma {:induction false} RestOnly(entries: seq<Entry>, keys: seq<Key>, more: seq<Key>)
    requires forall e :: e in entries ==> (e.key in keys <==> e.key in more)
    ensures Rest(entries, keys) == Rest(entries, more)
  {
    if entries != [] {
      RestOnly(entries[1..], keys, more);
    }
  }

  /** An entry moves to the end, then others that are named. */
  lemma RejuvenateFirst(entries: seq<Entry>, i: nat, after: seq<Entry>, used: seq<Key>)
    requires i < |entries| && DistinctKeys(entries) && Rejuvenated(ToEnd(entries, i), after, used)
    ensures Rejuvenated(entries, after, [entries[i].key] + used)
  {
    var e, all := entries[i], [entries[i].key] + used;
    MovedRest(entries, i, used);
    SameMembers(entries, i);
    hide Rest, ToEnd, DistinctKeys;
    KeysJoin(Rest(entries, all), [e]);
    assert KeysOf([e]) == [e.key];
    assert all[1..] == used;
    if e.key in used {
      assert Rest(entries, all) + [] == Rest(entries, all);
    } else {
      assert (KeysOf(Rest(entries, all)) + [e.key]) + Recent(used) == KeysOf(Rest(entries, all)) + ([e.key] + Recent(used));
    }
  }

  lemma MovedRest(entries: seq<Entry>, i: nat, used: seq<Key>)
    requires i < |entries| && DistinctKeys(entries)
    ensures Rest(ToEnd(entries, i), used) == Rest(entries, [entries[i].key] + used) + (if entries[i].key in used then [] else [entries[i]])
  {
    hide Rest;
    OthersDiffer(entries, i);
    MovedApart(entries[..i], entries[i], entries[i + 1..], used);
    assert entries == entries[..i] + ([entries[i]] + entries[i + 1..]);
  }

  lemma MovedApart(front: seq<Entry>, e: Entry, back: seq<Entry>, used: seq<Key>)
    requires forall x :: x in front || x in back ==> x.key != e.key
    ensures Rest(front + back + [e], used) == Rest(front + ([e] + back), [e.key] + used) + (if e.key in used then [] else [e])
  {
    hide Rest;
    var all := [e.key] + used;
    RestJoin(front + back, [e], used);
    RestJoin(front, back, used);
    RestJoin(front, [e] + back, all);
    RestJoin([e], back, all);
    RestOnly(front, used, all);
    RestOnly(back, used, all);
    RestOne(e, all);
    RestOne(e, used);
    assert [] + Rest(back, all) == Rest(back, all);
  }

  lemma RestOne(e: Entry, keys: seq<Key>)
    ensures Rest([e], keys) == if e.key in keys then [] else [e]
  {
    assert [e][1..] == [];
  }

  lemma SameMembers(entries: seq<Entry>, i: nat)
    requires i < |entries|
    ensures forall e :: e in ToEnd(entries, i) <==> e in entries
  {
    assert entries == entries[..i] + ([entries[i]] + entries[i + 1..]);
  }

  lemma OthersDiffer(entries: seq<Entry>, i: nat)
    requires i < |entries| && DistinctKeys(entries)
    ensures forall e :: e in entries[..i] || e in entries[i + 1..] ==> e.key != entries[i].key
  {
  }

  // ----------------------------------------------------------------- expiry

  /** The deadline of an entry has not passed, or deadlines are not kept. */
  predicate Lasts(e: Entry, now: nat, budget: Budget)
  {
    budget.ttl.None? || e.expires.None? || now < e.expires.value
  }

  /** The entries that last, in their order. */
  function Lasting(entries: seq<Entry>, now: nat, budget: Budget): seq<Entry>
  {
    if entries == [] then []
    else (if Lasts(entries[0], now, budget) then [entries[0]] else []) + Lasting(entries[1..], now, budget)
  }

  lemma {:induction false} LastingIs(entries: seq<Entry>, now: nat, budget: Budget, e: Entry)
    ensures e in Lasting(entries, now, budget) <==> e in entries && Lasts(e, now, budget)
  {
    if entries != [] {
      LastingIs(entries[1..], now, budget, e);
      assert e in entries <==> e == entries[0] || e in entries[1..];
    }
  }

  lemma {:induction false} LastingAll(entries: seq<Entry>, now: nat, budget: Budget)
    requires forall e :: e in entries ==> Lasts(e, now, budget)
    ensures Lasting(entries, now, budget) == entries
  {
    if entries != [] {
      LastingAll(entries[1..], now, budget);
    }
  }

  /** Expiry drops exactly the entries whose deadline has passed. */
  lemma ExpireMeans(p: Prefix, now: nat, budget: Budget)
    ensures Expire(p, now, budget).entries == Lasting(p.entries, now, budget)
  {
    if budget.ttl.Some? {
      ExpireFromMeans(p, 0, now, budget);
      assert p.entries[..0] == [] && p.entries[0..] == p.entries;
    } else {
      LastingAll(p.entries, now, budget);
    }
  }

  lemma {:induction false} ExpireFromMeans(p: Prefix, i: nat, now: nat, budget: Budget)
    requires budget.ttl.Some? && i <= |p.entries|
    ensures ExpireFrom(p, i, now, budget).entries == p.entries[..i] + Lasting(p.entries[i..], now, budget)
    decreases |p.entries| - i
  {
    if i < |p.entries| {
      LastingSplit(p.entries, i, now, budget);
      ExpireStep(p, i, now, budget);
      hide Lasting, ExpireFrom, Evict, Lasts, Without;
      if Expired(p.entries[i], now) {
        GapClosed(p.entries, i);
        ExpireFromMeans(Evict(p, i, budget), i, now, budget);
      } else {
        ExpireFromMeans(p, i + 1, now, budget);
        assert p.entries[..i + 1] == p.entries[..i] + [p.entries[i]];
      }
    }
  }

  lemma ExpireStep(p: Prefix, i: nat, now: nat, budget: Budget)
    requires budget.ttl.Some? && i < |p.entries|
    ensures Lasts(p.entries[i], now, budget) <==> !Expired(p.entries[i], now)
    ensures Evict(p, i, budget).entries == Without(p.entries, i)
    ensures ExpireFrom(p, i, now, budget) == if Expired(p.entries[i], now) then ExpireFrom(Evict(p, i, budget), i, now, budget)
                                             else ExpireFrom(p, i + 1, now, budget)
  {
  }

  lemma GapClosed(entries: seq<Entry>, i: nat)
    requires i < |entries|
    ensures |Without(entries, i)| == |entries| - 1 && Without(entries, i)[..i] == entries[..i] && Without(entries, i)[i..] == entries[i + 1..]
  {
  }

  lemma LastingSplit(entries: seq<Entry>, i: nat, now: nat, budget: Budget)
    requires i < |entries|
    ensures Lasting(entries[i..], now, budget) ==
            (if Lasts(entries[i], now, budget) then [entries[i]] else []) + Lasting(entries[i + 1..], now, budget)
  {
    assert entries[i..][1..] == entries[i + 1..];
  }

  lemma {:induction false} LastingKeys(entries: seq<Entry>, now: nat, budget: Budget)
    requires DistinctKeys(entries)
    ensures DistinctKeys(Lasting(entries, now, budget))
  {
    if entries != [] {
      LastingKeys(entries[1..], now, budget);
      var rest := Lasting(entries[1..], now, budget);
      forall j | 0 <= j < |rest| ensures rest[j].key != entries[0].key {
        LastingIs(entries[1..], now, budget, rest[j]);
      }
    }
  }

  // ----------------------------------------------------------------- lookup

  /** The blocks of the entry with this key. */
  ghost predicate Serves(entries: seq<Entry>, key: Key, blocks: seq<nat>)
  {
    exists i :: 0 <= i < |entries| && entries[i].key == key && entries[i].blocks == blocks
  }

  /** The keys that a lookup may use. */
  function Asked(keys: seq<Key>, most: nat): seq<Key>
  {
    if most < |keys| then keys[..most] else keys
  }

  /** The longest run of leading keys that entries stand for: their blocks are found, and they move
      to the young end. */
  ghost predicate Hit(before: seq<Entry>, after: seq<Entry>, asked: seq<Key>, found: seq<seq<nat>>)
  {
    && |found| <= |asked|
    && (forall i :: 0 <= i < |found| ==> Serves(before, asked[i], found[i]))
    && (|found| < |asked| ==> !HasKey(before, asked[|found|]))
    && Rejuvenated(before, after, asked[..|found|])
  }

  /** What a lookup finds and leaves. */
  ghost predicate LooksUp(before: seq<Entry>, after: seq<Entry>, found: seq<seq<nat>>, keys: seq<Key>, most: nat, now: nat, budget: Budget)
  {
    Hit(Lasting(before, now, budget), after, Asked(keys, most), found)
  }

  lemma LookupMeans(p: Prefix, keys: seq<Key>, most: nat, now: nat, budget: Budget)
    requires DistinctKeys(p.entries)
    ensures var hits := Lookup(p, keys, most, now, budget);
      LooksUp(p.entries, hits.p.entries, hits.found, keys, most, now, budget)
  {
    ExpireMeans(p, now, budget);
    LastingKeys(p.entries, now, budget);
    LookupFromMeans(Expire(p, now, budget), Asked(keys, most), []);
  }

  lemma {:induction false} LookupFromMeans(p: Prefix, keys: seq<Key>, found: seq<seq<nat>>)
    requires DistinctKeys(p.entries)
    ensures var hits := LookupFrom(p, keys, found);
      |found| <= |hits.found| && hits.found[..|found|] == found && Hit(p.entries, hits.p.entries, keys, hits.found[|found|..])
    decreases |keys|
  {
    if keys == [] || Find(p.entries, keys[0]) == |p.entries| {
      NoneHit(p.entries, keys);
      assert found[|found|..] == [];
    } else {
      var i := Find(p.entries, keys[0]);
      var blocks := p.entries[i].blocks;
      var next := p.(pool := p.pool.Retain(multiset(blocks)), entries := ToEnd(p.entries, i));
      ToEndDistinct(p.entries, i);
      hide DistinctKeys, ToEnd, Hit;
      LookupFromMeans(next, keys[1..], found + [blocks]);
      var hits := LookupFrom(next, keys[1..], found + [blocks]);
      assert hits.found[..|found|] == hits.found[..|found + [blocks]|][..|found|];
      assert hits.found[|found|..] == [blocks] + hits.found[|found| + 1..];
      HitMore(p.entries, i, hits.p.entries, keys, hits.found[|found| + 1..]);
    }
  }

  lemma ToEndDistinct(entries: seq<Entry>, i: nat)
    requires i < |entries| && DistinctKeys(entries)
    ensures DistinctKeys(ToEnd(entries, i))
  {
    WithoutKeys(entries, i);
  }

  lemma NoneHit(entries: seq<Entry>, keys: seq<Key>)
    requires keys == [] || Find(entries, keys[0]) == |entries|
    ensures Hit(entries, entries, keys, [])
  {
    RestAll(entries, []);
    assert keys[..0] == [];
    assert KeysOf(entries) + [] == KeysOf(entries);
  }

  lemma Answer(entries: seq<Entry>, i: nat)
    requires i < |entries|
    ensures Serves(entries, entries[i].key, entries[i].blocks)
  {
  }

  /** The same entries in another order give the same answers. */
  lemma SameAnswers(a: seq<Entry>, b: seq<Entry>)
    requires forall e :: e in a <==> e in b
    ensures forall key, blocks :: Serves(a, key, blocks) ==> Serves(b, key, blocks)
    ensures forall key :: HasKey(a, key) <==> HasKey(b, key)
  {
    forall key, blocks | Serves(a, key, blocks) ensures Serves(b, key, blocks) {
      var i :| 0 <= i < |a| && a[i].key == key && a[i].blocks == blocks;
      assert a[i] in b;
    }
    forall key ensures HasKey(a, key) <==> HasKey(b, key) {
      if HasKey(a, key) {
        var i :| 0 <= i < |a| && a[i].key == key;
        assert a[i] in b;
      }
      if HasKey(b, key) {
        var i :| 0 <= i < |b| && b[i].key == key;
        assert b[i] in a;
      }
    }
  }

  lemma HitMore(entries: seq<Entry>, i: nat, after: seq<Entry>, keys: seq<Key>, rest: seq<seq<nat>>)
    requires DistinctKeys(entries) && i < |entries| && keys != [] && entries[i].key == keys[0]
    requires Hit(ToEnd(entries, i), after, keys[1..], rest)
    ensures Hit(entries, after, keys, [entries[i].blocks] + rest)
  {
    hide Rejuvenated, DistinctKeys, ToEnd, HasKey, Serves;
    var found := [entries[i].blocks] + rest;
    SameMembers(entries, i);
    SameAnswers(ToEnd(entries, i), entries);
    RejuvenateFirst(entries, i, after, keys[1..][..|rest|]);
    Answer(entries, i);
    forall j | 0 <= j < |found| ensures Serves(entries, keys[j], found[j]) {
      assert j > 0 ==> Serves(ToEnd(entries, i), keys[1..][j - 1], rest[j - 1]) && keys[1..][j - 1] == keys[j] && found[j] == rest[j - 1];
    }
    assert |found| < |keys| ==> keys[1..][|rest|] == keys[|found|];
    assert [keys[0]] + keys[1..][..|rest|] == keys[..|found|];
  }

  // ------------------------------------------------------------ publication

  /** The deadline of an entry that is confirmed now. */
  function Expiry(now: nat, budget: Budget): Option<nat>
  {
    match budget.ttl
    case None => None
    case Some(ttl) => Some(now + ttl)
  }

  /** An entry that was pending becomes a lasting one when it is published for good. */
  function Confirmed(e: Entry, now: nat, pending: bool, budget: Budget): Entry
  {
    if e.pending && !pending then Entry(e.key, e.blocks, Expiry(now, budget), false) else e
  }

  /** The fewest oldest entries whose absence makes room. */
  ghost predicate Frees(entries: seq<Entry>, n: nat, required: nat, budget: Budget)
  {
    && n <= |entries| && EntryBytes(entries[n..], budget.blockBytes) + required <= budget.capacityBytes
    && forall m :: 0 <= m < n ==> EntryBytes(entries[m..], budget.blockBytes) + required > budget.capacityBytes
  }

  /** A known key goes to the young end, and is confirmed; a new one is put there behind the fewest
      evictions from the old end, or left out when it could never fit. */
  ghost predicate Publishes(before: seq<Entry>, after: seq<Entry>, key: Key, blocks: seq<nat>, now: nat, pending: bool, budget: Budget)
  {
    if HasKey(before, key) then
      exists i :: 0 <= i < |before| && before[i].key == key && after == Rest(before, [key]) + [Confirmed(before[i], now, pending, budget)]
    else if |blocks| * budget.blockBytes > budget.capacityBytes then after == before
    else
      exists n: nat :: Frees(before, n, |blocks| * budget.blockBytes, budget)
        && after == before[n..] + [Entry(key, blocks, if pending then None else Expiry(now, budget), pending)]
  }

  lemma PublishOneMeans(p: Prefix, key: Key, blocks: seq<nat>, now: nat, pending: bool, budget: Budget, others: multiset<nat>)
    requires Accounted(p, budget, others)
    ensures Publishes(p.entries, PublishOne(p, key, blocks, now, pending, budget).entries, key, blocks, now, pending, budget)
  {
    var i := Find(p.entries, key);
    if i < |p.entries| {
      RestIsWithout(p.entries, i);
      var kept := Confirmed(p.entries[i], now, pending, budget);
      assert Without(p.entries[i := kept], i) == Without(p.entries, i);
      assert HasKey(p.entries, key);
    } else if SizeOf(blocks, budget.blockBytes) <= budget.capacityBytes {
      var n := MakeRoomMeans(p, SizeOf(blocks, budget.blockBytes), budget);
    }
  }

  lemma RestIsWithout(entries: seq<Entry>, i: nat)
    requires i < |entries| && DistinctKeys(entries)
    ensures Rest(entries, [entries[i].key]) == Without(entries, i)
  {
    hide Rest, DistinctKeys;
    OthersDiffer(entries, i);
    RestApart(entries[..i], entries[i], entries[i + 1..]);
    assert entries == entries[..i] + ([entries[i]] + entries[i + 1..]);
  }

  lemma RestApart(front: seq<Entry>, e: Entry, back: seq<Entry>)
    requires forall x :: x in front || x in back ==> x.key != e.key
    ensures Rest(front + ([e] + back), [e.key]) == front + back
  {
    hide Rest;
    RestJoin(front, [e] + back, [e.key]);
    RestJoin([e], back, [e.key]);
    RestOne(e, [e.key]);
    RestAll(front, [e.key]);
    RestAll(back, [e.key]);
    assert [] + back == back;
  }

  lemma EvictMeans(entries: seq<Entry>, key: Key)
    requires DistinctKeys(entries)
    ensures var i := Find(entries, key);
      && (i < |entries| <==> HasKey(entries, key))
      && Rest(entries, [key]) == if i < |entries| then Without(entries, i) else entries
  {
    var i := Find(entries, key);
    if i < |entries| {
      RestIsWithout(entries, i);
    } else {
      RestAll(entries, [key]);
    }
  }

  lemma {:induction false} MakeRoomMeans(p: Prefix, required: nat, budget: Budget) returns (n: nat)
    requires p.bytes == EntryBytes(p.entries, budget.blockBytes) && required <= budget.capacityBytes
    ensures Frees(p.entries, n, required, budget) && MakeRoom(p, required, budget).entries == p.entries[n..]
    decreases |p.entries|
  {
    assert p.entries[0..] == p.entries;
    if p.bytes + required <= budget.capacityBytes || p.entries == [] {
      n := 0;
    } else {
      var next := Evict(p, 0, budget);
      assert next.entries == p.entries[1..];
      n := MakeRoomMeans(next, required, budget);
      assert forall m :: 0 <= m <= |p.entries| - 1 ==> p.entries[1..][m..] == p.entries[m + 1..];
      n := n + 1;
      forall m | 0 <= m < n ensures EntryBytes(p.entries[m..], budget.blockBytes) + required > budget.capacityBytes {
        assert m > 0 ==> p.entries[m..] == p.entries[1..][m - 1..];
      }
    }
  }

  /** One block after the other, from what has not expired. */
  ghost predicate PublishSteps(steps: seq<seq<Entry>>, before: seq<Entry>, after: seq<Entry>, keys: seq<Key>, table: seq<seq<nat>>,
                               complete: nat, now: nat, pending: bool, budget: Budget)
    requires forall l :: 0 <= l < |table| ==> complete <= |table[l]|
  {
    && |steps| == (if complete < |keys| then complete else |keys|) + 1
    && steps[0] == Lasting(before, now, budget) && steps[|steps| - 1] == after
    && forall k :: 0 <= k < |steps| - 1 ==> Publishes(steps[k], steps[k + 1], keys[k], Column(table, k), now, pending, budget)
  }

  /** Block k of every layer. */
  function Column(table: seq<seq<nat>>, k: nat): (column: seq<nat>)
    requires forall l :: 0 <= l < |table| ==> k < |table[l]|
    ensures |column| == |table| && forall l :: 0 <= l < |table| ==> column[l] == table[l][k]
  {
    seq(|table|, l requires 0 <= l < |table| => table[l][k])
  }

  lemma PublishMeans(p: Prefix, keys: seq<Key>, table: seq<seq<nat>>, complete: nat, now: nat, pending: bool, budget: Budget,
                     others: multiset<nat>) returns (steps: seq<seq<Entry>>)
    requires Accounted(p, budget, others) && forall l :: 0 <= l < |table| ==> complete <= |table[l]|
    requires forall k :: 0 <= k < |keys| ==> KeyModel(keys[k]).layers == |table|
    requires forall l, o :: 0 <= l < |table| && 0 <= o < complete ==> table[l][o] in others
    ensures PublishSteps(steps, p.entries, Publish(p, keys, table, complete, now, pending, budget).entries, keys, table,
                         complete, now, pending, budget)
  {
    hide Accounted, Publishes;
    ExpireMeans(p, now, budget);
    ExpireAll(p, now, budget, others);
    steps := PublishFromMeans(Expire(p, now, budget), keys, table, 0, complete, now, pending, budget, others);
  }

  lemma ExpireAll(p: Prefix, now: nat, budget: Budget, others: multiset<nat>)
    requires Accounted(p, budget, others)
    ensures Accounted(Expire(p, now, budget), budget, others)
  {
    hide Accounted;
    ExpireAccounted(p, 0, now, budget, others);
  }

  lemma {:induction false} PublishFromMeans(p: Prefix, keys: seq<Key>, table: seq<seq<nat>>, ordinal: nat, complete: nat,
                         now: nat, pending: bool, budget: Budget, others: multiset<nat>) returns (steps: seq<seq<Entry>>)
    requires Accounted(p, budget, others) && forall l :: 0 <= l < |table| ==> complete <= |table[l]|
    requires forall k :: 0 <= k < |keys| ==> KeyModel(keys[k]).layers == |table|
    requires forall l, o :: 0 <= l < |table| && 0 <= o < complete ==> table[l][o] in others
    requires ordinal <= complete && ordinal <= |keys|
    ensures |steps| == (if complete < |keys| then complete else |keys|) - ordinal + 1 && steps[0] == p.entries
    ensures steps[|steps| - 1] == PublishFrom(p, keys, table, ordinal, complete, now, pending, budget).entries
    ensures forall k :: 0 <= k < |steps| - 1 ==>
      Publishes(steps[k], steps[k + 1], keys[ordinal + k], Column(table, ordinal + k), now, pending, budget)
    decreases complete - ordinal
  {
    hide Accounted, Publishes;
    if ordinal < complete && ordinal < |keys| {
      var blocks := Selected(table, ordinal);
      var next := PublishOne(p, keys[ordinal], blocks, now, pending, budget);
      PublishOneMeans(p, keys[ordinal], blocks, now, pending, budget, others);
      PublishOneAccounted(p, keys[ordinal], blocks, now, pending, budget, others);
      hide PublishOne;
      var rest := PublishFromMeans(next, keys, table, ordinal + 1, complete, now, pending, budget, others);
      assert blocks == Column(table, ordinal);
      steps := [p.entries] + rest;
      forall k | 0 <= k < |steps| - 1
        ensures Publishes(steps[k], steps[k + 1], keys[ordinal + k], Column(table, ordinal + k), now, pending, budget)
      {
        assert k > 0 ==> steps[k] == rest[k - 1] && steps[k + 1] == rest[k];
      }
    } else {
      steps := [p.entries];
    }
  }

  // ---------------------------------------------------------- release order

  /** The cache alone holds the blocks of the key's entry. */
  ghost predicate Idle(entries: seq<Entry>, refs: multiset<nat>, key: Key)
  {
    exists i :: 0 <= i < |entries| && entries[i].key == key && forall b :: b in entries[i].blocks ==> refs[b] == 1
  }

  /** The keys with an idle entry, from the last one to the first. */
  ghost function Returned(keys: seq<Key>, entries: seq<Entry>, refs: multiset<nat>): seq<Key>
  {
    if keys == [] then []
    else
      var n := |keys| - 1;
      (if Idle(entries, refs, keys[n]) then [keys[n]] else []) + Returned(keys[..n], entries, refs)
  }

  /** The idle entries of a finished request go to the young end, the last block's first. */
  lemma {:induction false} ReleaseOrderMeans(p: Prefix, keys: seq<Key>)
    requires DistinctKeys(p.entries)
    ensures Rejuvenated(p.entries, ReleaseOrder(p, keys).entries, Returned(keys, p.entries, p.pool.refs))
    decreases |keys|
  {
    if keys == [] {
      RestAll(p.entries, []);
      assert KeysOf(p.entries) + [] == KeysOf(p.entries);
    } else {
      hide Rejuvenated, ToEnd;
      var n := |keys| - 1;
      var i := Find(p.entries, keys[n]);
      IdleIs(p.entries, p.pool.refs, i, keys[n]);
      if i < |p.entries| && (forall b :: b in p.entries[i].blocks ==> p.pool.refs[b] == 1) {
        var next := p.(entries := ToEnd(p.entries, i));
        ToEndDistinct(p.entries, i);
        ReleaseOrderMeans(next, keys[..n]);
        SameReturned(keys[..n], p.entries, i, p.pool.refs);
        RejuvenateFirst(p.entries, i, ReleaseOrder(next, keys[..n]).entries, Returned(keys[..n], p.entries, p.pool.refs));
      } else {
        ReleaseOrderMeans(p, keys[..n]);
        assert [] + Returned(keys[..n], p.entries, p.pool.refs) == Returned(keys[..n], p.entries, p.pool.refs);
      }
    }
  }

  lemma IdleIs(entries: seq<Entry>, refs: multiset<nat>, i: nat, key: Key)
    requires DistinctKeys(entries) && i == Find(entries, key)
    ensures Idle(entries, refs, key) <==> i < |entries| && forall b :: b in entries[i].blocks ==> refs[b] == 1
  {
  }

  lemma {:induction false} SameReturned(keys: seq<Key>, entries: seq<Entry>, i: nat, refs: multiset<nat>)
    requires i < |entries|
    ensures Returned(keys, ToEnd(entries, i), refs) == Returned(keys, entries, refs)
    decreases |keys|
  {
    if keys != [] {
      SameReturned(keys[..|keys| - 1], entries, i, refs);
      SameIdle(entries, i, refs, keys[|keys| - 1]);
    }
  }

  lemma SameIdle(entries: seq<Entry>, i: nat, refs: multiset<nat>, key: Key)
    requires i < |entries|
    ensures Idle(ToEnd(entries, i), refs, key) <==> Idle(entries, refs, key)
  {
    SameMembers(entries, i);
    hide ToEnd;
    var moved := ToEnd(entries, i);
    if Idle(entries, refs, key) {
      var k :| 0 <= k < |entries| && entries[k].key == key && forall b :: b in entries[k].blocks ==> refs[b] == 1;
      assert entries[k] in moved;
    }
    if Idle(moved, refs, key) {
      var k :| 0 <= k < |moved| && moved[k].key == key && forall b :: b in moved[k].blocks ==> refs[b] == 1;
      assert moved[k] in entries;
    }
  }
}
