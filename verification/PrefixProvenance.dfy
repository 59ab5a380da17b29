/** Where cache entries come from: whatever holds of every published (key, blocks) pair holds
    of every entry and of every hit, because an entry's blocks are never replaced.
 */
module PrefixProvenance {
  import opened PrefixKeys
  import opened PrefixSpec

  ghost predicate AllGood(entries: seq<Entry>, good: (Key, seq<nat>) -> bool)
  {
    forall i :: 0 <= i < |entries| ==> good(entries[i].key, entries[i].blocks)
  }

  lemma {:induction false} ExpireGood(p: Prefix, i: nat, now: nat, budget: Budget, good: (Key, seq<nat>) -> bool)
    requires AllGood(p.entries, good)
    ensures AllGood(ExpireFrom(p, i, now, budget).entries, good)
    decreases |p.entries| - i
  {
    if i < |p.entries| {
      if Expired(p.entries[i], now) {
        ExpireGood(Evict(p, i, budget), i, now, budget, good);
      } else {
        ExpireGood(p, i + 1, now, budget, good);
      }
    }
  }

  lemma {:induction false} MakeRoomGood(p: Prefix, required: nat, budget: Budget, good: (Key, seq<nat>) -> bool)
    requires AllGood(p.entries, good)
    ensures AllGood(MakeRoom(p, required, budget).entries, good)
    decreases |p.entries|
  {
    if p.bytes + required > budget.capacityBytes && p.entries != [] {
      MakeRoomGood(Evict(p, 0, budget), required, budget, good);
    }
  }

  lemma PublishOneGood(p: Prefix, key: Key, blocks: seq<nat>, now: nat, pending: bool, budget: Budget,
                       good: (Key, seq<nat>) -> bool)
    requires AllGood(p.entries, good) && good(key, blocks)
    ensures AllGood(PublishOne(p, key, blocks, now, pending, budget).entries, good)
  {
    MakeRoomGood(p, SizeOf(blocks, budget.blockBytes), budget, good);
  }

  lemma {:induction false} PublishGood(p: Prefix, keys: seq<Key>, table: seq<seq<nat>>, ordinal: nat, complete: nat,
                                       now: nat, pending: bool, budget: Budget, good: (Key, seq<nat>) -> bool)
    requires forall l :: 0 <= l < |table| ==> complete <= |table[l]|
    requires AllGood(p.entries, good)
    requires forall o :: 0 <= o < complete && o < |keys| ==> good(keys[o], Selected(table, o))
    ensures AllGood(PublishFrom(p, keys, table, ordinal, complete, now, pending, budget).entries, good)
    decreases complete - ordinal
  {
    if ordinal < complete && ordinal < |keys| {
      PublishOneGood(p, keys[ordinal], Selected(table, ordinal), now, pending, budget, good);
      PublishGood(PublishOne(p, keys[ordinal], Selected(table, ordinal), now, pending, budget),
                  keys, table, ordinal + 1, complete, now, pending, budget, good);
    }
  }

  lemma {:induction false} LookupGood(p: Prefix, keys: seq<Key>, found: seq<seq<nat>>, good: (Key, seq<nat>) -> bool)
    requires AllGood(p.entries, good)
    ensures var hits := LookupFrom(p, keys, found);
      && AllGood(hits.p.entries, good)
      && |found| <= |hits.found| <= |found| + |keys|
      && hits.found[..|found|] == found
      && forall i :: |found| <= i < |hits.found| ==> good(keys[i - |found|], hits.found[i])
    decreases |keys|
  {
    if keys != [] && Find(p.entries, keys[0]) < |p.entries| {
      var i := Find(p.entries, keys[0]);
      var blocks := p.entries[i].blocks;
      var next := p.(pool := p.pool.Retain(multiset(blocks)), entries := ToEnd(p.entries, i));
      LookupGood(next, keys[1..], found + [blocks], good);
      var hits := LookupFrom(next, keys[1..], found + [blocks]);
      assert hits.found[|found|] == (found + [blocks])[|found|] == blocks;
      assert hits.found[..|found|] == hits.found[..|found| + 1][..|found|] == found;
    }
  }

  lemma {:induction false} ReleaseOrderGood(p: Prefix, keys: seq<Key>, good: (Key, seq<nat>) -> bool)
    requires AllGood(p.entries, good)
    ensures AllGood(ReleaseOrder(p, keys).entries, good)
    decreases |keys|
  {
    if keys != [] {
      var key := keys[|keys| - 1];
      var i := Find(p.entries, key);
      if i < |p.entries| && (forall b :: b in p.entries[i].blocks ==> p.pool.refs[b] == 1) {
        ReleaseOrderGood(p.(entries := ToEnd(p.entries, i)), keys[..|keys| - 1], good);
      } else {
        ReleaseOrderGood(p, keys[..|keys| - 1], good);
      }
    }
  }

  /** No entry names the block exactly when the entries hold no reference on it. */
  lemma {:induction false} AvoidedCells(entries: seq<Entry>, b: nat)
    ensures AllGood(entries, (key, blocks) => b !in blocks) <==> b !in EntryCells(entries)
  {
    if entries != [] {
      AvoidedCells(entries[1..], b);
      var rest := entries[1..];
      var avoids := (key: Key, blocks: seq<nat>) => b !in blocks;
      assert b in multiset(entries[0].blocks) <==> b in entries[0].blocks;
      assert AllGood(entries, avoids) <==> avoids(entries[0].key, entries[0].blocks) && AllGood(rest, avoids) by {
        assert forall i :: 0 <= i < |rest| ==> rest[i] == entries[i + 1];
      }
    }
  }
}
