/** The prefix cache as it is kept: an insertion-ordered dictionary of entries, its bytes,
    and references on the blocks of the pool it shares with the live requests.
 */
module PrefixCaches {
  import opened BlockPools
  import opened PrefixKeys
  import opened PrefixSpec
  import opened PrefixOrders

  class PrefixCache {
    const pool: BlockPool
    const budget: Budget
    /** The dictionary in its order: a key occurs once, the oldest entry stands first. */
    var entries: seq<Entry>
    var bytes: int

    constructor (pool: BlockPool, budget: Budget)
      ensures this.pool == pool && this.budget == budget && entries == [] && bytes == 0
    {
      this.pool := pool;
      this.budget := budget;
      entries, bytes := [], 0;
    }

    ghost function Model(): Prefix
      reads this, pool
    {
      Prefix(pool.Model(), entries, bytes)
    }

    /** The accounts are right beside the references of all other holders. */
    ghost predicate Valid(others: multiset<nat>)
      reads this, pool
    {
      pool.Valid() && Accounted(Model(), budget, others)
    }

    lemma IsValid(others: multiset<nat>)
      requires pool.Valid() && Accounted(Model(), budget, others)
      ensures Valid(others)
    {
    }

    lemma PoolValid(others: multiset<nat>)
      requires Valid(others)
      ensures pool.Valid()
    {
    }

    lemma KeysDiffer(others: multiset<nat>)
      requires Valid(others)
      ensures DistinctKeys(entries)
    {
    }

    lemma Holds(i: nat, others: multiset<nat>)
      requires Valid(others) && i < |entries|
      ensures multiset(entries[i].blocks) <= pool.Refs
      ensures forall b :: b in entries[i].blocks ==> b in pool.Refs
    {
      EntryHeld(entries, i);
    }

    /** Forgets an entry and gives back its references; a missing key is a KeyError. */
    method Evict(key: Key, ghost others: multiset<nat>) returns (ok: bool)
      requires Valid(others)
      modifies this, pool
      ensures Valid(others)
      ensures ok == (Find(old(entries), key) < |old(entries)|)
      ensures ok ==> Model() == PrefixSpec.Evict(old(Model()), Find(old(entries), key), budget)
      ensures !ok ==> Model() == old(Model())
      ensures ok == HasKey(old(entries), key) && entries == Rest(old(entries), [key])
    {
      hide Accounted, BlockPool.Valid, Rest, HasKey, DistinctKeys, Without;
      KeysDiffer(others);
      EvictMeans(entries, key);
      var i := Find(entries, key);
      if i == |entries| {
        return false;
      }
      var blocks := entries[i].blocks;
      Holds(i, others);
      EvictAccounted(Model(), i, budget, others);
      entries := Without(entries, i);
      ok := pool.Release(blocks);
      bytes := bytes - SizeOf(blocks, budget.blockBytes);
    }

    /** Drops every entry whose deadline has passed. */
    method Expire(now: nat, ghost others: multiset<nat>)
      requires Valid(others)
      modifies this, pool
      ensures Valid(others) && Model() == PrefixSpec.Expire(old(Model()), now, budget)
      ensures entries == Lasting(old(entries), now, budget)
    {
      ExpireMeans(Model(), now, budget);
      if budget.ttl.None? {
        return;
      }
      var i := 0;
      while i < |entries|
        invariant Valid(others) && i <= |entries|
        invariant ExpireFrom(old(Model()), 0, now, budget) == ExpireFrom(Model(), i, now, budget)
        decreases |entries| - i
      {
        if Expired(entries[i], now) {
          EvictAt(i, others);
        } else {
          i := i + 1;
        }
      }
    }

    method EvictAt(i: nat, ghost others: multiset<nat>)
      requires Valid(others) && i < |entries|
      modifies this, pool
      ensures Valid(others) && Model() == PrefixSpec.Evict(old(Model()), i, budget)
    {
      FindIs(entries, i);
      var _ := Evict(entries[i].key, others);
    }

    /** The hits of a request: the longest run of leading keys that are cached, each moved to
        the young end and retained once for the caller. */
    method Lookup(keys: seq<Key>, maxBlocks: nat, now: nat, ghost others: multiset<nat>) returns (found: seq<seq<nat>>)
      requires Valid(others)
      modifies this, pool
      ensures Hits(Model(), found) == PrefixSpec.Lookup(old(Model()), keys, maxBlocks, now, budget)
      ensures LooksUp(old(entries), entries, found, keys, maxBlocks, now, budget)
      ensures Valid(others + Flat(found))
    {
      KeysDiffer(others);
      LookupMeans(Model(), keys, maxBlocks, now, budget);
      hide Accounted, BlockPool.Valid, LooksUp;
      Expire(now, others);
      ghost var live := Model();
      var asked := if maxBlocks < |keys| then keys[..maxBlocks] else keys;
      found := [];
      var k := 0;
      assert others + Flat(found) == others;
      assert asked[0..] == asked;
      while k < |asked|
        invariant k <= |asked| && Valid(others + Flat(found))
        invariant LookupFrom(live, asked, []) == LookupFrom(Model(), asked[k..], found)
      {
        ghost var tail := asked[k..];
        assert tail[0] == asked[k] && tail[1..] == asked[k + 1..];
        var i := Find(entries, asked[k]);
        if i == |entries| {
          return;
        }
        found := Hit(i, found, others);
        k := k + 1;
      }
    }

    method Hit(i: nat, found: seq<seq<nat>>, ghost others: multiset<nat>) returns (more: seq<seq<nat>>)
      requires i < |entries| && Valid(others + Flat(found))
      modifies this, pool
      ensures more == found + [old(entries)[i].blocks] && Valid(others + Flat(more))
      ensures Model() == old(Model()).(pool := old(pool.Model()).Retain(multiset(old(entries)[i].blocks)),
                                       entries := ToEnd(old(entries), i))
    {
      hide BlockPool.Valid;
      var blocks := entries[i].blocks;
      Holds(i, others + Flat(found));
      ToEndAccounted(Model(), i, budget, others + Flat(found));
      entries := ToEnd(entries, i);
      var _ := pool.Retain(blocks);
      more := found + [blocks];
      assert more[..|found|] == found;
    }

    /** Makes the complete leading blocks of a table findable, evicting the oldest entries
        where the budget asks for it. */
    method Publish(keys: seq<Key>, table: seq<seq<nat>>, complete: nat, now: nat, pending: bool, ghost others: multiset<nat>)
      requires Valid(others)
      requires forall l :: 0 <= l < |table| ==> complete <= |table[l]|
      requires forall k :: 0 <= k < |keys| ==> KeyModel(keys[k]).layers == |table|
      requires forall l, o :: 0 <= l < |table| && 0 <= o < complete ==> table[l][o] in others
      modifies this, pool
      ensures Valid(others)
      ensures Model() == PrefixSpec.Publish(old(Model()), keys, table, complete, now, pending, budget)
      ensures exists steps :: PublishSteps(steps, old(entries), entries, keys, table, complete, now, pending, budget)
    {
      hide Accounted, BlockPool.Valid, PublishSteps;
      ghost var steps := PublishMeans(Model(), keys, table, complete, now, pending, budget, others);
      Expire(now, others);
      ghost var live := Model();
      var ordinal := 0;
      while ordinal < complete && ordinal < |keys|
        invariant Valid(others)
        invariant PublishFrom(live, keys, table, 0, complete, now, pending, budget)
               == PublishFrom(Model(), keys, table, ordinal, complete, now, pending, budget)
      {
        PublishOne(keys[ordinal], Selected(table, ordinal), now, pending, others);
        ordinal := ordinal + 1;
      }
      assert PublishSteps(steps, old(entries), entries, keys, table, complete, now, pending, budget);
    }

    method PublishOne(key: Key, blocks: seq<nat>, now: nat, pending: bool, ghost others: multiset<nat>)
      requires Valid(others)
      requires |blocks| == KeyModel(key).layers && forall b :: b in blocks ==> b in others
      modifies this, pool
      ensures Valid(others)
      ensures Model() == PrefixSpec.PublishOne(old(Model()), key, blocks, now, pending, budget)
    {
      hide Accounted, BlockPool.Valid;
      PublishOneAccounted(Model(), key, blocks, now, pending, budget, others);
      var i := Find(entries, key);
      if i < |entries| {
        var entry := entries[i];
        if entry.pending && !pending {
          entries := entries[i := Entry(key, entry.blocks, Deadline(now, budget), false)];
        }
        entries := ToEnd(entries, i);
        return;
      }
      var required := SizeOf(blocks, budget.blockBytes);
      if required > budget.capacityBytes {
        return;
      }
      MakeRoom(required, others);
      Insert(Entry(key, blocks, if pending then None else Deadline(now, budget), pending), others);
    }

    method Insert(entry: Entry, ghost others: multiset<nat>)
      requires Valid(others) && forall b :: b in entry.blocks ==> b in others
      modifies this, pool
      ensures pool.Valid()
      ensures Model() == Prefix(old(pool.Model()).Retain(multiset(entry.blocks)), old(entries) + [entry],
                                old(bytes) + SizeOf(entry.blocks, budget.blockBytes))
    {
      hide BlockPool.Valid;
      var _ := pool.Retain(entry.blocks);
      entries := entries + [entry];
      bytes := bytes + SizeOf(entry.blocks, budget.blockBytes);
    }

    /** Evicts the oldest entries until the required bytes fit. */
    method MakeRoom(required: nat, ghost others: multiset<nat>)
      requires Valid(others) && required <= budget.capacityBytes
      modifies this, pool
      ensures Valid(others) && Model() == PrefixSpec.MakeRoom(old(Model()), required, budget)
    {
      while bytes + required > budget.capacityBytes
        invariant Valid(others)
        invariant PrefixSpec.MakeRoom(old(Model()), required, budget) == PrefixSpec.MakeRoom(Model(), required, budget)
        decreases |entries|
      {
        EvictAt(0, others);
      }
    }

    /** The idle entries of a finished request go to the young end, its last block first. */
    method ReleaseOrder(keys: seq<Key>, ghost others: multiset<nat>)
      requires Valid(others)
      modifies this
      ensures Valid(others) && Model() == PrefixSpec.ReleaseOrder(old(Model()), keys)
      ensures Rejuvenated(old(entries), entries, Returned(keys, old(entries), pool.Refs))
    {
      hide Accounted, BlockPool.Valid, Rejuvenated, Returned, DistinctKeys, ToEnd;
      KeysDiffer(others);
      ReleaseOrderMeans(Model(), keys);
      var k := |keys|;
      assert keys[..k] == keys;
      while k > 0
        invariant k <= |keys| && Valid(others)
        invariant PrefixSpec.ReleaseOrder(old(Model()), keys) == PrefixSpec.ReleaseOrder(Model(), keys[..k])
      {
        k := k - 1;
        ghost var front := keys[..k + 1];
        assert front[|front| - 1] == keys[k] && front[..|front| - 1] == keys[..k];
        var i := Find(entries, keys[k]);
        if i < |entries| && Idle(entries[i].blocks) {
          ToEndAccounted(Model(), i, budget, others);
          entries := ToEnd(entries, i);
        }
      }
    }

    /** Nobody but the cache holds these blocks. */
    predicate Idle(blocks: seq<nat>)
      requires pool.Valid()
      reads pool
      ensures Idle(blocks) <==> forall b :: b in blocks ==> pool.Refs[b] == 1
    {
      forall b :: b in blocks ==> b in pool.references && pool.references[b] == 1
    }
  }

  lemma FindIs(entries: seq<Entry>, i: nat)
    requires i < |entries| && DistinctKeys(entries)
    ensures Find(entries, entries[i].key) == i
  {
    var j := Find(entries, entries[i].key);
  }
}
