/** The content-addressed LRU prefix cache as functions on its entries and the shared pool.

    Entries stand in eviction order, oldest first.  Every entry holds one reference
    on each of its blocks; the other holders of the pool are never disturbed.
 */
module PrefixSpec {
  import opened Pools
  import opened PrefixKeys

  datatype Budget = Budget(blockBytes: nat, capacityBytes: nat, ttl: Option<nat>)

  datatype Entry = Entry(key: Key, blocks: seq<nat>, expires: Option<nat>, pending: bool)

  datatype Prefix = Prefix(pool: Pool, entries: seq<Entry>, bytes: int)

  ghost function EntryCells(entries: seq<Entry>): (cells: multiset<nat>)
  {
    if entries == [] then multiset{} else multiset(entries[0].blocks) + EntryCells(entries[1..])
  }

  function SizeOf(blocks: seq<nat>, blockBytes: nat): nat
  {
    |blocks| * blockBytes
  }

  ghost function EntryBytes(entries: seq<Entry>, blockBytes: nat): (bytes: nat)
  {
    if entries == [] then 0 else SizeOf(entries[0].blocks, blockBytes) + EntryBytes(entries[1..], blockBytes)
  }

  lemma {:induction false} CellsSplit(entries: seq<Entry>, i: nat)
    requires i <= |entries|
    ensures EntryCells(entries) == EntryCells(entries[..i]) + EntryCells(entries[i..])
  {
    if i > 0 {
      CellsSplit(entries[1..], i - 1);
      assert entries[1..][..i - 1] == entries[..i][1..];
      assert entries[1..][i - 1..] == entries[i..];
    } else {
      assert entries[0..] == entries;
    }
  }

  lemma {:induction false} BytesSplit(entries: seq<Entry>, i: nat, blockBytes: nat)
    requires i <= |entries|
    ensures EntryBytes(entries, blockBytes) == EntryBytes(entries[..i], blockBytes) + EntryBytes(entries[i..], blockBytes)
  {
    if i > 0 {
      BytesSplit(entries[1..], i - 1, blockBytes);
      assert entries[1..][..i - 1] == entries[..i][1..];
      assert entries[1..][i - 1..] == entries[i..];
    } else {
      assert entries[0..] == entries;
    }
  }

  function Without(entries: seq<Entry>, i: nat): seq<Entry>
    requires i < |entries|
  {
    entries[..i] + entries[i + 1..]
  }

  lemma CellsWithout(entries: seq<Entry>, i: nat, blockBytes: nat)
    requires i < |entries|
    ensures EntryCells(entries) == multiset(entries[i].blocks) + EntryCells(Without(entries, i))
    ensures EntryBytes(entries, blockBytes) == SizeOf(entries[i].blocks, blockBytes) + EntryBytes(Without(entries, i), blockBytes)
  {
    CellsSplit(entries, i);
    BytesSplit(entries, i, blockBytes);
    var rest := Without(entries, i);
    CellsSplit(rest, i);
    BytesSplit(rest, i, blockBytes);
    assert rest[..i] == entries[..i] && rest[i..] == entries[i..][1..];
  }

  lemma CellsPush(entries: seq<Entry>, entry: Entry, blockBytes: nat)
    ensures EntryCells(entries + [entry]) == EntryCells(entries) + multiset(entry.blocks)
    ensures EntryBytes(entries + [entry], blockBytes) == EntryBytes(entries, blockBytes) + SizeOf(entry.blocks, blockBytes)
  {
    var longer := entries + [entry];
    CellsSplit(longer, |entries|);
    BytesSplit(longer, |entries|, blockBytes);
    assert longer[..|entries|] == entries && longer[|entries|..] == [entry];
    assert EntryCells([entry]) == multiset(entry.blocks) by {
      assert [entry][1..] == [];
    }
    assert EntryBytes([entry], blockBytes) == SizeOf(entry.blocks, blockBytes) by {
      assert [entry][1..] == [];
    }
  }

  /** Position of a key, or the number of entries when it is absent. */
  function Find(entries: seq<Entry>, key: Key): (i: nat)
    ensures i <= |entries|
    ensures i < |entries| ==> entries[i].key == key
    ensures forall j :: 0 <= j < i ==> entries[j].key != key
  {
    if entries == [] then 0
    else if entries[0].key == key then 0
    else
      var i := Find(entries[1..], key);
      assert forall j :: 1 <= j < i + 1 ==> entries[j] == entries[1..][j - 1];
      i + 1
  }

  ghost predicate DistinctKeys(entries: seq<Entry>)
  {
    forall i, j :: 0 <= i < j < |entries| ==> entries[i].key != entries[j].key
  }

  /** The cache's share of the pool, beside the references of all other holders. */
  ghost predicate Accounted(p: Prefix, budget: Budget, others: multiset<nat>)
  {
    && p.pool.refs == EntryCells(p.entries) + others
    && p.bytes == EntryBytes(p.entries, budget.blockBytes)
    && p.bytes <= budget.capacityBytes
    && DistinctKeys(p.entries)
    && Fitted(p.entries)
    && p.pool.Valid()
  }

  /** An entry names one block per layer of the model its key was computed for. */
  ghost predicate Fitted(entries: seq<Entry>)
  {
    forall i :: 0 <= i < |entries| ==> |entries[i].blocks| == KeyModel(entries[i].key).layers
  }

  // ------------------------------------------------------------ operations

  ghost function Evict(p: Prefix, i: nat, budget: Budget): Prefix
    requires i < |p.entries|
  {
    Prefix(p.pool.Release(multiset(p.entries[i].blocks)), Without(p.entries, i),
           p.bytes - SizeOf(p.entries[i].blocks, budget.blockBytes))
  }

  predicate Expired(e: Entry, now: nat)
  {
    e.expires.Some? && e.expires.value <= now
  }

  ghost function ExpireFrom(p: Prefix, i: nat, now: nat, budget: Budget): Prefix
    decreases |p.entries| - i
  {
    if i >= |p.entries| then p
    else if Expired(p.entries[i], now) then ExpireFrom(Evict(p, i, budget), i, now, budget)
    else ExpireFrom(p, i + 1, now, budget)
  }

  ghost function Expire(p: Prefix, now: nat, budget: Budget): Prefix
  {
    if budget.ttl.Some? then ExpireFrom(p, 0, now, budget) else p
  }

  function ToEnd(entries: seq<Entry>, i: nat): seq<Entry>
    requires i < |entries|
  {
    Without(entries, i) + [entries[i]]
  }

  datatype Hits = Hits(p: Prefix, found: seq<seq<nat>>)

  ghost function LookupFrom(p: Prefix, keys: seq<Key>, found: seq<seq<nat>>): Hits
    decreases |keys|
  {
    if keys == [] || Find(p.entries, keys[0]) == |p.entries| then Hits(p, found)
    else
      var i := Find(p.entries, keys[0]);
      var blocks := p.entries[i].blocks;
      LookupFrom(p.(pool := p.pool.Retain(multiset(blocks)), entries := ToEnd(p.entries, i)),
                 keys[1..], found + [blocks])
  }

  ghost function Lookup(p: Prefix, keys: seq<Key>, maxBlocks: nat, now: nat, budget: Budget): Hits
  {
    LookupFrom(Expire(p, now, budget), if maxBlocks < |keys| then keys[..maxBlocks] else keys, [])
  }

  /** Evicts the oldest entries until the required bytes fit the budget. */
  ghost function MakeRoom(p: Prefix, required: nat, budget: Budget): Prefix
    decreases |p.entries|
  {
    if p.bytes + required <= budget.capacityBytes || p.entries == [] then p
    else MakeRoom(Evict(p, 0, budget), required, budget)
  }

  function Deadline(now: nat, budget: Budget): Option<nat>
  {
    if budget.ttl.None? then None else Some(now + budget.ttl.value)
  }

  function Selected(table: seq<seq<nat>>, ordinal: nat): seq<nat>
    requires forall l :: 0 <= l < |table| ==> ordinal < |table[l]|
  {
    seq(|table|, l requires 0 <= l < |table| => table[l][ordinal])
  }

  ghost function PublishOne(p: Prefix, key: Key, blocks: seq<nat>, now: nat, pending: bool, budget: Budget): Prefix
  {
    var i := Find(p.entries, key);
    var required := SizeOf(blocks, budget.blockBytes);
    if i < |p.entries| then
      var e := p.entries[i];
      var kept := if e.pending && !pending then Entry(key, e.blocks, Deadline(now, budget), false) else e;
      p.(entries := ToEnd(p.entries[i := kept], i))
    else if required > budget.capacityBytes then p
    else
      var room := MakeRoom(p, required, budget);
      Prefix(room.pool.Retain(multiset(blocks)),
             room.entries + [Entry(key, blocks, if pending then None else Deadline(now, budget), pending)],
             room.bytes + required)
  }

  ghost function PublishFrom(p: Prefix, keys: seq<Key>, table: seq<seq<nat>>, ordinal: nat, complete: nat,
                       now: nat, pending: bool, budget: Budget): Prefix
    requires forall l :: 0 <= l < |table| ==> complete <= |table[l]|
    decreases complete - ordinal
  {
    if ordinal >= complete || ordinal >= |keys| then p
    else PublishFrom(PublishOne(p, keys[ordinal], Selected(table, ordinal), now, pending, budget),
                     keys, table, ordinal + 1, complete, now, pending, budget)
  }

  ghost function Publish(p: Prefix, keys: seq<Key>, table: seq<seq<nat>>, complete: nat,
                   now: nat, pending: bool, budget: Budget): Prefix
    requires forall l :: 0 <= l < |table| ==> complete <= |table[l]|
  {
    PublishFrom(Expire(p, now, budget), keys, table, 0, complete, now, pending, budget)
  }

  /** Idle entries of a finished request move to the young end, last block first. */
  ghost function ReleaseOrder(p: Prefix, keys: seq<Key>): Prefix
    decreases |keys|
  {
    if keys == [] then p
    else
      var key := keys[|keys| - 1];
      var i := Find(p.entries, key);
      var moved :=
        if i < |p.entries| && (forall b :: b in p.entries[i].blocks ==> p.pool.refs[b] == 1)
        then p.(entries := ToEnd(p.entries, i)) else p;
      ReleaseOrder(moved, keys[..|keys| - 1])
  }

  // ------------------------------------------------------------ accounting

  lemma WithoutKeys(entries: seq<Entry>, i: nat)
    requires i < |entries| && DistinctKeys(entries)
    ensures DistinctKeys(Without(entries, i))
    ensures forall j :: 0 <= j < |Without(entries, i)| ==> Without(entries, i)[j].key != entries[i].key
    ensures Fitted(entries) ==> Fitted(Without(entries, i))
  {
  }

  lemma EvictAccounted(p: Prefix, i: nat, budget: Budget, others: multiset<nat>)
    requires i < |p.entries| && Accounted(p, budget, others)
    ensures Accounted(Evict(p, i, budget), budget, others)
    ensures Shrinks(p.pool, Evict(p, i, budget).pool)
  {
    hide DistinctKeys, SizeOf, Fitted;
    var rest := Without(p.entries, i);
    CellsWithout(p.entries, i, budget.blockBytes);
    assert DistinctKeys(rest) && Fitted(rest) by { WithoutKeys(p.entries, i); }
    Dropped(multiset(p.entries[i].blocks), EntryCells(rest), others);
    assert Evict(p, i, budget).entries == rest;
    assert Evict(p, i, budget).pool.refs == EntryCells(rest) + others;
  }

  lemma Dropped(a: multiset<nat>, rest: multiset<nat>, others: multiset<nat>)
    ensures a + rest + others - a == rest + others
  {
  }

  lemma ToEndKeys(entries: seq<Entry>, i: nat)
    requires i < |entries| && DistinctKeys(entries) && Fitted(entries)
    ensures DistinctKeys(ToEnd(entries, i)) && Fitted(ToEnd(entries, i))
  {
    WithoutKeys(entries, i);
  }

  lemma ToEndAccounted(p: Prefix, i: nat, budget: Budget, others: multiset<nat>)
    requires i < |p.entries| && Accounted(p, budget, others)
    ensures Accounted(p.(entries := ToEnd(p.entries, i)), budget, others)
  {
    hide DistinctKeys, SizeOf, Fitted;
    CellsWithout(p.entries, i, budget.blockBytes);
    ToEndKeys(p.entries, i);
    CellsPush(Without(p.entries, i), p.entries[i], budget.blockBytes);
  }

  lemma {:induction false} ExpireAccounted(p: Prefix, i: nat, now: nat, budget: Budget, others: multiset<nat>)
    requires Accounted(p, budget, others)
    ensures Accounted(ExpireFrom(p, i, now, budget), budget, others)
    ensures Shrinks(p.pool, ExpireFrom(p, i, now, budget).pool)
    decreases |p.entries| - i
  {
    if i < |p.entries| {
      if Expired(p.entries[i], now) {
        EvictAccounted(p, i, budget, others);
        ExpireAccounted(Evict(p, i, budget), i, now, budget, others);
      } else {
        ExpireAccounted(p, i + 1, now, budget, others);
      }
    }
  }

  ghost function Flat(found: seq<seq<nat>>): multiset<nat>
  {
    if found == [] then multiset{} else Flat(found[..|found| - 1]) + multiset(found[|found| - 1])
  }

  /** A lookup gives the caller one new reference on every block of every hit. */
  lemma {:induction false} LookupAccounted(p: Prefix, keys: seq<Key>, found: seq<seq<nat>>, budget: Budget, others: multiset<nat>)
    requires Accounted(p, budget, others + Flat(found))
    ensures var hits := LookupFrom(p, keys, found);
            Accounted(hits.p, budget, others + Flat(hits.found)) && Shrinks(p.pool, hits.p.pool)
    decreases |keys|
  {
    if keys != [] && Find(p.entries, keys[0]) < |p.entries| {
      var i := Find(p.entries, keys[0]);
      var blocks := p.entries[i].blocks;
      EntryHeld(p.entries, i);
      ToEndAccounted(p, i, budget, others + Flat(found));
      assert (found + [blocks])[..|found|] == found;
      LookupAccounted(p.(pool := p.pool.Retain(multiset(blocks)), entries := ToEnd(p.entries, i)),
                      keys[1..], found + [blocks], budget, others);
    }
  }

  lemma {:induction false} MakeRoomAccounted(p: Prefix, required: nat, budget: Budget, others: multiset<nat>)
    requires Accounted(p, budget, others) && required <= budget.capacityBytes
    ensures Accounted(MakeRoom(p, required, budget), budget, others)
    ensures Shrinks(p.pool, MakeRoom(p, required, budget).pool)
    ensures MakeRoom(p, required, budget).bytes + required <= budget.capacityBytes
    ensures forall e :: e in MakeRoom(p, required, budget).entries ==> e in p.entries
    decreases |p.entries|
  {
    if p.bytes + required > budget.capacityBytes && p.entries != [] {
      EvictAccounted(p, 0, budget, others);
      MakeRoomAccounted(Evict(p, 0, budget), required, budget, others);
    }
  }

  lemma PublishOneAccounted(p: Prefix, key: Key, blocks: seq<nat>, now: nat, pending: bool,
                            budget: Budget, others: multiset<nat>)
    requires Accounted(p, budget, others)
    requires |blocks| == KeyModel(key).layers && forall b :: b in blocks ==> b in others
    ensures Accounted(PublishOne(p, key, blocks, now, pending, budget), budget, others)
    ensures Shrinks(p.pool, PublishOne(p, key, blocks, now, pending, budget).pool)
  {
    hide Accounted, ToEnd, MakeRoom, SizeOf;
    var i := Find(p.entries, key);
    var required := SizeOf(blocks, budget.blockBytes);
    if i < |p.entries| {
      var e := p.entries[i];
      var kept := if e.pending && !pending then Entry(key, e.blocks, Deadline(now, budget), false) else e;
      ReplaceAccounted(p, i, kept, budget, others);
      ToEndAccounted(p.(entries := p.entries[i := kept]), i, budget, others);
    } else if required <= budget.capacityBytes {
      MakeRoomAccounted(p, required, budget, others);
      PushAccounted(p, MakeRoom(p, required, budget),
                    Entry(key, blocks, if pending then None else Deadline(now, budget), pending), budget, others);
      OthersCounted(p, budget, others);
    }
  }

  lemma OthersCounted(p: Prefix, budget: Budget, others: multiset<nat>)
    requires Accounted(p, budget, others)
    ensures others <= p.pool.refs
  {
  }

  lemma PushAccounted(p: Prefix, room: Prefix, entry: Entry, budget: Budget, others: multiset<nat>)
    requires Accounted(room, budget, others)
    requires room.bytes + SizeOf(entry.blocks, budget.blockBytes) <= budget.capacityBytes
    requires Find(p.entries, entry.key) == |p.entries|
    requires forall e :: e in room.entries ==> e in p.entries
    requires |entry.blocks| == KeyModel(entry.key).layers && forall b :: b in entry.blocks ==> b in others
    ensures Accounted(Prefix(room.pool.Retain(multiset(entry.blocks)), room.entries + [entry],
                             room.bytes + SizeOf(entry.blocks, budget.blockBytes)), budget, others)
  {
    CellsPush(room.entries, entry, budget.blockBytes);
    assert forall j :: 0 <= j < |room.entries| ==> room.entries[j] in p.entries;
  }

  lemma EntryHeld(entries: seq<Entry>, i: nat)
    requires i < |entries|
    ensures multiset(entries[i].blocks) <= EntryCells(entries)
    ensures forall b :: b in entries[i].blocks ==> b in EntryCells(entries)
  {
    CellsWithout(entries, i, 0);
    assert forall b :: b in entries[i].blocks ==> b in multiset(entries[i].blocks);
  }

  lemma ReplaceAccounted(p: Prefix, i: nat, e: Entry, budget: Budget, others: multiset<nat>)
    requires i < |p.entries| && Accounted(p, budget, others)
    requires e.key == p.entries[i].key && e.blocks == p.entries[i].blocks
    ensures Accounted(p.(entries := p.entries[i := e]), budget, others)
  {
    CellsWithout(p.entries, i, budget.blockBytes);
    CellsWithout(p.entries[i := e], i, budget.blockBytes);
    assert Without(p.entries[i := e], i) == Without(p.entries, i);
  }

  lemma {:induction false} PublishAccounted(p: Prefix, keys: seq<Key>, table: seq<seq<nat>>, ordinal: nat, complete: nat,
                         now: nat, pending: bool, budget: Budget, others: multiset<nat>)
    requires forall l :: 0 <= l < |table| ==> complete <= |table[l]|
    requires Accounted(p, budget, others)
    requires forall k :: 0 <= k < |keys| ==> KeyModel(keys[k]).layers == |table|
    requires forall l, o :: 0 <= l < |table| && 0 <= o < complete ==> table[l][o] in others
    ensures Accounted(PublishFrom(p, keys, table, ordinal, complete, now, pending, budget), budget, others)
    ensures Shrinks(p.pool, PublishFrom(p, keys, table, ordinal, complete, now, pending, budget).pool)
    decreases complete - ordinal
  {
    if ordinal < complete && ordinal < |keys| {
      var next := PublishOne(p, keys[ordinal], Selected(table, ordinal), now, pending, budget);
      PublishOneAccounted(p, keys[ordinal], Selected(table, ordinal), now, pending, budget, others);
      PublishAccounted(next, keys, table, ordinal + 1, complete, now, pending, budget, others);
    }
  }

  lemma {:induction false} ReleaseOrderAccounted(p: Prefix, keys: seq<Key>, budget: Budget, others: multiset<nat>)
    requires Accounted(p, budget, others)
    ensures Accounted(ReleaseOrder(p, keys), budget, others)
    ensures ReleaseOrder(p, keys).pool == p.pool && ReleaseOrder(p, keys).bytes == p.bytes
    decreases |keys|
  {
    if keys != [] {
      var key := keys[|keys| - 1];
      var i := Find(p.entries, key);
      if i < |p.entries| && (forall b :: b in p.entries[i].blocks ==> p.pool.refs[b] == 1) {
        ToEndAccounted(p, i, budget, others);
        ReleaseOrderAccounted(p.(entries := ToEnd(p.entries, i)), keys[..|keys| - 1], budget, others);
      } else {
        ReleaseOrderAccounted(p, keys[..|keys| - 1], budget, others);
      }
    }
  }
}
