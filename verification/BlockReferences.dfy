/** Sparse, packed reference counts of the allocated KV blocks.

    Counts live in chunks of 1024 cells that are allocated on demand and dropped
    as soon as they hold no positive count; the last cell of a chunk says how many
    of its other cells are positive.  The class is proved to behave as a plain map
    from blocks to positive 64-bit counts.
 */
module BlockReferences {
  const LIMIT: nat := 0x1_0000_0000_0000_0000

  /** Number of positive cells among the first n. */
  function Live(cells: seq<nat>, n: nat): (count: nat)
    requires n <= |cells|
    ensures count <= n
  {
    if n == 0 then 0 else Live(cells, n - 1) + (if cells[n - 1] > 0 then 1 else 0)
  }

  /** A chunk has no positive cell exactly when its live count is zero. */
  lemma {:induction false} LiveZero(cells: seq<nat>, n: nat)
    requires n <= |cells|
    ensures Live(cells, n) == 0 <==> forall k :: 0 <= k < n ==> cells[k] == 0
  {
    if n > 0 {
      LiveZero(cells, n - 1);
    }
  }

  /** Overwriting one cell moves the live count by exactly the change of that cell. */
  lemma {:induction false} LiveUpdate(cells: seq<nat>, offset: nat, value: nat, n: nat)
    requires offset < |cells| && n <= |cells|
    ensures Live(cells[offset := value], n) ==
            Live(cells, n) + (if offset < n && value > 0 then 1 else 0)
            - (if offset < n && cells[offset] > 0 then 1 else 0)
  {
    if n > 0 {
      LiveUpdate(cells, offset, value, n - 1);
    }
  }

  lemma {:induction false} LiveExtensional(a: seq<nat>, b: seq<nat>, n: nat)
    requires n <= |a| && n <= |b|
    requires forall k :: 0 <= k < n ==> a[k] == b[k]
    ensures Live(a, n) == Live(b, n)
  {
    if n > 0 {
      LiveExtensional(a, b, n - 1);
    }
  }

  /** The trailing cell counts the positive cells. */
  ghost predicate Tallied(chunk: array<nat>)
    reads chunk
  {
    && chunk.Length == 1025
    && chunk[1024] == Live(chunk[..], 1024)
  }

  /** Overwrites one cell and keeps the trailing tally right. */
  method Store(chunk: array<nat>, offset: nat, value: nat)
    requires Tallied(chunk) && offset < 1024
    modifies chunk
    ensures Tallied(chunk)
    ensures chunk[offset] == value
    ensures forall k :: 0 <= k < 1024 && k != offset ==> chunk[k] == old(chunk[k])
    ensures value > 0 ==> chunk[1024] > 0
    ensures chunk[1024] == 0 ==> forall k :: 0 <= k < 1024 ==> chunk[k] == 0
  {
    ghost var before := chunk[..];
    LiveUpdate(before, offset, value, 1024);
    LiveZero(before, 1024);
    if chunk[offset] == 0 && value > 0 {
      chunk[1024] := chunk[1024] + 1;
    } else if chunk[offset] > 0 && value == 0 {
      chunk[1024] := chunk[1024] - 1;
    }
    chunk[offset] := value;
    LiveExtensional(chunk[..], before[offset := value], 1024);
    LiveZero(chunk[..], 1024);
  }

  class References {
    var chunks: map<nat, array<nat>>
    var length: nat
    ghost var Counts: map<nat, nat>
    ghost var Repr: set<object>

    /** The cells agree with the counts; a chunk may still be idle. */
    ghost predicate Sound()
      reads this, Repr
      ensures Sound() ==> this in Repr
    {
      && this in Repr
      && (forall i :: i in chunks ==> chunks[i] in Repr)
      && (forall i, j :: i in chunks && j in chunks && i != j ==> chunks[i] != chunks[j])
      && (forall i :: i in chunks ==> Tallied(chunks[i]))
      && (forall block: nat :: CellOf(block) == CountOf(block))
      && (forall block :: block in Counts ==> 0 < Counts[block] < LIMIT)
      && length == |Counts|
    }

    /** An idle chunk is never kept. */
    ghost predicate Valid()
      reads this, Repr
      ensures Valid() ==> this in Repr
    {
      && Sound()
      && (forall i :: i in chunks ==> chunks[i][1024] > 0)
    }

    ghost function CountOf(block: nat): nat
      reads this
    {
      if block in Counts then Counts[block] else 0
    }

    ghost function CellOf(block: nat): nat
      reads this, Repr
      requires forall i :: i in chunks ==> chunks[i] in Repr && chunks[i].Length == 1025
    {
      if block / 1024 in chunks then chunks[block / 1024][block % 1024] else 0
    }

    constructor ()
      ensures Valid() && fresh(Repr)
      ensures Counts == map[]
    {
      chunks := map[];
      length := 0;
      Counts := map[];
      Repr := {this};
    }

    /** The stored count; zero stands for the missing key. */
    method Get(block: nat) returns (value: nat)
      requires Valid()
      ensures value == CountOf(block)
    {
      var index, offset := block / 1024, block % 1024;
      assert CellOf(block) == CountOf(block);
      if index in chunks {
        value := chunks[index][offset];
      } else {
        value := 0;
      }
    }

    /** Gives the chunk of an index, allocating a zeroed one on demand. */
    method Open(index: nat) returns (chunk: array<nat>)
      requires Valid()
      modifies this
      ensures chunks == old(chunks)[index := chunk]
      ensures forall i :: i in chunks && i != index ==> chunks[i] != chunk
      ensures index in old(chunks) ==> chunks == old(chunks) && Repr == old(Repr)
      ensures index !in old(chunks) ==> fresh(chunk) && Repr == old(Repr) + {chunk}
      ensures Sound() && (index in old(chunks) ==> Valid())
      ensures forall i :: i in chunks && i != index ==> chunks[i][1024] > 0
      ensures Counts == old(Counts)
    {
      if index in chunks {
        return chunks[index];
      }
      chunk := new nat[1025](_ => 0);
      LiveZero(chunk[..], 1024);
      ghost var before := chunks;
      chunks := chunks[index := chunk];
      Repr := Repr + {chunk};
      forall block: nat ensures CellOf(block) == CountOf(block) {
        assert old(CellOf(block)) == CountOf(block);
        assert block / 1024 != index && block / 1024 in before ==> chunks[block / 1024] == before[block / 1024];
      }
    }

    /** Overwrites one cell of a chunk that is present; zero removes the key. */
    method Put(block: nat, value: nat)
      requires Sound() && block / 1024 in chunks && value < LIMIT
      modifies this, chunks[block / 1024]
      ensures Sound() && chunks == old(chunks) && Repr == old(Repr)
      ensures Counts == if value > 0 then old(Counts)[block := value] else old(Counts) - {block}
      ensures value > 0 ==> chunks[block / 1024][1024] > 0
      ensures chunks[block / 1024][1024] == 0 ==> forall k :: 0 <= k < 1024 ==> chunks[block / 1024][k] == 0
    {
      var index, offset := block / 1024, block % 1024;
      var chunk := chunks[index];
      assert CellOf(block) == CountOf(block);
      if chunk[offset] == 0 && value > 0 {
        length := length + 1;
      } else if chunk[offset] > 0 && value == 0 {
        length := length - 1;
      }
      Counts := if value > 0 then Counts[block := value] else Counts - {block};
      Store(chunk, offset, value);
      forall other: nat ensures CellOf(other) == CountOf(other) {
        if other != block {
          assert old(CellOf(other)) == old(CountOf(other)) == CountOf(other);
        }
      }
    }

    /** Refuses counts outside the positive 64-bit range and changes nothing then. */
    method Set(block: nat, value: nat) returns (ok: bool)
      requires Valid()
      modifies Repr
      ensures Valid() && fresh(Repr - old(Repr))
      ensures ok == (0 < value < LIMIT)
      ensures Counts == if ok then old(Counts)[block := value] else old(Counts)
    {
      ok := 0 < value < LIMIT;
      if ok {
        var _ := Open(block / 1024);
        Put(block, value);
      }
    }

    /** Deleting a missing key is the caller's error; it changes nothing. */
    method Delete(block: nat) returns (ok: bool)
      requires Valid()
      modifies Repr
      ensures Valid() && fresh(Repr - old(Repr))
      ensures ok == (block in old(Counts))
      ensures Counts == old(Counts) - {block}
    {
      assert CellOf(block) == CountOf(block);
      ok := block / 1024 in chunks && chunks[block / 1024][block % 1024] > 0;
      if ok {
        Put(block, 0);
        Trim(block / 1024);
      }
    }

    /** Drops the one chunk that a deletion may have emptied. */
    method Trim(index: nat)
      requires Sound() && index in chunks
      requires forall i :: i in chunks && i != index ==> chunks[i][1024] > 0
      requires chunks[index][1024] == 0 ==> forall k :: 0 <= k < 1024 ==> chunks[index][k] == 0
      modifies this
      ensures Valid() && Repr == old(Repr) && Counts == old(Counts)
    {
      if chunks[index][1024] == 0 {
        ghost var before := chunks;
        chunks := chunks - {index};
        forall block: nat ensures CellOf(block) == CountOf(block) {
          if block / 1024 == index {
            assert before[index][block % 1024] == 0;
          }
          assert old(CellOf(block)) == old(CountOf(block));
        }
      }
      if length == 0 {
        assert |Counts| == 0;
        chunks := map[];
      }
    }
  }
}
