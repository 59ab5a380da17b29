/** What the block moves of a batch amount to: the plane's migrations, carried out in the order of
    their decisions.
 */
module Settlements {
  import opened BlockRuns
  import opened Tables
  import opened PlacementSpec
  import opened KvMemory
  import opened Transactions
  import opened Mappings

  ghost function SettleOne(mems: Mems, effect: Effect): Mems
  {
    match effect
    case Loaded(_) => mems
    case Moved(out, pair) =>
      if out then Mems(mems.hot, Overwrite(mems.cold, mems.hot, pair.source, pair.target))
      else Mems(Overwrite(mems.hot, mems.cold, pair.source, pair.target), mems.cold)
  }

  /** The contents after these effects. */
  ghost function Settle(mems: Mems, effects: seq<Effect>): Mems
  {
    if effects == [] then mems
    else SettleOne(Settle(mems, effects[..|effects| - 1]), effects[|effects| - 1])
  }

  lemma SettlePush(mems: Mems, effects: seq<Effect>, effect: Effect)
    ensures Settle(mems, effects + [effect]) == SettleOne(Settle(mems, effects), effect)
  {
    assert (effects + [effect])[..|effects|] == effects;
  }

  lemma {:induction false} SettleJoin(mems: Mems, a: seq<Effect>, b: seq<Effect>)
    ensures Settle(mems, a + b) == Settle(Settle(mems, a), b)
    decreases |b|
  {
    if b == [] {
      assert a + b == a;
    } else {
      var n := |b| - 1;
      assert (a + b)[..|a| + n] == a + b[..n];
      SettleJoin(mems, a, b[..n]);
    }
  }

  // ------------------------------------------------------------------- runs

  /** The contents of a pool after a run of blocks has arrived in it. */
  ghost predicate Arrived(after: Memory, before: Memory, from: Memory, run: Run)
  {
    forall b: nat, x: nat ::
      after(b, x) == if run.target <= b < run.target + run.count then from(run.source + (b - run.target), x) else before(b, x)
  }

  lemma {:induction false} SettleRun(mems: Mems, out: bool, run: Run)
    ensures var after := Settle(mems, MovedAll(out, run.Pairs()));
      if out then after.hot == mems.hot && Arrived(after.cold, mems.cold, mems.hot, run)
      else after.cold == mems.cold && Arrived(after.hot, mems.hot, mems.cold, run)
    decreases run.count
  {
    if run.count == 0 {
      assert MovedAll(out, run.Pairs()) == [];
    } else {
      hide Overwrite, Arrived, MovedAll, Run.Pairs;
      var n := run.count - 1;
      var shorter, last := run.(count := n), Moved(out, Pair(run.source + n, run.target + n));
      SettleRun(mems, out, shorter);
      RunPush(out, run);
      SettlePush(mems, MovedAll(out, shorter.Pairs()), last);
      var mid := Settle(mems, MovedAll(out, shorter.Pairs()));
      if out {
        ArrivedMore(mid.cold, mems.cold, mems.hot, run);
      } else {
        ArrivedMore(mid.hot, mems.hot, mems.cold, run);
      }
    }
  }

  lemma RunPush(out: bool, run: Run)
    requires run.count > 0
    ensures var n := run.count - 1;
      MovedAll(out, run.Pairs()) == MovedAll(out, run.(count := n).Pairs()) + [Moved(out, Pair(run.source + n, run.target + n))]
  {
  }

  lemma ArrivedMore(mid: Memory, before: Memory, from: Memory, run: Run)
    requires run.count > 0 && Arrived(mid, before, from, run.(count := run.count - 1))
    ensures Arrived(Overwrite(mid, from, run.source + run.count - 1, run.target + run.count - 1), before, from, run)
  {
  }

  // ------------------------------------------------------------- migrations

  /** Position by position, as far as both go. */
  function Zip(source: seq<nat>, destination: seq<nat>): (pairs: seq<Pair>)
    ensures |pairs| == Min(|source|, |destination|) && forall i :: 0 <= i < |pairs| ==> pairs[i] == Pair(source[i], destination[i])
  {
    seq(Min(|source|, |destination|), i requires 0 <= i < |source| && i < |destination| => Pair(source[i], destination[i]))
  }

  function ZipAll(source: Table, destination: Table): (layers: seq<seq<Pair>>)
    ensures |layers| == Min(|source|, |destination|)
    ensures forall l :: 0 <= l < |layers| ==> layers[l] == Zip(source[l], destination[l])
  {
    seq(Min(|source|, |destination|), l requires 0 <= l < |source| && l < |destination| => Zip(source[l], destination[l]))
  }

  /** The plane's decision, as the mapping takes it. */
  function MoveOf(m: Migration): Move
  {
    Move(m.toCold, ZipAll(m.source, m.destination))
  }

  /** Every block has its counterpart. */
  ghost predicate Matching(migrations: seq<Migration>)
  {
    forall k :: 0 <= k < |migrations| ==> SameShape(migrations[k].source, migrations[k].destination)
  }

  function MovesOf(migrations: seq<Migration>): (moves: seq<Move>)
    ensures |moves| == |migrations| && forall k :: 0 <= k < |moves| ==> moves[k] == MoveOf(migrations[k])
  {
    seq(|migrations|, k requires 0 <= k < |migrations| => MoveOf(migrations[k]))
  }

  lemma {:induction false} CopyRowPush(target: Memory, from: Memory, source: seq<nat>, destination: seq<nat>)
    requires |source| == |destination| > 0
    ensures var n := |source| - 1;
      CopyRow(target, from, source, destination) == Overwrite(CopyRow(target, from, source[..n], destination[..n]), from, source[n], destination[n])
    decreases |source|
  {
    var n := |source| - 1;
    if n > 0 {
      CopyRowPush(Overwrite(target, from, source[0], destination[0]), from, source[1..], destination[1..]);
      assert source[1..][..n - 1] == source[..n][1..] && destination[1..][..n - 1] == destination[..n][1..];
    }
  }

  lemma {:induction false} CopyTablePush(target: Memory, from: Memory, source: Table, destination: Table)
    requires SameShape(source, destination) && source != []
    ensures var n := |source| - 1;
      && |source[n]| == |destination[n]|
      && CopyTable(target, from, source, destination)
         == CopyRow(CopyTable(target, from, source[..n], destination[..n]), from, source[n], destination[n])
    decreases |source|
  {
    var n := |source| - 1;
    assert |source[n]| == |destination[n]| && |source[0]| == |destination[0]|;
    if n > 0 {
      CopyTablePush(CopyRow(target, from, source[0], destination[0]), from, source[1..], destination[1..]);
      assert source[1..][..n - 1] == source[..n][1..] && destination[1..][..n - 1] == destination[..n][1..];
    }
  }

  ghost function Row(mems: Mems, out: bool, source: seq<nat>, destination: seq<nat>): Mems
    requires |source| == |destination|
  {
    if out then Mems(mems.hot, CopyRow(mems.cold, mems.hot, source, destination))
    else Mems(CopyRow(mems.hot, mems.cold, source, destination), mems.cold)
  }

  lemma {:induction false} SettleRow(mems: Mems, out: bool, source: seq<nat>, destination: seq<nat>)
    requires |source| == |destination|
    ensures Settle(mems, MovedAll(out, Zip(source, destination))) == Row(mems, out, source, destination)
    decreases |source|
  {
    if source == [] {
      assert MovedAll(out, Zip(source, destination)) == [];
    } else {
      var n := |source| - 1;
      SettleRow(mems, out, source[..n], destination[..n]);
      var front, last := MovedAll(out, Zip(source[..n], destination[..n])), Moved(out, Pair(source[n], destination[n]));
      assert MovedAll(out, Zip(source, destination)) == front + [last];
      SettlePush(mems, front, last);
      CopyRowPush(if out then mems.cold else mems.hot, if out then mems.hot else mems.cold, source, destination);
    }
  }

  ghost function Whole(mems: Mems, out: bool, source: Table, destination: Table): Mems
    requires SameShape(source, destination)
  {
    if out then Mems(mems.hot, CopyTable(mems.cold, mems.hot, source, destination))
    else Mems(CopyTable(mems.hot, mems.cold, source, destination), mems.cold)
  }

  lemma {:induction false} SettleTable(mems: Mems, out: bool, source: Table, destination: Table)
    requires SameShape(source, destination)
    ensures Settle(mems, LayerEffects(out, ZipAll(source, destination))) == Whole(mems, out, source, destination)
    decreases |source|
  {
    if source != [] {
      var n := |source| - 1;
      var layers := ZipAll(source, destination);
      SettleTable(mems, out, source[..n], destination[..n]);
      assert layers[..n] == ZipAll(source[..n], destination[..n]);
      SettleJoin(mems, LayerEffects(out, layers[..n]), MovedAll(out, layers[n]));
      SettleRow(Whole(mems, out, source[..n], destination[..n]), out, source[n], destination[n]);
      CopyTablePush(if out then mems.cold else mems.hot, if out then mems.hot else mems.cold, source, destination);
    }
  }

  /** All moves together do what the plane decided. */
  lemma {:induction false} SettleMoves(mems: Mems, migrations: seq<Migration>)
    requires Matching(migrations)
    ensures Settle(mems, MoveEffects(MovesOf(migrations))) == ApplyAll(mems, migrations)
    decreases |migrations|
  {
    if migrations != [] {
      var n := |migrations| - 1;
      var m, moves := migrations[n], MovesOf(migrations);
      SettleMoves(mems, migrations[..n]);
      assert moves[..n] == MovesOf(migrations[..n]);
      SettleJoin(mems, MoveEffects(moves[..n]), LayerEffects(moves[n].out, moves[n].layers));
      SettleTable(ApplyAll(mems, migrations[..n]), m.toCold, m.source, m.destination);
    }
  }

  /** Loading weights moves no block. */
  lemma {:induction false} SettleLoads(mems: Mems, chunks: nat)
    ensures Settle(mems, ChunkEffects(chunks)) == mems
  {
    if chunks > 0 {
      SettleLoads(mems, chunks - 1);
      SettlePush(mems, ChunkEffects(chunks - 1), Loaded(chunks - 1));
    }
  }

  lemma SettleBatch(mems: Mems, activation: Activation, migrations: seq<Migration>)
    requires Matching(migrations)
    ensures Settle(mems, ActivationEffects(activation) + MoveEffects(MovesOf(migrations))) == ApplyAll(mems, migrations)
  {
    SettleJoin(mems, ActivationEffects(activation), MoveEffects(MovesOf(migrations)));
    SettleLoads(mems, if activation.Miss? then activation.chunks else 0);
    SettleMoves(mems, migrations);
  }
}
