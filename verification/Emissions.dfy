/** Executing a batch's transactions in the order of their emission: the moved blocks first. */
module Emissions {
  import opened BlockRuns
  import opened KvMemory
  import opened Transactions
  import opened Machines
  import opened Settlements

  /** The effects of the transactions from `start` up to k. */
  ghost function Between(log: Log, start: nat, k: nat): seq<Effect>
    requires k <= |log|
  {
    if k <= start then [] else Between(log, start, k - 1) + EffectsOf(log[k - 1].work)
  }

  lemma {:induction false} BetweenIs(log: Log, start: nat, k: nat)
    requires start <= k <= |log|
    ensures Effects(log[..k]) == Effects(log[..start]) + Between(log, start, k)
    decreases k
  {
    hide EffectsOf;
    if k > start {
      BetweenIs(log, start, k - 1);
      assert log[..k][..k - 1] == log[..k - 1] && log[..k][k - 1] == log[k - 1];
      Joining(Effects(log[..start]), Between(log, start, k - 1), EffectsOf(log[k - 1].work));
    }
  }

  /** All that a batch did. */
  lemma AllBetween(log: Log, start: nat, effects: seq<Effect>)
    requires start <= |log| && Did(log[..start], log, effects)
    ensures Between(log, start, |log|) == effects
  {
    BetweenIs(log, start, |log|);
    assert log[..|log|] == log;
    var before := Effects(log[..start]);
    assert (before + effects)[|before|..] == effects;
    assert (before + Between(log, start, |log|))[|before|..] == Between(log, start, |log|);
  }

  // ------------------------------------------------------------- data on its way

  /** What a run has been read into still is what is in its source, when it is taken. */
  lemma TakenData(log: Log, arena: Arena, initial: Place -> Byte, start: nat, i: nat, r: nat, run: Run, n: nat)
    requires i < |log| && n < Length(run, arena)
    requires Taken(log, start, i, r, HotRead(run)) || Taken(log, start, i, r, ColdRead(run))
    ensures After(log, arena, initial, i, OnTheWay(r, n)) ==
      After(log, arena, initial, i, if log[r].work.HotRead? then InHbm(Address(arena.hotBegin, run.source, arena.blockBytes, n))
                                    else InCold(Address(arena.coldBegin, run.source, arena.blockBytes, n)))
  {
    hide After, Before;
    var place := OnTheWay(r, n);
    var source := if log[r].work.HotRead? then InHbm(Address(arena.hotBegin, run.source, arena.blockBytes, n))
                  else InCold(Address(arena.coldBegin, run.source, arena.blockBytes, n));
    forall m: nat | r < m < i ensures Writes(log[m].work, m, arena) == {} {
      assert log[m].work.Link?;
    }
    Unchanged(log, arena, initial, r + 1, i, place);
    Unchanged(log, arena, initial, r + 1, i, source);
    Step(log, arena, initial, r, place);
    Step(log, arena, initial, r, source);
    assert source in Reads(log[r].work, r, arena);
  }

  // --------------------------------------------------------------- one transaction

  /** A transaction without effects leaves both pools alone. */
  lemma QuietStep(log: Log, arena: Arena, initial: Place -> Byte, k: nat, mems: Mems)
    requires k < |log| && Shows(log, arena, initial, k, mems)
    requires forall place :: place in Writes(log[k].work, k, arena) ==> place.OnTheWay?
    ensures Shows(log, arena, initial, k + 1, mems)
  {
    hide After;
    var next := k + 1;
    forall b: nat, x: nat | x < arena.blockBytes ensures ShowsAt(log, arena, initial, next, mems, b, x) {
      assert ShowsAt(log, arena, initial, k, mems, b, x);
      Step(log, arena, initial, k, InHbm(Address(arena.hotBegin, b, arena.blockBytes, x)));
      Step(log, arena, initial, k, InCold(Address(arena.coldBegin, b, arena.blockBytes, x)));
    }
  }

  /** A byte of the run's target receives the byte of its source. */
  lemma OutByte(log: Log, arena: Arena, initial: Place -> Byte, start: nat, k: nat, mems: Mems, b: nat, x: nat)
    requires k < |log| && HandedAt(log, start, k) && log[k].work.ColdWrite? && x < arena.blockBytes
    requires Shows(log, arena, initial, k, mems)
    ensures var run := log[k].work.run;
      After(log, arena, initial, k + 1, InCold(Address(arena.coldBegin, b, arena.blockBytes, x)))
      == if run.target <= b < run.target + run.count then mems.hot(run.source + (b - run.target), x) else mems.cold(b, x)
  {
    hide After, Before, Address;
    var run, read := log[k].work.run, log[k].work.read;
    var place := InCold(Address(arena.coldBegin, b, arena.blockBytes, x));
    Step(log, arena, initial, k, place);
    RunCovers(arena.coldBegin, run.target, run.count, arena.blockBytes, b, x);
    assert ShowsAt(log, arena, initial, k, mems, b, x);
    if run.target <= b < run.target + run.count {
      var j := b - run.target;
      var n := j * arena.blockBytes + x;
      RunShift(arena.coldBegin, arena.hotBegin, run.target, run.source, arena.blockBytes, j, x);
      RunInside(run, arena, j, x);
      TakenData(log, arena, initial, start, k, read, run, n);
      assert ShowsAt(log, arena, initial, k, mems, run.source + j, x);
    }
  }

  lemma RunInside(run: Run, arena: Arena, j: nat, x: nat)
    requires j < run.count && x < arena.blockBytes
    ensures j * arena.blockBytes + x < Length(run, arena)
  {
    RunCovers(0, 0, run.count, arena.blockBytes, j, x);
  }

  lemma InByte(log: Log, arena: Arena, initial: Place -> Byte, start: nat, k: nat, mems: Mems, b: nat, x: nat)
    requires k < |log| && HandedAt(log, start, k) && log[k].work.HotWrite? && x < arena.blockBytes
    requires Shows(log, arena, initial, k, mems)
    ensures var run := log[k].work.run;
      After(log, arena, initial, k + 1, InHbm(Address(arena.hotBegin, b, arena.blockBytes, x)))
      == if run.target <= b < run.target + run.count then mems.cold(run.source + (b - run.target), x) else mems.hot(b, x)
  {
    hide After, Before, Address;
    var run, read := log[k].work.run, log[k].work.read;
    var place := InHbm(Address(arena.hotBegin, b, arena.blockBytes, x));
    Step(log, arena, initial, k, place);
    RunCovers(arena.hotBegin, run.target, run.count, arena.blockBytes, b, x);
    assert ShowsAt(log, arena, initial, k, mems, b, x);
    if run.target <= b < run.target + run.count {
      var j := b - run.target;
      var n := j * arena.blockBytes + x;
      RunShift(arena.hotBegin, arena.coldBegin, run.target, run.source, arena.blockBytes, j, x);
      RunInside(run, arena, j, x);
      TakenData(log, arena, initial, start, k, read, run, n);
      assert ShowsAt(log, arena, initial, k, mems, run.source + j, x);
    }
  }

  /** One transaction in front of the compiled operations does what its effects say. */
  lemma MoveStep(log: Log, arena: Arena, initial: Place -> Byte, start: nat, k: nat, mems: Mems)
    requires k < |log| && HandedAt(log, start, k) && !log[k].work.Compiled() && Shows(log, arena, initial, k, mems)
    ensures Shows(log, arena, initial, k + 1, Settle(mems, EffectsOf(log[k].work)))
  {
    hide After, HandedAt, Settle;
    var work := log[k].work;
    if work.ColdWrite? || work.HotWrite? {
      RunStep(log, arena, initial, start, k, mems);
    } else {
      QuietStep(log, arena, initial, k, mems);
      QuietSettles(mems, work);
    }
  }

  lemma QuietSettles(mems: Mems, work: Work)
    requires !work.ColdWrite? && !work.HotWrite?
    ensures Settle(mems, EffectsOf(work)) == mems
  {
    if work.Install? {
      SettlePush(mems, [], Loaded(work.chunk));
      assert [] + [Loaded(work.chunk)] == [Loaded(work.chunk)];
    }
  }

  lemma RunStep(log: Log, arena: Arena, initial: Place -> Byte, start: nat, k: nat, mems: Mems)
    requires k < |log| && HandedAt(log, start, k) && Shows(log, arena, initial, k, mems)
    requires log[k].work.ColdWrite? || log[k].work.HotWrite?
    ensures Shows(log, arena, initial, k + 1, Settle(mems, EffectsOf(log[k].work)))
  {
    hide After, HandedAt, Settle, Address, MovedAll;
    var work := log[k].work;
    var after := Settle(mems, EffectsOf(work));
    SettleRun(mems, work.ColdWrite?, work.run);
    var next := k + 1;
    forall b: nat, x: nat | x < arena.blockBytes ensures ShowsAt(log, arena, initial, next, after, b, x) {
      assert ShowsAt(log, arena, initial, k, mems, b, x);
      if work.ColdWrite? {
        OutByte(log, arena, initial, start, k, mems, b, x);
        Step(log, arena, initial, k, InHbm(Address(arena.hotBegin, b, arena.blockBytes, x)));
      } else {
        InByte(log, arena, initial, start, k, mems, b, x);
        Step(log, arena, initial, k, InCold(Address(arena.coldBegin, b, arena.blockBytes, x)));
      }
    }
  }

  /** All transactions in front of the compiled operations. */
  lemma {:induction false} MoveSteps(log: Log, arena: Arena, initial: Place -> Byte, start: nat, k: nat, mems: Mems)
    requires start <= k <= |log| && Handed(log, start) && Shows(log, arena, initial, start, mems)
    requires forall m: nat :: start <= m < k ==> !log[m].work.Compiled()
    ensures Shows(log, arena, initial, k, Settle(mems, Between(log, start, k)))
    decreases k
  {
    hide Shows, HandedAt;
    if k > start {
      MoveSteps(log, arena, initial, start, k - 1, mems);
      assert HandedAt(log, start, k - 1);
      MoveStep(log, arena, initial, start, k - 1, Settle(mems, Between(log, start, k - 1)));
      SettleJoin(mems, Between(log, start, k - 1), EffectsOf(log[k - 1].work));
    }
  }
}
