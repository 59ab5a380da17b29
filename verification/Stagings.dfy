/** A batch of transactions under construction: what it keeps, and what each further transaction has to meet. */
module Stagings {
  import opened Transactions
  import opened Strictness

  /** Where the batch starts, what was retained before it, the transactions that lead on from it, its
      hot reads and writes, its installed chunks and its barriers; `preparing` while none of its
      compiled operations is mapped. */
  datatype Stage = Stage(start: nat, kept: set<nat>, targets: set<nat>, drained: seq<nat>, landed: seq<nat>, installs: seq<nat>,
                         gates: seq<nat>, preparing: bool, cold: ColdTier)

  /** The stage lists exactly the transactions of each kind. */
  ghost predicate Noting(log: Log, stage: Stage)
  {
    && AllOf(log, stage.start, |log|, stage.drained, Draining) && AllOf(log, stage.start, |log|, stage.landed, Landing)
    && AllOf(log, stage.start, |log|, stage.installs, Installing) && AllOf(log, stage.start, |log|, stage.gates, Gating)
  }

  ghost predicate Staged(log: Log, fences: map<nat, nat>, stage: Stage)
  {
    && stage.start <= |log|
    && Ordered(log) && Fenced(log, fences) && Serial(log)
    && Local(log, stage.start, stage.kept) && FencesLocal(fences, stage.start, stage.kept)
    && Led(log, stage.start, stage.targets)
    && Handed(log, stage.start) && Noting(log, stage) && Strict(log, stage.start, stage.cold)
    && (stage.preparing ==> Plain(log, stage.start))
  }

  /** What the emission of one transaction has to meet. */
  ghost predicate Allowed(log: Log, fences: map<nat, nat>, stage: Stage, t: Transaction)
  {
    && (forall d :: d in t.dependencies ==> d < |log| && (d < stage.start ==> d in stage.kept))
    && NoRepeats(t.dependencies) && WaitsForFences(t, fences)
    && (t.work.ColdWrite? ==> Taken(log + [t], stage.start, |log|, t.work.read, HotRead(t.work.run)))
    && (t.work.HotWrite? ==> Taken(log + [t], stage.start, |log|, t.work.read, ColdRead(t.work.run)))
    && (t.work.Install? ==> Fed(log + [t], stage.start, |log|, Fetch(t.work.chunk)))
    && (t.work.ColdRead? ==> forall r :: r in stage.drained ==> r in t.dependencies)
    && (stage.preparing ==> !t.work.Compiled()) && StrictAt(log + [t], stage.start, stage.cold, |log|)
  }

  ghost function Advanced(stage: Stage, t: Transaction, id: nat): (after: Stage)
    ensures after.start == stage.start && after.kept == stage.kept && after.preparing == stage.preparing && after.cold == stage.cold
    ensures after.targets == Closed(stage.targets, t, id)
  {
    stage.(targets := Closed(stage.targets, t, id),
           drained := if IsKind(t.work, Draining) then stage.drained + [id] else stage.drained,
           landed := if IsKind(t.work, Landing) then stage.landed + [id] else stage.landed,
           installs := if IsKind(t.work, Installing) then stage.installs + [id] else stage.installs,
           gates := if IsKind(t.work, Gating) then stage.gates + [id] else stage.gates)
  }

  lemma LocalPush(log: Log, t: Transaction, start: nat, kept: set<nat>)
    requires Local(log, start, kept) && start <= |log| && forall d :: d in t.dependencies && d < start ==> d in kept
    ensures Local(log + [t], start, kept)
  {
  }

  lemma NotingPush(log: Log, t: Transaction, stage: Stage)
    requires Noting(log, stage) && stage.start <= |log|
    ensures Noting(log + [t], Advanced(stage, t, |log|))
  {
    hide AllOf;
    AllPush(log, t, stage.start, stage.drained, Draining);
    AllPush(log, t, stage.start, stage.landed, Landing);
    AllPush(log, t, stage.start, stage.installs, Installing);
    AllPush(log, t, stage.start, stage.gates, Gating);
  }

  lemma DrainedListed(log: Log, stage: Stage)
    requires Noting(log, stage)
    ensures Listed(log, stage.start, stage.drained)
  {
    assert forall k :: 0 <= k < |stage.drained| ==> stage.drained[k] in stage.drained;
  }

  lemma StagedPush(log: Log, fences: map<nat, nat>, stage: Stage, t: Transaction)
    requires Staged(log, fences, stage) && Allowed(log, fences, stage, t)
    ensures Staged(log + [t], Fence(fences, t.work, |log|), Advanced(stage, t, |log|))
  {
    OrderedPush(log, t);
    FencedPush(log, t, fences);
    SerialPush(log, t, fences);
    LocalPush(log, t, stage.start, stage.kept);
    LedPush(log, t, stage.start, stage.targets);
    DrainedListed(log, stage);
    HandedPush(log, t, stage.start, stage.drained);
    NotingPush(log, t, stage);
    StrictPush(log, t, stage.start, stage.cold);
    hide Ordered, Fenced, Serial, Local, Led, Handed, Listed, Before, Noting, Strict, StrictAt;
    assert FencesLocal(Fence(fences, t.work, |log|), stage.start, stage.kept);
  }
}
