/** Exactly what each transaction of a batch waits for: nothing more than the source of its data, the
    fences of its blocks and the barriers in front of it.
 */
module Strictness {
  import opened StackGeometry
  import opened StackLinks
  import opened Transactions

  /** Where swapped-out blocks go.  HBF is reached over one link per stack. */
  datatype ColdTier = External | Hbf(geometry: Geometry, begin: nat, blockBytes: nat)
  {
    ghost predicate Valid()
    {
      Hbf? ==> geometry.Valid() && blockBytes > 0 && Aligned(begin, geometry.pageSize) && Aligned(blockBytes, geometry.pageSize)
    }
  }

  // ------------------------------------------------------------------- links

  ghost function WorksBetween(log: Log, from: nat, to: nat): (works: seq<Work>)
    requires from <= to <= |log|
    ensures |works| == to - from && forall i :: 0 <= i < |works| ==> works[i] == log[from + i].work
  {
    seq(to - from, i requires 0 <= i < to - from => log[from + i].work)
  }

  /** A link for every stack with bytes. */
  function LinkWorks(outward: bool, counts: seq<nat>): (works: seq<Work>)
    ensures forall i :: 0 <= i < |works| ==> works[i].Link?
  {
    if counts == [] then []
    else
      var stack := |counts| - 1;
      LinkWorks(outward, counts[..stack]) + (if counts[stack] > 0 then [Link(outward, stack, counts[stack])] else [])
  }

  lemma LinkWorksStart(outward: bool, counts: seq<nat>)
    ensures LinkWorks(outward, counts[..0]) == []
  {
  }

  lemma LinkWorksNext(outward: bool, counts: seq<nat>, stack: nat)
    requires stack < |counts|
    ensures LinkWorks(outward, counts[..stack + 1])
         == LinkWorks(outward, counts[..stack]) + (if counts[stack] > 0 then [Link(outward, stack, counts[stack])] else [])
  {
    assert counts[..stack + 1][..stack] == counts[..stack];
  }

  /** From `start` on there are links alone. */
  ghost predicate OnlyLinks(log: Log, start: nat)
  {
    forall m: nat :: start <= m < |log| ==> log[m].work.Link?
  }

  lemma LinksOnly(log: Log, start: nat, outward: bool, counts: seq<nat>)
    requires start <= |log| && WorksBetween(log, start, |log|) == LinkWorks(outward, counts)
    ensures OnlyLinks(log, start)
  {
    forall m: nat | start <= m < |log| ensures log[m].work.Link? {
      assert WorksBetween(log, start, |log|)[m - start] == log[m].work;
    }
  }

  // ------------------------------------------------------- kinds and last accesses

  datatype Kind = Draining | Landing | Installing | Gating

  predicate IsKind(work: Work, kind: Kind)
  {
    match kind
    case Draining => work.HotRead?
    case Landing => work.HotWrite?
    case Installing => work.Install?
    case Gating => work.Release? || work.Installed? || work.Swapped?
  }

  /** Exactly the transactions of a kind in front of q. */
  ghost predicate AllOf(log: Log, start: nat, q: nat, ids: seq<nat>, kind: Kind)
    requires q <= |log|
  {
    forall r: nat :: r in ids <==> start <= r < q && IsKind(log[r].work, kind)
  }

  /** The last transaction in front of q that touches the cold block. */
  ghost predicate Latest(log: Log, q: nat, block: nat, p: nat)
    requires q <= |log|
  {
    p < q && log[p].work.TouchesCold(block) && forall m: nat :: p < m < q ==> !log[m].work.TouchesCold(block)
  }

  ghost predicate FencedBy(log: Log, q: nat, first: nat, count: nat, p: nat)
    requires q <= |log|
  {
    exists b: nat :: first <= b < first + count && Latest(log, q, b, p)
  }

  // ------------------------------------------------------------- the steps taken

  /** A step outside the compiled operations: links aside, and without the name of the read a write
      takes its data from. */
  function StepOf(work: Work): seq<Work>
  {
    match work
    case ColdWrite(run, _) => [ColdWrite(run, 0)]
    case HotWrite(run, _) => [HotWrite(run, 0)]
    case Link(_, _, _) => []
    case Access(_, _, _, _) => []
    case Ready(_) => []
    case _ => [work]
  }

  ghost function Steps(log: Log): seq<Work>
  {
    if log == [] then [] else Steps(log[..|log| - 1]) + StepOf(log[|log| - 1].work)
  }

  /** Exactly these steps have been taken between the two logs. */
  ghost predicate Took(before: Log, after: Log, steps: seq<Work>)
  {
    Steps(after) == Steps(before) + steps
  }

  lemma TookNothing(log: Log)
    ensures Took(log, log, [])
  {
  }

  lemma TookOne(log: Log, t: Transaction)
    ensures Took(log, log + [t], StepOf(t.work))
  {
    assert (log + [t])[..|log|] == log;
  }

  lemma TookMore(a: Log, b: Log, c: Log, steps: seq<Work>, more: seq<Work>)
    requires Took(a, b, steps) && Took(b, c, more)
    ensures Took(a, c, steps + more)
  {
    hide Steps;
    assert (Steps(a) + steps) + more == Steps(a) + (steps + more);
  }

  lemma TookSilent(a: Log, b: Log, c: Log, steps: seq<Work>)
    requires Took(a, b, steps) && Took(b, c, [])
    ensures Took(a, c, steps)
  {
    TookMore(a, b, c, steps, []);
    assert steps + [] == steps;
  }

  // ------------------------------------------------------------ exact dependencies

  /** Between the read of a run and its write there is one link for each stack that holds bytes of it. */
  ghost predicate Carriage(log: Log, read: nat, q: nat, outward: bool, block: nat, count: nat, cold: ColdTier)
    requires read < q <= |log|
  {
    if cold.External? then q == read + 1
    else
      cold.Valid() && exists counts ::
        && Histogram(cold.geometry, cold.begin + Scaled(block, cold.blockBytes), Scaled(count, cold.blockBytes), counts)
        && WorksBetween(log, read + 1, q) == LinkWorks(outward, counts)
  }

  /** What the write takes its data from: the read, or all the links between. */
  predicate Arrives(read: nat, q: nat, p: nat, cold: ColdTier)
  {
    if cold.External? then p == read else read < p < q
  }

  ghost predicate StrictAt(log: Log, start: nat, cold: ColdTier, q: nat)
    requires q < |log|
  {
    var needs := log[q].dependencies;
    match log[q].work
    case Release => q == start && needs == []
    case Fetch(_) => needs == [start]
    case Install(n) => q > start && log[q - 1].work == Fetch(n) && needs == [q - 1]
    case Installed => AllOf(log, start, q, needs, Installing)
    case HotRead(_) => needs == [start]
    case ColdWrite(run, read) =>
      && start <= read < q && log[read].work == HotRead(run) && Carriage(log, read, q, true, run.target, run.count, cold)
      && forall p: nat :: p in needs <==> Arrives(read, q, p, cold) || FencedBy(log, q, run.target, run.count, p)
    case ColdRead(run) =>
      forall p: nat :: p in needs <==> p == start || (start <= p < q && log[p].work.HotRead?) || FencedBy(log, q, run.source, run.count, p)
    case HotWrite(run, read) =>
      && start <= read < q && log[read].work == ColdRead(run) && Carriage(log, read, q, false, run.source, run.count, cold)
      && forall p: nat :: p in needs <==> Arrives(read, q, p, cold)
    case Link(outward, _, _) =>
      exists r: nat ::
        && start <= r < q && (if outward then log[r].work.HotRead? else log[r].work.ColdRead?) && needs == [r]
        && forall m: nat :: r < m < q ==> log[m].work.Link?
    case Swapped => forall p: nat :: p in needs <==> start <= p < q && (log[p].work.HotRead? || log[p].work.HotWrite?)
    case Access(_, _, _, _) => true
    case Ready(_) => true
  }

  /** Every transaction of the batch outside its compiled operations waits for exactly what it has to. */
  ghost predicate Strict(log: Log, start: nat, cold: ColdTier)
  {
    forall q: nat :: start <= q < |log| ==> StrictAt(log, start, cold, q)
  }

  lemma StrictPush(log: Log, t: Transaction, start: nat, cold: ColdTier)
    requires Strict(log, start, cold) && StrictAt(log + [t], start, cold, |log|)
    ensures Strict(log + [t], start, cold)
  {
    hide StrictAt;
    forall q: nat | start <= q < |log| + 1 ensures StrictAt(log + [t], start, cold, q) {
      if q < |log| {
        StrictGrows(log, t, start, cold, q);
      }
    }
  }

  lemma StrictGrows(log: Log, t: Transaction, start: nat, cold: ColdTier, q: nat)
    requires q < |log| && StrictAt(log, start, cold, q)
    ensures StrictAt(log + [t], start, cold, q)
  {
    var longer := log + [t];
    assert forall m: nat :: m < |log| ==> longer[m] == log[m];
    hide Histogram, LinkWorks, Scaled, ColdTier.Valid;
    match log[q].work
    case ColdWrite(run, read) =>
      CarriageGrows(log, t, read, q, true, run.target, run.count, cold);
      FencesGrow(log, t, q, run.target, run.count);
    case ColdRead(run) =>
      FencesGrow(log, t, q, run.source, run.count);
    case HotWrite(run, read) =>
      CarriageGrows(log, t, read, q, false, run.source, run.count, cold);
    case _ =>
  }

  lemma CarriageGrows(log: Log, t: Transaction, read: nat, q: nat, outward: bool, block: nat, count: nat, cold: ColdTier)
    requires read < q <= |log| && Carriage(log, read, q, outward, block, count, cold)
    ensures Carriage(log + [t], read, q, outward, block, count, cold)
  {
    hide Histogram, LinkWorks, Scaled, ColdTier.Valid;
    if cold.Hbf? {
      assert WorksBetween(log + [t], read + 1, q) == WorksBetween(log, read + 1, q);
    }
  }

  lemma FencesGrow(log: Log, t: Transaction, q: nat, first: nat, count: nat)
    requires q <= |log|
    ensures forall p: nat :: FencedBy(log + [t], q, first, count, p) <==> FencedBy(log, q, first, count, p)
  {
    forall p: nat, b: nat ensures Latest(log + [t], q, b, p) <==> Latest(log, q, b, p) {
      LatestGrows(log, t, q, b, p);
    }
    hide Latest;
    forall p: nat ensures FencedBy(log + [t], q, first, count, p) <==> FencedBy(log, q, first, count, p) {
      if FencedBy(log, q, first, count, p) {
        var b: nat :| first <= b < first + count && Latest(log, q, b, p);
        assert Latest(log + [t], q, b, p);
      }
      if FencedBy(log + [t], q, first, count, p) {
        var b: nat :| first <= b < first + count && Latest(log + [t], q, b, p);
        assert Latest(log, q, b, p);
      }
    }
  }

  lemma LatestGrows(log: Log, t: Transaction, q: nat, b: nat, p: nat)
    requires q <= |log|
    ensures Latest(log + [t], q, b, p) <==> Latest(log, q, b, p)
  {
    assert forall m: nat :: m < |log| ==> (log + [t])[m] == log[m];
  }

  /** The fences are the last accesses. */
  lemma FencesLatest(log: Log, fences: map<nat, nat>, first: nat, count: nat)
    requires Fenced(log, fences)
    ensures forall p: nat :: FencedBy(log, |log|, first, count, p) <==> exists b: nat :: first <= b < first + count && b in fences && fences[b] == p
  {
    hide Before;
    forall b: nat, p: nat ensures Latest(log, |log|, b, p) <==> b in fences && fences[b] == p {
      FenceLatest(log, fences, b, p);
    }
    hide Latest, Fenced;
    forall p: nat
      ensures FencedBy(log, |log|, first, count, p) <==> exists b: nat :: first <= b < first + count && b in fences && fences[b] == p
    {
      if exists b: nat :: first <= b < first + count && b in fences && fences[b] == p {
        var b: nat :| first <= b < first + count && b in fences && fences[b] == p;
        assert Latest(log, |log|, b, p);
      }
    }
  }

  lemma FenceLatest(log: Log, fences: map<nat, nat>, b: nat, p: nat)
    requires Fenced(log, fences)
    ensures Latest(log, |log|, b, p) <==> b in fences && fences[b] == p
  {
    hide Before;
    if Latest(log, |log|, b, p) {
      assert Behind(log, fences, p, b);
    }
    if b in fences && fences[b] == p {
      forall m: nat | p < m < |log| ensures !log[m].work.TouchesCold(b) {
        assert log[m].work.TouchesCold(b) ==> Behind(log, fences, m, b);
      }
    }
  }

  lemma AllPush(log: Log, t: Transaction, start: nat, ids: seq<nat>, kind: Kind)
    requires AllOf(log, start, |log|, ids, kind) && start <= |log|
    ensures AllOf(log + [t], start, |log| + 1, if IsKind(t.work, kind) then ids + [|log|] else ids, kind)
  {
    var longer, after := log + [t], if IsKind(t.work, kind) then ids + [|log|] else ids;
    forall r: nat ensures r in after <==> start <= r < |log| + 1 && IsKind(longer[r].work, kind) {
      if r < |log| {
        assert longer[r] == log[r];
      }
    }
  }
}
