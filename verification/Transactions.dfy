/** The log of physical transactions: what each one does and which earlier ones it waits for. */
module Transactions {
  import opened Graphs
  import opened BlockRuns
  import opened PrefixKeys
  import KvPieces

  /** What an access of a compiled operation is for: bytes of a request's KV at one layer, from the
      byte `first` of the layer on, or anything else. */
  datatype Target = Elsewhere | Kv(write: bool, request: Request, layer: nat, first: nat)

  /** Barriers, weight chunks, runs of KV blocks that leave the hot pool or come back, and accesses of
      compiled operations.  A write of a run names the read that it takes its data from. */
  datatype Work =
    | Release | Fetch(chunk: nat) | Install(chunk: nat) | Installed
    | HotRead(run: Run) | ColdWrite(run: Run, read: nat) | ColdRead(run: Run) | HotWrite(run: Run, read: nat)
    | Link(outward: bool, stack: nat, bytes: nat) | Swapped
    | Access(task: nat, part: nat, piece: KvPieces.Piece, target: Target) | Ready(task: nat)
  {
    /** The cold write of a swap-out and the links in front of it may outlive their batch. */
    predicate Aside()
    {
      ColdWrite? || (Link? && outward)
    }

    predicate TouchesCold(block: nat)
    {
      (ColdWrite? && run.target <= block < run.target + run.count) || (ColdRead? && run.source <= block < run.source + run.count)
    }

    predicate Compiled()
    {
      Access? || Ready?
    }
  }

  datatype Transaction = Transaction(work: Work, dependencies: seq<nat>)

  /** Transactions of all batches, in the order in which they are emitted. */
  type Log = seq<Transaction>

  ghost function Deps(log: Log): (g: Graph)
    ensures |g| == |log| && forall i :: 0 <= i < |log| ==> g[i] == log[i].dependencies
  {
    seq(|log|, i requires 0 <= i < |log| => log[i].dependencies)
  }

  /** Transaction j cannot start before i is complete, or is i. */
  ghost predicate Before(log: Log, i: nat, j: nat)
  {
    Precedes(Deps(log), i, j)
  }

  lemma BeforeSelf(log: Log, i: nat)
    requires i < |log|
    ensures Before(log, i, i)
  {
  }

  lemma BeforeDirect(log: Log, i: nat, j: nat)
    requires j < |log| && i in log[j].dependencies && i < j
    ensures Before(log, i, j)
  {
    DependsDirectly(Deps(log), i, j);
  }

  lemma BeforeTrans(log: Log, a: nat, b: nat, c: nat)
    requires Before(log, a, b) && Before(log, b, c)
    ensures Before(log, a, c)
  {
    PrecedesTrans(Deps(log), a, b, c);
  }

  lemma BeforeGrows(log: Log, more: Log, i: nat, j: nat)
    requires j < |log|
    ensures Before(log + more, i, j) <==> Before(log, i, j)
  {
    PrecedesAppend(Deps(log), Deps(more), i, j);
    assert Deps(log + more) == Deps(log) + Deps(more);
  }

  lemma BeforeVia(log: Log, i: nat, d: nat, j: nat)
    requires Before(log, i, d) && j < |log| && d in log[j].dependencies && d < j
    ensures Before(log, i, j)
  {
    BeforeDirect(log, d, j);
    BeforeTrans(log, i, d, j);
  }

  /** The same dependencies without repetitions, in the order of their first mention. */
  function Distinct(s: seq<nat>): (r: seq<nat>)
    ensures forall x :: x in r <==> x in s
    ensures forall i, j :: 0 <= i < j < |r| ==> r[i] != r[j]
  {
    if s == [] then []
    else
      var r := Distinct(s[..|s| - 1]);
      assert s == s[..|s| - 1] + [s[|s| - 1]];
      if s[|s| - 1] in r then r else r + [s[|s| - 1]]
  }

  /** Dependencies are earlier transactions, each named once. */
  ghost predicate Ordered(log: Log)
  {
    && (forall i, d :: 0 <= i < |log| && d in log[i].dependencies ==> d < i)
    && forall i :: 0 <= i < |log| ==> NoRepeats(log[i].dependencies)
  }

  ghost predicate NoRepeats(s: seq<nat>)
  {
    forall i, j :: 0 <= i < j < |s| ==> s[i] != s[j]
  }

  lemma OrderedPush(log: Log, t: Transaction)
    requires Ordered(log) && NoRepeats(t.dependencies) && forall d :: d in t.dependencies ==> d < |log|
    ensures Ordered(log + [t])
  {
  }

  // ------------------------------------------------------------- cold blocks

  /** Every fence is the last access to its block, and all accesses to the block precede it. */
  ghost predicate Fenced(log: Log, fences: map<nat, nat>)
  {
    && (forall b :: b in fences ==> fences[b] < |log| && log[fences[b]].work.TouchesCold(b))
    && forall i: nat, b: nat :: i < |log| && log[i].work.TouchesCold(b) ==> Behind(log, fences, i, b)
  }

  ghost predicate Behind(log: Log, fences: map<nat, nat>, i: nat, b: nat)
  {
    b in fences && i <= fences[b] && Before(log, i, fences[b])
  }

  /** Accesses to one cold block, in whichever batches, follow one another. */
  ghost predicate Serial(log: Log)
  {
    forall i: nat, j: nat, b: nat :: i < j < |log| && log[i].work.TouchesCold(b) && log[j].work.TouchesCold(b) ==> Before(log, i, j)
  }

  /** The fences once the transaction `id` has touched its blocks. */
  function Fence(fences: map<nat, nat>, work: Work, id: nat): (after: map<nat, nat>)
    ensures forall b: nat :: b in after <==> b in fences || work.TouchesCold(b)
    ensures forall b :: b in after ==> after[b] == if work.TouchesCold(b) then id else fences[b]
  {
    if work.ColdWrite? then FenceRange(fences, work.run.target, work.run.count, id)
    else if work.ColdRead? then FenceRange(fences, work.run.source, work.run.count, id)
    else fences
  }

  function FenceRange(fences: map<nat, nat>, first: nat, count: nat, id: nat): (after: map<nat, nat>)
    ensures forall b: nat :: b in after <==> b in fences || first <= b < first + count
    ensures forall b :: b in after ==> after[b] == if first <= b < first + count then id else fences[b]
  {
    if count == 0 then fences else FenceRange(fences, first, count - 1, id)[first + count - 1 := id]
  }

  /** The transaction waits for the last access to every block it touches. */
  ghost predicate WaitsForFences(t: Transaction, fences: map<nat, nat>)
  {
    forall b: nat :: t.work.TouchesCold(b) && b in fences ==> fences[b] in t.dependencies
  }

  lemma FencedPush(log: Log, t: Transaction, fences: map<nat, nat>)
    requires Fenced(log, fences) && WaitsForFences(t, fences)
    ensures Fenced(log + [t], Fence(fences, t.work, |log|))
  {
    var longer, after := log + [t], Fence(fences, t.work, |log|);
    hide Before;
    forall i: nat, b: nat | i < |longer| && longer[i].work.TouchesCold(b) ensures Behind(longer, after, i, b) {
      if i == |log| {
        BeforeSelf(longer, i);
      } else {
        assert log[i] == longer[i];
        assert Behind(log, fences, i, b);
        BeforeGrows(log, [t], i, fences[b]);
        if t.work.TouchesCold(b) {
          BeforeVia(longer, i, fences[b], |log|);
        }
      }
    }
    forall b | b in after ensures after[b] < |longer| && longer[after[b]].work.TouchesCold(b) {
      if !t.work.TouchesCold(b) {
        assert longer[fences[b]] == log[fences[b]];
      }
    }
  }

  lemma SerialPush(log: Log, t: Transaction, fences: map<nat, nat>)
    requires Serial(log) && Fenced(log, fences) && WaitsForFences(t, fences)
    ensures Serial(log + [t])
  {
    var longer := log + [t];
    FencedPush(log, t, fences);
    hide Before;
    forall i: nat, j: nat, b: nat | i < j < |longer| && longer[i].work.TouchesCold(b) && longer[j].work.TouchesCold(b)
      ensures Before(longer, i, j)
    {
      if j < |log| {
        assert longer[i] == log[i] && longer[j] == log[j];
        BeforeGrows(log, [t], i, j);
      } else {
        assert Behind(longer, Fence(fences, t.work, |log|), i, b);
      }
    }
  }

  // ---------------------------------------------------- what a batch may wait for

  /** Transactions from `start` on wait for their own batch, or for retained ones. */
  ghost predicate Local(log: Log, start: nat, kept: set<nat>)
  {
    forall i, d :: start <= i < |log| && d in log[i].dependencies && d < start ==> d in kept
  }

  /** Fences are retained ones, or belong to the batch. */
  ghost predicate FencesLocal(fences: map<nat, nat>, start: nat, kept: set<nat>)
  {
    forall b :: b in fences && fences[b] < start ==> fences[b] in kept
  }

  /** Every transaction of the batch but the detached cold writes precedes one of the targets. */
  ghost predicate Led(log: Log, start: nat, targets: set<nat>)
  {
    forall i: nat :: start <= i < |log| && !log[i].work.Aside() ==> Leads(log, i, targets)
  }

  ghost predicate Leads(log: Log, i: nat, targets: set<nat>)
  {
    exists t: nat :: t in targets && t < |log| && Before(log, i, t)
  }

  ghost function Closed(targets: set<nat>, t: Transaction, id: nat): set<nat>
  {
    if t.work.Aside() then targets else (targets - Elements(t.dependencies)) + {id}
  }

  lemma LedPush(log: Log, t: Transaction, start: nat, targets: set<nat>)
    requires Led(log, start, targets) && forall d :: d in t.dependencies ==> d < |log|
    ensures Led(log + [t], start, Closed(targets, t, |log|))
  {
    var longer, after := log + [t], Closed(targets, t, |log|);
    hide Before;
    forall i: nat | start <= i < |longer| && !longer[i].work.Aside() ensures Leads(longer, i, after) {
      if i == |log| {
        BeforeSelf(longer, i);
      } else {
        assert log[i] == longer[i];
        assert Leads(log, i, targets);
        var k: nat :| k in targets && k < |log| && Before(log, i, k);
        BeforeGrows(log, [t], i, k);
        if k !in after {
          BeforeVia(longer, i, k, |log|);
        }
      }
    }
  }

  // --------------------------------------------------------------- migrations

  /** A swap-out is written after it is read; a swap-in is read, then written, and so is a weight chunk; and a swap-in starts
      only when every swap-out in front of it has been read out of the hot pool. */
  ghost predicate Handed(log: Log, start: nat)
  {
    forall i: nat :: start <= i < |log| ==> HandedAt(log, start, i)
  }

  ghost predicate HandedAt(log: Log, start: nat, i: nat)
    requires i < |log|
  {
    && (log[i].work.ColdWrite? ==> Taken(log, start, i, log[i].work.read, HotRead(log[i].work.run)))
    && (log[i].work.HotWrite? ==> Taken(log, start, i, log[i].work.read, ColdRead(log[i].work.run)))
    && (log[i].work.Install? ==> Fed(log, start, i, Fetch(log[i].work.chunk)))
    && (log[i].work.ColdRead? ==> forall r: nat :: start <= r < i && log[r].work.HotRead? ==> Before(log, r, i))
  }

  ghost predicate Fed(log: Log, start: nat, i: nat, work: Work)
    requires i < |log|
  {
    exists r: nat :: start <= r < i && log[r].work == work && Before(log, r, i)
  }

  /** Transaction i takes the data of transaction r, over links if at all. */
  ghost predicate Taken(log: Log, start: nat, i: nat, r: nat, work: Work)
    requires i < |log|
  {
    start <= r < i && log[r].work == work && Before(log, r, i) && forall m: nat :: r < m < i ==> log[m].work.Link?
  }

  /** The hot reads of the batch so far. */
  ghost predicate Listed(log: Log, start: nat, drained: seq<nat>)
  {
    && (forall k :: 0 <= k < |drained| ==> start <= drained[k] < |log|)
    && forall r: nat :: start <= r < |log| && log[r].work.HotRead? ==> r in drained
  }

  lemma HandedPush(log: Log, t: Transaction, start: nat, drained: seq<nat>)
    requires Handed(log, start) && Listed(log, start, drained) && start <= |log|
    requires t.work.ColdWrite? ==> Taken(log + [t], start, |log|, t.work.read, HotRead(t.work.run))
    requires t.work.HotWrite? ==> Taken(log + [t], start, |log|, t.work.read, ColdRead(t.work.run))
    requires t.work.Install? ==> Fed(log + [t], start, |log|, Fetch(t.work.chunk))
    requires t.work.ColdRead? ==> forall r :: r in drained ==> r in t.dependencies
    ensures Handed(log + [t], start)
  {
    var longer := log + [t];
    hide Before;
    forall i: nat | start <= i < |longer| ensures HandedAt(longer, start, i) {
      if i < |log| {
        assert HandedAt(log, start, i);
        HandedGrows(log, t, start, i);
      } else if t.work.ColdRead? {
        forall r: nat | start <= r < i && longer[r].work.HotRead? ensures Before(longer, r, i) {
          assert log[r] == longer[r];
          BeforeDirect(longer, r, i);
        }
      }
    }
  }

  lemma HandedGrows(log: Log, t: Transaction, start: nat, i: nat)
    requires start <= i < |log| && HandedAt(log, start, i)
    ensures HandedAt(log + [t], start, i)
  {
    var longer := log + [t];
    hide Before;
    assert longer[i] == log[i];
    forall r: nat | r < |log| ensures longer[r] == log[r] && (Before(longer, r, i) <==> Before(log, r, i)) {
      BeforeGrows(log, [t], r, i);
    }
    if log[i].work.ColdWrite? {
      TakenGrows(log, t, start, i, log[i].work.read, HotRead(log[i].work.run));
    }
    if log[i].work.HotWrite? {
      TakenGrows(log, t, start, i, log[i].work.read, ColdRead(log[i].work.run));
    }
    if log[i].work.Install? {
      FedGrows(log, t, start, i, Fetch(log[i].work.chunk));
    }
  }

  lemma FedGrows(log: Log, t: Transaction, start: nat, i: nat, work: Work)
    requires i < |log| && Fed(log, start, i, work)
    ensures Fed(log + [t], start, i, work)
  {
    var r: nat :| start <= r < i && log[r].work == work && Before(log, r, i);
    BeforeGrows(log, [t], r, i);
    assert (log + [t])[r] == log[r];
  }

  lemma TakenGrows(log: Log, t: Transaction, start: nat, i: nat, r: nat, work: Work)
    requires i < |log| && Taken(log, start, i, r, work)
    ensures Taken(log + [t], start, i, r, work)
  {
    BeforeGrows(log, [t], r, i);
    forall m: nat | m < i ensures (log + [t])[m] == log[m] {
    }
  }

  // ------------------------------------------------------------------ effects

  /** A weight chunk in the model cache, or a block in the other pool. */
  datatype Effect = Loaded(chunk: nat) | Moved(out: bool, pair: Pair)

  function MovedAll(out: bool, pairs: seq<Pair>): (effects: seq<Effect>)
    ensures |effects| == |pairs| && forall i :: 0 <= i < |pairs| ==> effects[i] == Moved(out, pairs[i])
  {
    seq(|pairs|, i requires 0 <= i < |pairs| => Moved(out, pairs[i]))
  }

  function EffectsOf(work: Work): seq<Effect>
  {
    match work
    case Install(chunk) => [Loaded(chunk)]
    case ColdWrite(run, _) => MovedAll(true, run.Pairs())
    case HotWrite(run, _) => MovedAll(false, run.Pairs())
    case _ => []
  }

  /** What the log's writes outside the compiled operations have done, in order. */
  ghost function Effects(log: Log): seq<Effect>
  {
    if log == [] then [] else Effects(log[..|log| - 1]) + EffectsOf(log[|log| - 1].work)
  }

  /** The same with a swap-out noted where it is read. */
  function VisitsOf(work: Work): seq<Effect>
  {
    match work
    case Install(chunk) => [Loaded(chunk)]
    case HotRead(run) => MovedAll(true, run.Pairs())
    case HotWrite(run, _) => MovedAll(false, run.Pairs())
    case _ => []
  }

  /** What happens to the hot pool outside the compiled operations, in order. */
  ghost function Visits(log: Log): seq<Effect>
  {
    if log == [] then [] else Visits(log[..|log| - 1]) + VisitsOf(log[|log| - 1].work)
  }

  ghost predicate Noted(before: Log, after: Log, work: Work)
  {
    Effects(after) == Effects(before) + EffectsOf(work) && Visits(after) == Visits(before) + VisitsOf(work)
  }

  lemma NotedPush(log: Log, t: Transaction)
    ensures Noted(log, log + [t], t.work)
  {
    assert (log + [t])[..|log|] == log;
  }

  /** The transactions between the two logs have these effects, in this order, on either side. */
  ghost predicate Did(before: Log, after: Log, effects: seq<Effect>)
  {
    Effects(after) == Effects(before) + effects && Visits(after) == Visits(before) + effects
  }

  lemma DidNothing(log: Log)
    ensures Did(log, log, [])
  {
  }

  lemma DidMore(a: Log, b: Log, c: Log, effects: seq<Effect>, more: seq<Effect>)
    requires Did(a, b, effects) && Did(b, c, more)
    ensures Did(a, c, effects + more)
  {
    hide Effects, Visits;
    Joining(Effects(a), effects, more);
    Joining(Visits(a), effects, more);
  }

  lemma Joining(a: seq<Effect>, b: seq<Effect>, c: seq<Effect>)
    ensures (a + b) + c == a + (b + c)
  {
  }

  lemma DidSilent(a: Log, b: Log, c: Log, effects: seq<Effect>)
    requires Did(a, b, effects) && Did(b, c, [])
    ensures Did(a, c, effects)
  {
    hide Effects, Visits;
  }

  lemma DidLate(a: Log, b: Log, c: Log, effects: seq<Effect>)
    requires Did(a, b, []) && Did(b, c, effects)
    ensures Did(a, c, effects)
  {
    hide Effects, Visits;
  }

  lemma DidOne(before: Log, after: Log, work: Work)
    requires Noted(before, after, work) && !work.HotRead? && !work.ColdWrite?
    ensures Did(before, after, EffectsOf(work))
  {
  }

  /** A swap-out is half done when it is read. */
  ghost predicate Left(before: Log, after: Log, effects: seq<Effect>)
  {
    Effects(after) == Effects(before) && Visits(after) == Visits(before) + effects
  }

  lemma LeftOne(before: Log, after: Log, run: Run)
    requires Noted(before, after, HotRead(run))
    ensures Left(before, after, MovedAll(true, run.Pairs()))
  {
  }

  lemma LeftSilent(a: Log, b: Log, c: Log, effects: seq<Effect>)
    requires Left(a, b, effects) && Did(b, c, [])
    ensures Left(a, c, effects)
  {
    hide Effects, Visits;
  }

  lemma LeftLanded(a: Log, b: Log, c: Log, run: Run, read: nat)
    requires Left(a, b, MovedAll(true, run.Pairs())) && Noted(b, c, ColdWrite(run, read))
    ensures Did(a, c, MovedAll(true, run.Pairs()))
  {
  }

  /** The blocks of a list of runs, moved one run after another. */
  lemma MovedRun(out: bool, runs: seq<Run>, n: nat)
    requires n < |runs|
    ensures MovedAll(out, Expanded(runs[..n + 1])) == MovedAll(out, Expanded(runs[..n])) + MovedAll(out, runs[n].Pairs())
  {
    assert runs[..n + 1] == runs[..n] + [runs[n]];
    ExpandedPush(runs[..n], runs[n]);
  }

  /** No compiled operation has been mapped from `start` on. */
  ghost predicate Plain(log: Log, start: nat)
  {
    forall i :: start <= i < |log| ==> !log[i].work.Compiled()
  }
}
