/** How the transactions of a batch stand for its compiled operations. */
module TaskMaps {
  import opened Graphs
  import opened Transactions
  import opened Strictness
  import opened PrefixKeys
  import KvPieces

  /** What a memory operation touches: a placed extent, in HBM or not, or a range of a request's KV
      layer, which lies in the blocks of a table. */
  datatype Operand =
    | Extent(piece: KvPieces.Piece, inHbm: bool)
    | KvRange(write: bool, request: Request, layer: nat, table: KvPieces.Table, offset: nat, count: nat)
  {
    ghost predicate WellFormed()
    {
      match this
      case Extent(piece, _) => piece.bytes > 0
      case KvRange(_, _, _, table, offset, count) => count > 0 && table.used > 0 && table.Reaches(offset, count)
    }

    /** The addresses of its bytes, in order. */
    ghost function Addresses(): seq<nat>
      requires WellFormed()
    {
      match this
      case Extent(piece, _) => piece.Addresses()
      case KvRange(_, _, _, table, offset, count) => table.Locations(offset, count)
    }

    /** The purpose of an access that begins behind `done` bytes. */
    function Tag(done: nat): Target
    {
      match this
      case Extent(_, _) => Elsewhere
      case KvRange(write, request, layer, _, offset, _) => Kv(write, request, layer, offset + done)
    }
  }

  /** A barrier, or a memory operation that maps to one or more physical accesses. */
  datatype Task = Sync(dependencies: seq<nat>) | Memory(dependencies: seq<nat>, operand: Operand)
  {
    ghost predicate WellFormed()
    {
      Memory? ==> operand.WellFormed()
    }
  }

  ghost function TaskGraph(tasks: seq<Task>): (g: Graph)
    ensures |g| == |tasks| && forall i :: 0 <= i < |tasks| ==> g[i] == tasks[i].dependencies
  {
    seq(|tasks|, i requires 0 <= i < |tasks| => tasks[i].dependencies)
  }

  /** A strict ancestor. */
  ghost predicate Ancestor(tasks: seq<Task>, i: nat, j: nat)
  {
    i != j && Precedes(TaskGraph(tasks), i, j)
  }

  ghost predicate Tasks(tasks: seq<Task>)
  {
    Topological(TaskGraph(tasks)) && forall i :: 0 <= i < |tasks| ==> tasks[i].WellFormed()
  }

  /** Which transactions carry out an operation, and the one that stands for its end. */
  datatype Image = Image(ids: seq<nat>, terminal: nat)

  /** The end of one of the operation's dependencies. */
  ghost predicate EndsOne(task: Task, images: seq<Image>, p: nat)
  {
    exists d :: d in task.dependencies && d < |images| && images[d].terminal == p
  }

  /** The transaction waits for the ends of all dependencies, or for the roots of the batch, and for
      nothing else. */
  ghost predicate Waits(log: Log, q: nat, task: Task, roots: seq<nat>, images: seq<Image>)
    requires q < |log|
  {
    && (forall d :: d in task.dependencies ==> d < |images|)
    && if task.dependencies == [] then forall p: nat :: p in log[q].dependencies <==> p in roots
       else forall p: nat :: p in log[q].dependencies <==> EndsOne(task, images, p)
  }

  lemma WaitsMeans(log: Log, q: nat, task: Task, roots: seq<nat>, images: seq<Image>)
    requires q < |log| && Waits(log, q, task, roots, images)
    ensures forall d :: d in task.dependencies ==> d < |images| && images[d].terminal in log[q].dependencies
    ensures task.dependencies == [] ==> forall r :: r in roots ==> r in log[q].dependencies
  {
    forall d | d in task.dependencies ensures d < |images| && images[d].terminal in log[q].dependencies {
      assert EndsOne(task, images, images[d].terminal);
    }
  }

  /** One piece stands for its own end; several, which follow one another, are joined by a barrier that
      waits for exactly them. */
  ghost predicate Ends(log: Log, j: nat, image: Image)
    requires image.ids != [] && image.terminal < |log|
  {
    && (forall k :: 0 <= k < |image.ids| ==> image.ids[k] == image.ids[0] + k)
    && if |image.ids| == 1 then image.terminal == image.ids[0]
       else
         && image.terminal == image.ids[0] + |image.ids| && log[image.terminal].work == Ready(j)
         && forall p: nat :: p in log[image.terminal].dependencies <==> p in image.ids
  }

  ghost predicate Mapped(log: Log, j: nat, task: Task, roots: seq<nat>, images: seq<Image>)
    requires j < |images|
  {
    var image := images[j];
    && image.ids != [] && image.terminal < |log| && Ends(log, j, image)
    && (forall q :: q in image.ids ==> q <= image.terminal && Waits(log, q, task, roots, images))
    && (forall q :: q in image.ids ==> q == image.terminal || q in log[image.terminal].dependencies)
    && (task.Memory? ==> Carried(log, j, image.ids, task.operand))
    && (task.Memory? ==> image.terminal in image.ids || log[image.terminal].work.Ready?)
    && (task.Sync? ==> image.ids == [image.terminal] && log[image.terminal].work == Ready(j))
  }

  function Total(pieces: seq<KvPieces.Piece>): nat
  {
    if pieces == [] then 0 else Total(pieces[..|pieces| - 1]) + pieces[|pieces| - 1].bytes
  }

  /** The accesses, one for each piece, touch every byte of the operand, in order. */
  ghost predicate Carried(log: Log, j: nat, ids: seq<nat>, operand: Operand)
  {
    operand.WellFormed() && exists pieces: seq<KvPieces.Piece> :: CarriedAs(log, j, ids, operand, pieces)
  }

  ghost predicate CarriedAs(log: Log, j: nat, ids: seq<nat>, operand: Operand, pieces: seq<KvPieces.Piece>)
    requires operand.WellFormed()
  {
    && KvPieces.Expanded(pieces) == operand.Addresses() && |ids| == |pieces|
    && forall k: nat :: k < |ids| ==> ids[k] < |log| && log[ids[k]].work == PartOf(j, k, operand, pieces)
  }

  /** The k-th access of an operation. */
  function PartOf(j: nat, k: nat, operand: Operand, pieces: seq<KvPieces.Piece>): Work
    requires k < |pieces|
  {
    Access(j, k, pieces[k], operand.Tag(Total(pieces[..k])))
  }

  ghost predicate MappedAll(log: Log, tasks: seq<Task>, roots: seq<nat>, images: seq<Image>)
  {
    && |images| <= |tasks|
    && (forall r :: r in roots ==> r < |log|)
    && forall j: nat :: j < |images| ==> Mapped(log, j, tasks[j], roots, images)
  }

  /** Transactions of compiled operations belong to the image of their operation. */
  ghost predicate Owned(log: Log, start: nat, images: seq<Image>)
  {
    forall q: nat :: start <= q < |log| && log[q].work.Compiled() ==> OwnedBy(images, q, log[q].work.task)
  }

  ghost predicate OwnedBy(images: seq<Image>, q: nat, j: nat)
  {
    j < |images| && (q in images[j].ids || q == images[j].terminal)
  }

  lemma MappedGrows(log: Log, more: Log, j: nat, task: Task, roots: seq<nat>, images: seq<Image>, others: seq<Image>)
    requires j < |images| && Mapped(log, j, task, roots, images)
    ensures Mapped(log + more, j, task, roots, images + others)
  {
    var longer, all := log + more, images + others;
    assert all[j] == images[j];
    forall q | q in images[j].ids ensures Waits(longer, q, task, roots, all) {
      assert Waits(log, q, task, roots, images) && longer[q] == log[q];
      WaitsGrows(log, longer, q, task, roots, images, others);
    }
    assert longer[images[j].terminal] == log[images[j].terminal];
    if task.Memory? {
      CarriedGrows(log, longer, j, images[j].ids, task.operand);
    }
  }

  lemma WaitsGrows(log: Log, longer: Log, q: nat, task: Task, roots: seq<nat>, images: seq<Image>, others: seq<Image>)
    requires q < |log| <= |longer| && longer[q] == log[q] && Waits(log, q, task, roots, images)
    ensures Waits(longer, q, task, roots, images + others)
  {
    forall p: nat ensures EndsOne(task, images + others, p) <==> EndsOne(task, images, p) {
      if EndsOne(task, images, p) {
        var d :| d in task.dependencies && d < |images| && images[d].terminal == p;
        assert (images + others)[d] == images[d];
      }
    }
  }

  lemma CarriedGrows(log: Log, longer: Log, j: nat, ids: seq<nat>, operand: Operand)
    requires Carried(log, j, ids, operand) && |log| <= |longer| && forall q :: 0 <= q < |log| ==> longer[q] == log[q]
    ensures Carried(longer, j, ids, operand)
  {
    var pieces: seq<KvPieces.Piece> :| CarriedAs(log, j, ids, operand, pieces);
    assert CarriedAs(longer, j, ids, operand, pieces);
  }

  lemma MappedPush(log: Log, more: Log, tasks: seq<Task>, roots: seq<nat>, images: seq<Image>, image: Image)
    requires MappedAll(log, tasks, roots, images) && |images| < |tasks|
    requires Mapped(log + more, |images|, tasks[|images|], roots, images + [image])
    ensures MappedAll(log + more, tasks, roots, images + [image])
  {
    hide Mapped;
    forall j: nat | j < |images| + 1 ensures Mapped(log + more, j, tasks[j], roots, images + [image]) {
      if j < |images| {
        MappedGrows(log, more, j, tasks[j], roots, images, [image]);
      }
    }
  }

  // ------------------------------------------------------------------ causality

  /** An operation waits, through its end, for everything its dependency did. */
  lemma StepFollows(log: Log, tasks: seq<Task>, roots: seq<nat>, images: seq<Image>, d: nat, j: nat, q: nat)
    requires MappedAll(log, tasks, roots, images) && Ordered(log) && d < |images| && j < |images| && d in tasks[j].dependencies
    requires q in images[j].ids || q == images[j].terminal
    ensures q < |log| && Before(log, images[d].terminal, q)
  {
    hide Before;
    assert Mapped(log, j, tasks[j], roots, images);
    var p := images[j].ids[0];
    assert p in images[j].ids;
    if q in images[j].ids {
      DependencyFollows(log, images, tasks[j], roots, d, q);
    } else {
      DependencyFollows(log, images, tasks[j], roots, d, p);
      EndFollows(log, tasks, roots, images, j, p);
      BeforeTrans(log, images[d].terminal, p, q);
    }
  }

  lemma DependencyFollows(log: Log, images: seq<Image>, task: Task, roots: seq<nat>, d: nat, q: nat)
    requires Ordered(log) && q < |log| && Waits(log, q, task, roots, images) && d in task.dependencies && d < |images|
    ensures Before(log, images[d].terminal, q)
  {
    WaitsMeans(log, q, task, roots, images);
    BeforeDirect(log, images[d].terminal, q);
  }

  /** The end of an operation comes after all its pieces. */
  lemma EndFollows(log: Log, tasks: seq<Task>, roots: seq<nat>, images: seq<Image>, j: nat, p: nat)
    requires MappedAll(log, tasks, roots, images) && Ordered(log) && j < |images|
    requires p in images[j].ids || p == images[j].terminal
    ensures p < |log| && Before(log, p, images[j].terminal)
  {
    assert Mapped(log, j, tasks[j], roots, images);
    if p == images[j].terminal {
      BeforeSelf(log, p);
    } else {
      BeforeDirect(log, p, images[j].terminal);
    }
  }

  /** Every transaction of an ancestor precedes every transaction of its descendant. */
  lemma {:induction false} AncestorFirst(log: Log, tasks: seq<Task>, roots: seq<nat>, images: seq<Image>, i: nat, j: nat, p: nat, q: nat)
    requires MappedAll(log, tasks, roots, images) && Ordered(log) && Tasks(tasks)
    requires j < |images| && i < |images| && Ancestor(tasks, i, j)
    requires p in images[i].ids || p == images[i].terminal
    requires q in images[j].ids || q == images[j].terminal
    ensures Before(log, p, q)
    decreases j
  {
    hide Before, MappedAll, Ordered;
    var g := TaskGraph(tasks);
    var k :| 0 <= k < |g[j]| && g[j][k] < j && Precedes(g, i, g[j][k]);
    var d := g[j][k];
    assert d in tasks[j].dependencies;
    StepFollows(log, tasks, roots, images, d, j, q);
    if d == i {
      EndFollows(log, tasks, roots, images, i, p);
    } else {
      AncestorFirst(log, tasks, roots, images, i, d, p, images[d].terminal);
    }
    BeforeTrans(log, p, images[d].terminal, q);
  }

  /** Every transaction of an operation comes after every root. */
  lemma {:induction false} RootFirst(log: Log, tasks: seq<Task>, roots: seq<nat>, images: seq<Image>, r: nat, j: nat, q: nat)
    requires MappedAll(log, tasks, roots, images) && Ordered(log) && Tasks(tasks) && r in roots && j < |images|
    requires q in images[j].ids || q == images[j].terminal
    ensures Before(log, r, q)
    decreases j
  {
    hide Before;
    if tasks[j].dependencies == [] {
      hide MappedAll;
      RootDirect(log, tasks, roots, images, r, j);
      EndFollows(log, tasks, roots, images, j, q);
      if q !in images[j].ids {
        var p := images[j].ids[0];
        assert p in images[j].ids;
        EndFollows(log, tasks, roots, images, j, p);
        BeforeTrans(log, r, p, q);
      }
    } else {
      hide MappedAll, Ordered;
      var d := tasks[j].dependencies[0];
      assert TaskGraph(tasks)[j][0] < j;
      RootFirst(log, tasks, roots, images, r, d, images[d].terminal);
      StepFollows(log, tasks, roots, images, d, j, q);
      BeforeTrans(log, r, images[d].terminal, q);
    }
  }

  lemma RootDirect(log: Log, tasks: seq<Task>, roots: seq<nat>, images: seq<Image>, r: nat, j: nat)
    requires MappedAll(log, tasks, roots, images) && Ordered(log) && r in roots && j < |images| && tasks[j].dependencies == []
    ensures images[j].ids != [] && forall q :: q in images[j].ids ==> Before(log, r, q)
  {
    assert Mapped(log, j, tasks[j], roots, images);
    forall q | q in images[j].ids ensures Before(log, r, q) {
      assert Waits(log, q, tasks[j], roots, images);
      WaitsMeans(log, q, tasks[j], roots, images);
      BeforeDirect(log, r, q);
    }
  }

  // --------------------------------------------------------------- whole batches

  /** A transaction of the batch that carries out a compiled operation, or stands for its end. */
  ghost predicate Served(log: Log, start: nat, q: nat)
  {
    start <= q < |log| && log[q].work.Compiled()
  }

  /** A transaction of the batch that comes before its compiled operations and is done with it. */
  ghost predicate Preparing(log: Log, start: nat, p: nat)
  {
    start <= p < |log| && !log[p].work.Compiled() && !log[p].work.Aside()
  }

  /** The physical transactions keep the causal order of the compiled operations. */
  ghost predicate KeepsOrder(log: Log, start: nat, tasks: seq<Task>)
  {
    forall p: nat, q: nat :: Served(log, start, p) && Served(log, start, q) && Ancestor(tasks, log[p].work.task, log[q].work.task) ==>
      Before(log, p, q)
  }

  /** Weights are installed and blocks are in place before any compiled operation touches memory. */
  ghost predicate PreparesFirst(log: Log, start: nat)
  {
    forall p: nat, q: nat :: Preparing(log, start, p) && Served(log, start, q) ==> Before(log, p, q)
  }

  /** Only the cold writes of swap-outs, with their links, may outlive the last transaction. */
  ghost predicate Completes(log: Log, start: nat)
  {
    && start < |log|
    && forall p: nat :: start <= p < |log| && !log[p].work.Aside() ==> Before(log, p, |log| - 1)
  }

  lemma OrderKept(log: Log, start: nat, tasks: seq<Task>, roots: seq<nat>, images: seq<Image>)
    requires MappedAll(log, tasks, roots, images) && Ordered(log) && Tasks(tasks) && Owned(log, start, images)
    ensures KeepsOrder(log, start, tasks)
  {
    hide MappedAll, Ordered, Before, Tasks, Ancestor;
    forall p: nat, q: nat | Served(log, start, p) && Served(log, start, q) && Ancestor(tasks, log[p].work.task, log[q].work.task)
      ensures Before(log, p, q)
    {
      assert OwnedBy(images, p, log[p].work.task) && OwnedBy(images, q, log[q].work.task);
      AncestorFirst(log, tasks, roots, images, log[p].work.task, log[q].work.task, p, q);
    }
  }

  /** `prepared` is the log before the first compiled operation: all of it leads to a root. */
  ghost predicate Prepared(log: Log, prepared: Log, start: nat, roots: seq<nat>)
  {
    && start <= |prepared| <= |log| && log[..|prepared|] == prepared
    && Led(prepared, start, Elements(roots))
    && forall q :: |prepared| <= q < |log| ==> log[q].work.Compiled()
  }

  lemma PreparedReaches(log: Log, prepared: Log, start: nat, roots: seq<nat>, p: nat)
    requires Prepared(log, prepared, start, roots) && Preparing(log, start, p)
    ensures exists r: nat :: r in roots && Before(log, p, r)
  {
    hide Before;
    assert p < |prepared| && prepared[p] == log[p];
    assert Leads(prepared, p, Elements(roots));
    var r: nat :| r in roots && r < |prepared| && Before(prepared, p, r);
    assert log == prepared + log[|prepared|..];
    BeforeGrows(prepared, log[|prepared|..], p, r);
  }

  lemma PreparationFirst(log: Log, prepared: Log, start: nat, tasks: seq<Task>, roots: seq<nat>, images: seq<Image>)
    requires MappedAll(log, tasks, roots, images) && Ordered(log) && Tasks(tasks) && Owned(log, start, images)
    requires Prepared(log, prepared, start, roots)
    ensures PreparesFirst(log, start)
  {
    hide MappedAll, Ordered, Before, Tasks, Prepared;
    forall p: nat, q: nat | Preparing(log, start, p) && Served(log, start, q)
      ensures Before(log, p, q)
    {
      PreparedReaches(log, prepared, start, roots, p);
      var r: nat :| r in roots && Before(log, p, r);
      assert OwnedBy(images, q, log[q].work.task);
      RootFirst(log, tasks, roots, images, r, log[q].work.task, q);
      BeforeTrans(log, p, r, q);
    }
  }

  /** If every operation precedes a final barrier, everything that must be complete precedes the last transaction. */
  lemma BatchCompletes(log: Log, prepared: Log, start: nat, tasks: seq<Task>, roots: seq<nat>, images: seq<Image>)
    requires MappedAll(log, tasks, roots, images) && Ordered(log) && Tasks(tasks) && Owned(log, start, images)
    requires Prepared(log, prepared, start, roots) && |images| == |tasks| > 0 && start < |log|
    requires images[|images| - 1].terminal == |log| - 1 && AllPrecede(TaskGraph(tasks), |tasks| - 1)
    ensures Completes(log, start)
  {
    hide MappedAll, Ordered, Before, Tasks, Prepared;
    var last: nat := |images| - 1;
    forall p: nat | start <= p < |log| && !log[p].work.Aside() ensures Before(log, p, |log| - 1) {
      if log[p].work.Compiled() {
        var i := log[p].work.task;
        assert OwnedBy(images, p, i);
        if i == last {
          EndFollows(log, tasks, roots, images, i, p);
        } else {
          assert Precedes(TaskGraph(tasks), i, last);
          AncestorFirst(log, tasks, roots, images, i, last, p, images[last].terminal);
        }
      } else {
        PreparedReaches(log, prepared, start, roots, p);
        var r: nat :| r in roots && Before(log, p, r);
        RootFirst(log, tasks, roots, images, r, last, images[last].terminal);
        BeforeTrans(log, p, r, |log| - 1);
      }
    }
  }

  /** What is done for the images of a batch, is done within it. */
  ghost predicate Ending(images: seq<Image>, start: nat, end: nat)
  {
    forall i :: 0 <= i < |images| ==> start <= images[i].terminal < end && Own(images[i].ids, start, end)
  }

  /** Transactions of the batch, as dependencies of further ones. */
  ghost predicate Own(ids: seq<nat>, start: nat, end: nat)
  {
    forall i :: i in ids ==> start <= i < end
  }

  /** First everything that prepares the batch, then its compiled operations. */
  ghost predicate Phased(log: Log, start: nat)
  {
    forall p: nat, q: nat :: start <= p < q < |log| && log[p].work.Compiled() ==> log[q].work.Compiled()
  }

  lemma Phases(log: Log, prepared: Log, start: nat, roots: seq<nat>)
    requires Prepared(log, prepared, start, roots) && Plain(prepared, start)
    ensures Phased(log, start)
  {
    forall p | 0 <= p < |prepared| ensures log[p] == prepared[p] {
    }
  }

  /** The transactions from `start` on are one batch: the fetched weights and moved blocks first, then
      the pieces of its operations, in an order that keeps what has to be kept. */
  ghost predicate Batched(log: Log, start: nat, tasks: seq<Task>, images: seq<Image>, effects: seq<Effect>)
  {
    && Completes(log, start) && Ordered(log) && Serial(log) && Handed(log, start) && Did(log[..start], log, effects)
    && Phased(log, start) && PreparesFirst(log, start) && KeepsOrder(log, start, tasks)
    && |images| == |tasks| && Owned(log, start, images) && Ending(images, start, |log|)
    && (exists roots :: MappedAll(log, tasks, roots, images) && Gates(log, start, roots))
  }

  /** The roots are exactly the barriers that prepare the batch. */
  ghost predicate Gates(log: Log, start: nat, roots: seq<nat>)
  {
    AllOf(log, start, |log|, roots, Gating)
  }

  // -------------------------------------------------------------------- pieces

  /** The contiguous extents of an operand: the one that was placed, or the fewest that cover the range
      of a block table. */
  ghost predicate Coarse(operand: Operand, pieces: seq<KvPieces.Piece>)
    requires operand.WellFormed()
  {
    match operand
    case Extent(piece, _) => pieces == [piece]
    case KvRange(_, _, _, _, _, _) => KvPieces.Separate(pieces) && KvPieces.Expanded(pieces) == operand.Addresses()
  }

  function Flat(groups: seq<seq<KvPieces.Piece>>): seq<KvPieces.Piece>
  {
    if groups == [] then [] else Flat(groups[..|groups| - 1]) + groups[|groups| - 1]
  }

  /** Each extent in HBM is cut at the borders of its whole stripes, and nowhere else. */
  ghost predicate CutAtStripes(coarse: seq<KvPieces.Piece>, groups: seq<seq<KvPieces.Piece>>, stripe: nat)
  {
    |groups| == |coarse| && forall k :: 0 <= k < |coarse| ==> KvPieces.StripeCut(groups[k], coarse[k].address, coarse[k].bytes, stripe)
  }

  ghost predicate Finer(operand: Operand, coarse: seq<KvPieces.Piece>, groups: seq<seq<KvPieces.Piece>>, pieces: seq<KvPieces.Piece>, stripe: nat)
    requires operand.WellFormed()
  {
    && Coarse(operand, coarse)
    && if operand.Extent? && !operand.inHbm then pieces == coarse else CutAtStripes(coarse, groups, stripe) && pieces == Flat(groups)
  }

  ghost predicate Cut(operand: Operand, pieces: seq<KvPieces.Piece>, stripe: nat)
    requires operand.WellFormed()
  {
    exists coarse, groups :: Finer(operand, coarse, groups, pieces, stripe)
  }

  /** The accesses of an operation are exactly its pieces. */
  ghost predicate CutAs(log: Log, ids: seq<nat>, operand: Operand, stripe: nat)
  {
    operand.WellFormed() && (forall k :: 0 <= k < |ids| ==> ids[k] < |log| && log[ids[k]].work.Access?)
    && Cut(operand, seq(|ids|, k requires 0 <= k < |ids| && ids[k] < |log| && log[ids[k]].work.Access? => log[ids[k]].work.piece), stripe)
  }

  ghost predicate CutAll(log: Log, tasks: seq<Task>, images: seq<Image>, stripe: nat)
  {
    |images| <= |tasks| && forall j :: 0 <= j < |images| && tasks[j].Memory? ==> CutAs(log, images[j].ids, tasks[j].operand, stripe)
  }

  lemma CutKept(log: Log, longer: Log, ids: seq<nat>, operand: Operand, stripe: nat)
    requires CutAs(log, ids, operand, stripe) && |log| <= |longer| && forall q :: 0 <= q < |log| ==> longer[q] == log[q]
    ensures CutAs(longer, ids, operand, stripe)
  {
    hide Cut, Operand.WellFormed;
    assert seq(|ids|, k requires 0 <= k < |ids| && ids[k] < |log| && log[ids[k]].work.Access? => log[ids[k]].work.piece)
        == seq(|ids|, k requires 0 <= k < |ids| && ids[k] < |longer| && longer[ids[k]].work.Access? => longer[ids[k]].work.piece);
  }

  lemma CutPush(log: Log, longer: Log, tasks: seq<Task>, images: seq<Image>, image: Image, stripe: nat)
    requires CutAll(log, tasks, images, stripe) && |images| < |tasks|
    requires |log| <= |longer| && forall q :: 0 <= q < |log| ==> longer[q] == log[q]
    requires tasks[|images|].Memory? ==> CutAs(longer, image.ids, tasks[|images|].operand, stripe)
    ensures CutAll(longer, tasks, images + [image], stripe)
  {
    hide CutAs;
    forall j | 0 <= j < |images| + 1 && tasks[j].Memory? ensures CutAs(longer, (images + [image])[j].ids, tasks[j].operand, stripe) {
      if j < |images| {
        CutKept(log, longer, images[j].ids, tasks[j].operand, stripe);
      }
    }
  }

  // --------------------------------------------------------------------- layout

  /** The operations follow one another from `from` on without a gap. */
  ghost predicate Laid(images: seq<Image>, from: nat)
  {
    forall j :: 0 <= j < |images| ==> images[j].ids != [] && images[j].ids[0] == if j == 0 then from else images[j - 1].terminal + 1
  }

  /** Everything about a batch: the release first, what waits for what, the pieces, and the order. */
  ghost predicate Exact(log: Log, start: nat, tasks: seq<Task>, images: seq<Image>, cold: ColdTier, stripe: nat)
  {
    && start < |log| && log[start].work.Release? && Strict(log, start, cold) && CutAll(log, tasks, images, stripe)
    && exists from: nat :: start < from && Laid(images, from) && forall q: nat :: start <= q < |log| ==> (q < from <==> !log[q].work.Compiled())
  }
}
