/** One iteration from the scheduler's batch to physical transactions. */
module Pipelines {
  import opened Graphs
  import opened PrefixKeys
  import opened PrefixSpec
  import opened Tables
  import opened PlacementSpec
  import opened PlacementInvariant
  import opened KvMemory
  import opened KvRefinement
  import opened KvRuns
  import opened Operations
  import opened Compilers
  import opened Transactions
  import opened TaskMaps
  import opened Strictness
  import opened Mappings
  import opened Machines
  import opened Settlements
  import opened KvTraffic
  import opened KvApart
  import opened KvBatches
  import opened Realizations
  import KvPieces

  /** Where weights and embedding rows lie. */
  type Weights = Operation -> Operand

  ghost predicate Placed(weights: Weights)
  {
    forall o :: weights(o).Extent? && weights(o).WellFormed()
  }

  /** What the plane has promised about the slices of a batch when the batch is mapped. */
  ghost predicate Mappable(g: Setting, layers: nat)
  {
    && (forall i :: 0 <= i < |g.slices| ==> g.slices[i].request in g.s.kv && Ready(g, i, layers))
    && forall i, k :: 0 <= i < k < |g.slices| && g.slices[i].request in g.s.kv && g.slices[k].request in g.s.kv ==>
         g.St(i).request != g.St(k).request
  }

  ghost predicate Ready(g: Setting, i: nat, layers: nat)
    requires i < |g.slices| && g.slices[i].request in g.s.kv
  {
    && g.slices[i].count > 0 && |g.St(i).table| == layers
    && forall l: nat :: l < layers ==> g.Holds(i, l) && g.slices[i].End() <= Span(|g.St(i).table[l]|, g.blockTokens)
  }

  /** The rows as the compiler takes them. */
  function RowsOf(slices: seq<Slice>): (rows: seq<Row>)
    ensures |rows| == |slices| && forall i :: 0 <= i < |rows| ==> rows[i] == Row(slices[i].count, slices[i].begin)
  {
    seq(|slices|, i requires 0 <= i < |slices| => Row(slices[i].count, slices[i].begin))
  }

  /** An append is the slice's range of its request's layer, a context read all in front of it. */
  function OperandOf(operation: Operation, g: Setting, weights: Weights): Operand
  {
    if operation.role.KvWrite? && operation.role.row < |g.slices| && g.slices[operation.role.row].request in g.s.kv
    then g.Append(operation.role.row, operation.role.layer)
    else if operation.role.KvRead? && operation.role.row < |g.slices| && g.slices[operation.role.row].request in g.s.kv
    then g.Context(operation.role.row, operation.role.layer)
    else weights(operation)
  }

  function TaskOf(operation: Operation, g: Setting, weights: Weights): Task
  {
    if operation.IsBarrier() then Sync(operation.dependencies) else Memory(operation.dependencies, OperandOf(operation, g, weights))
  }

  function TasksOf(operations: seq<Operation>, g: Setting, weights: Weights): (tasks: seq<Task>)
    ensures |tasks| == |operations| && forall i :: 0 <= i < |tasks| ==> tasks[i] == TaskOf(operations[i], g, weights)
  {
    seq(|operations|, i requires 0 <= i < |operations| => TaskOf(operations[i], g, weights))
  }

  // ------------------------------------------------------------ what is compiled

  /** The bytes of the first tokens of a layer are in the blocks that its table has for them. */
  lemma RangeReaches(g: Setting, i: nat, layer: nat, end: nat)
    requires g.Holds(i, layer) && end <= Span(|g.St(i).table[layer]|, g.blockTokens)
    ensures var table := TableOf(g.St(i), layer, g.blockTokens, g.arena);
      && table.used > 0
      && forall at: nat :: at < Bytes(end, g.St(i), layer) ==> KvPieces.Ordinal(at, table.used) < |table.blocks|
  {
    hide KvPieces.Ordinal, KvPieces.Within, At;
    var st := g.St(i);
    var width, table := st.request.model.TokenBytes(layer), TableOf(st, layer, g.blockTokens, g.arena);
    ByteCell(0, width, g.blockTokens);
    forall at: nat | at < Bytes(end, st, layer) ensures KvPieces.Ordinal(at, table.used) < |table.blocks| {
      ByteCell(at, width, g.blockTokens);
      BytesBelow(end, at, width);
      TokenBelow(at / width, |table.blocks|, g.blockTokens);
    }
  }

  lemma TokenBelow(position: nat, width: nat, blockTokens: nat)
    requires blockTokens > 0 && position < Span(width, blockTokens)
    ensures position / blockTokens < width
  {
    PositionCovered(position, width, blockTokens);
  }

  /** Appends and contexts are well-formed operands. */
  lemma OperandsFormed(g: Setting, i: nat, layer: nat)
    requires g.Holds(i, layer) && g.slices[i].count > 0 && g.slices[i].End() <= Span(|g.St(i).table[layer]|, g.blockTokens)
    ensures g.Append(i, layer).WellFormed() && (g.slices[i].begin > 0 ==> g.Context(i, layer).WellFormed())
  {
    var slice, st := g.slices[i], g.St(i);
    var width := st.request.model.TokenBytes(layer);
    RangeReaches(g, i, layer, slice.End());
    BytesSum(slice.begin, slice.count, width);
    BytesOrdered(slice.begin, slice.End(), 0, width);
    BytesOrdered(1, slice.count, 0, width);
    if slice.begin > 0 {
      BytesOrdered(1, slice.begin, 0, width);
    }
    hide KvPieces.Ordinal, At;
    var table := TableOf(st, layer, g.blockTokens, g.arena);
    assert At(1, width, 0) > 0 by {
      OneToken(width);
    }
    assert table.Reaches(Bytes(slice.begin, st, layer), Bytes(slice.count, st, layer));
    assert table.Reaches(0, Bytes(slice.begin, st, layer));
  }

  lemma OneToken(width: nat)
    requires width > 0
    ensures At(1, width, 0) == width
  {
  }

  /** What the compiler promises is what the mapping asks for. */
  lemma CompiledFits(operations: seq<Operation>, g: Setting, weights: Weights, layers: nat)
    requires operations != [] && Topological(GraphOf(operations)) && AllPrecede(GraphOf(operations), |operations| - 1)
    requires Exhaustive(operations, RowsOf(g.slices), layers) && Mappable(g, layers) && Placed(weights)
    ensures
      var tasks := TasksOf(operations, g, weights);
      tasks != [] && Tasks(tasks) && AllPrecede(TaskGraph(tasks), |tasks| - 1)
  {
    hide Topological, AllPrecede, Operand.WellFormed, Exhaustive, Mappable, OperandOf;
    var tasks := TasksOf(operations, g, weights);
    assert TaskGraph(tasks) == GraphOf(operations);
    forall i | 0 <= i < |tasks| ensures tasks[i].WellFormed() {
      TaskFormed(operations, i, g, weights, layers);
    }
  }

  lemma TaskFormed(operations: seq<Operation>, i: nat, g: Setting, weights: Weights, layers: nat)
    requires i < |operations| && Exhaustive(operations, RowsOf(g.slices), layers) && Mappable(g, layers) && Placed(weights)
    ensures OperandOf(operations[i], g, weights).WellFormed()
  {
    hide Operand.WellFormed, Setting.Holds, Setting.Append, Setting.Context, HasWrite;
    var role := operations[i].role;
    if role.KvWrite? || role.KvRead? {
      assert Ready(g, role.row, layers);
      OperandsFormed(g, role.row, role.layer);
    }
  }

  /** The batch's tasks serve its slices: each is appended once to each layer, and contexts are read
      behind the appends of their layer. */
  lemma CompiledServes(operations: seq<Operation>, g: Setting, weights: Weights, layers: nat)
    requires Exhaustive(operations, RowsOf(g.slices), layers) && Mappable(g, layers) && Placed(weights)
    requires WritesFirst(operations, |g.slices|) && Topological(GraphOf(operations))
    ensures Serving(g, TasksOf(operations, g, weights))
  {
    hide Topological, Exhaustive, Mappable, Placed, OperandOf, WritesFirst, Ancestor, Setting.Holds, Different, Setting.Append, Setting.Context;
    var tasks := TasksOf(operations, g, weights);
    forall j | 0 <= j < |tasks| && tasks[j].Memory? && tasks[j].operand.KvRange?
      ensures if tasks[j].operand.write then exists i :: Appending(g, tasks[j].operand, i, tasks[j].operand.layer)
              else exists i :: Recalling(g, tasks[j].operand, i, tasks[j].operand.layer)
    {
      var i := WhoseOperand(operations, j, g, weights, layers);
    }
    forall i, layer | g.Holds(i, layer) ensures HasAppend(g, tasks, i, layer) {
      AppendOperation(operations, g, weights, layers, i, layer);
    }
    forall j, j' | 0 <= j < j' < |tasks| && tasks[j].Memory? && tasks[j'].Memory?
      ensures Different(g, tasks[j].operand, tasks[j'].operand)
    {
      AppendsDiffer(operations, g, weights, layers, j, j');
    }
    forall j, j' | 0 <= j < |tasks| && 0 <= j' < |tasks| && Earlier(tasks[j], tasks[j']) ensures Ancestor(tasks, j, j') {
      AppendAncestor(operations, g, weights, layers, j, j');
    }
  }

  /** A KV operand is the one of its operation's row and layer. */
  lemma WhoseOperand(operations: seq<Operation>, j: nat, g: Setting, weights: Weights, layers: nat) returns (i: nat)
    requires Exhaustive(operations, RowsOf(g.slices), layers) && Mappable(g, layers) && Placed(weights)
    requires j < |operations| && OperandOf(operations[j], g, weights).KvRange?
    ensures var operand, role := OperandOf(operations[j], g, weights), operations[j].role;
      if operand.write then role == KvWrite(i, operand.layer) && Appending(g, operand, i, operand.layer)
      else role == KvRead(i, operand.layer) && Recalling(g, operand, i, operand.layer)
  {
    hide Setting.Holds, HasWrite, Operand.WellFormed;
    var role := operations[j].role;
    i := role.row;
    assert Ready(g, i, layers);
  }

  lemma AppendOperation(operations: seq<Operation>, g: Setting, weights: Weights, layers: nat, i: nat, layer: nat)
    requires Exhaustive(operations, RowsOf(g.slices), layers) && Mappable(g, layers) && g.Holds(i, layer)
    ensures HasAppend(g, TasksOf(operations, g, weights), i, layer)
  {
    hide Setting.Append;
    assert Ready(g, i, layers);
    assert HasWrite(operations, layer, i);
    var j :| 0 <= j < |operations| && operations[j].role == KvWrite(i, layer);
    assert Appending(g, TasksOf(operations, g, weights)[j].operand, i, layer);
  }

  lemma AppendsDiffer(operations: seq<Operation>, g: Setting, weights: Weights, layers: nat, j: nat, j': nat)
    requires Exhaustive(operations, RowsOf(g.slices), layers) && Mappable(g, layers) && Placed(weights)
    requires j < j' < |operations|
    ensures Different(g, OperandOf(operations[j], g, weights), OperandOf(operations[j'], g, weights))
  {
    hide Exhaustive, Mappable, OperandOf, Setting.Holds;
    var a, b := OperandOf(operations[j], g, weights), OperandOf(operations[j'], g, weights);
    forall i, layer | Appending(g, a, i, layer) && Appending(g, b, i, layer) ensures false {
      var k := WhoseOperand(operations, j, g, weights, layers);
      var k' := WhoseOperand(operations, j', g, weights, layers);
      SameRow(g, layers, i, k, layer);
      SameRow(g, layers, i, k', layer);
      OnceOnly(operations, RowsOf(g.slices), layers, j, j');
    }
  }

  lemma OnceOnly(operations: seq<Operation>, rows: seq<Row>, layers: nat, j: nat, j': nat)
    requires Exhaustive(operations, rows, layers) && j < j' < |operations| && operations[j].role.KvWrite?
    ensures operations[j].role != operations[j'].role
  {
  }

  /** Rows are told apart by their requests. */
  lemma SameRow(g: Setting, layers: nat, i: nat, k: nat, layer: nat)
    requires Mappable(g, layers) && g.Holds(i, layer) && g.Holds(k, layer) && g.Append(i, layer) == g.Append(k, layer)
    ensures i == k
  {
    hide Ready;
    assert g.St(i).request == g.Append(i, layer).request == g.St(k).request;
  }

  lemma AppendAncestor(operations: seq<Operation>, g: Setting, weights: Weights, layers: nat, j: nat, j': nat)
    requires Exhaustive(operations, RowsOf(g.slices), layers) && Mappable(g, layers) && Placed(weights)
    requires WritesFirst(operations, |g.slices|) && Topological(GraphOf(operations)) && j < |operations| && j' < |operations|
    requires Earlier(TasksOf(operations, g, weights)[j], TasksOf(operations, g, weights)[j'])
    ensures Ancestor(TasksOf(operations, g, weights), j, j')
  {
    hide Exhaustive, Mappable, OperandOf, Topological, Appending, Recalling, Placed, Compilers.Writes, Precedes;
    var tasks := TasksOf(operations, g, weights);
    assert TaskGraph(tasks) == GraphOf(operations);
    var i := WhoseOperand(operations, j, g, weights, layers);
    var i' := WhoseOperand(operations, j', g, weights, layers);
    assert AllListed(operations, operations[j'].dependencies, operations[j'].role.layer);
    DependsOn(operations, j, j');
  }

  /** Transaction p appends to a layer. */
  ghost predicate Appends(log: Log, operations: seq<Operation>, p: nat, layer: nat)
  {
    && p < |log| && log[p].work.Access? && log[p].work.task < |operations|
    && operations[log[p].work.task].role.KvWrite? && operations[log[p].work.task].role.layer == layer
  }

  ghost predicate ReadsContext(log: Log, operations: seq<Operation>, q: nat)
  {
    q < |log| && log[q].work.Access? && log[q].work.task < |operations| && operations[log[q].work.task].role.KvRead?
  }

  /** In physical memory, too, every context read of a layer comes after every append of the batch to
      it, and each row has one. */
  lemma AppendsFirst(log: Log, start: nat, operations: seq<Operation>, g: Setting, weights: Weights, rows: nat, q: nat)
    requires WritesFirst(operations, rows) && Topological(GraphOf(operations))
    requires KeepsOrder(log, start, TasksOf(operations, g, weights))
    requires start <= q && ReadsContext(log, operations, q)
    ensures AfterAppends(log, start, operations, rows, q)
  {
    var j := log[q].work.task;
    var listed, layer := operations[j].dependencies, operations[j].role.layer;
    assert Compilers.Writes(operations, listed, layer, rows) && AllListed(operations, listed, layer);
    var tasks := TasksOf(operations, g, weights);
    assert TaskGraph(tasks) == GraphOf(operations);
    hide Transactions.Before, Ancestor, KeepsOrder, Topological;
    forall r: nat | r < rows ensures HasWrite(operations, layer, r) {
      assert Writer(operations, listed, r, layer);
    }
    forall p: nat | start <= p && Appends(log, operations, p, layer) ensures Transactions.Before(log, p, q) {
      var i := log[p].work.task;
      assert i in listed;
      DependsOn(operations, i, j);
      AncestorOf(tasks, i, j);
      OrderOf(log, start, tasks, p, q);
    }
  }

  lemma AncestorOf(tasks: seq<Task>, i: nat, j: nat)
    requires i != j && Precedes(TaskGraph(tasks), i, j)
    ensures Ancestor(tasks, i, j)
  {
  }

  lemma OrderOf(log: Log, start: nat, tasks: seq<Task>, p: nat, q: nat)
    requires KeepsOrder(log, start, tasks) && start <= p < |log| && start <= q < |log|
    requires log[p].work.Compiled() && log[q].work.Compiled() && Ancestor(tasks, log[p].work.task, log[q].work.task)
    ensures Transactions.Before(log, p, q)
  {
    assert Served(log, start, p) && Served(log, start, q);
  }

  /** Transaction q, a context read, follows all appends to its layer. */
  ghost predicate AfterAppends(log: Log, start: nat, operations: seq<Operation>, rows: nat, q: nat)
    requires ReadsContext(log, operations, q)
  {
    var layer := operations[log[q].work.task].role.layer;
    && (forall r: nat :: r < rows ==> HasWrite(operations, layer, r))
    && forall p: nat :: start <= p && Appends(log, operations, p, layer) ==> Transactions.Before(log, p, q)
  }

  lemma DependsOn(operations: seq<Operation>, i: nat, j: nat)
    requires Topological(GraphOf(operations)) && j < |operations| && i in operations[j].dependencies
    ensures i < j && Precedes(GraphOf(operations), i, j)
  {
    var g := GraphOf(operations);
    var k :| 0 <= k < |g[j]| && g[j][k] == i;
    DependsDirectly(g, i, j);
  }

  /** Compiles and maps one iteration.  Its transactions serve the plane's slices, carry out the plane's
      migrations, and have every appended token in HBM before its layer's context is read. */
  method MapIteration(g: Setting, layers: seq<Layer>, prefetchDepth: nat, emitsOutput: bool, weights: Weights,
                      mapper: Mapper, activation: Activation)
    returns (operations: seq<Operation>, images: seq<Image>, retain: set<nat>)
    requires mapper.Valid() && Runnable(RowsOf(g.slices), layers) && Mappable(g, |layers|) && Placed(weights)
    modifies mapper
    ensures mapper.Valid() && Mappings.Extends(old(mapper.log), mapper.log) && retain == mapper.fences.Values
    ensures Local(mapper.log, |old(mapper.log)|, old(mapper.fences).Values)
    ensures Serving(g, TasksOf(operations, g, weights))
    ensures Batched(mapper.log, |old(mapper.log)|, TasksOf(operations, g, weights), images,
                    ActivationEffects(activation) + MoveEffects(MovesOf(g.s.migrations)))
    ensures RolesOf(operations) == Iteration(RowsOf(g.slices), layers, prefetchDepth, emitsOutput).Roles()
    ensures Precise(operations, Iteration(RowsOf(g.slices), layers, prefetchDepth, emitsOutput))
    ensures Exact(mapper.log, |old(mapper.log)|, TasksOf(operations, g, weights), images, mapper.cold, mapper.stripe)
    ensures Took(old(mapper.log), mapper.log, BatchSteps(activation, MovesOf(g.s.migrations)))
    ensures forall q: nat :: |old(mapper.log)| <= q && ReadsContext(mapper.log, operations, q) ==>
      AfterAppends(mapper.log, |old(mapper.log)|, operations, |g.slices|, q)
  {
    hide Precise, RolesOf, Exact, Took, BatchSteps, Iteration.Roles, Local, WritesFirst, AfterAppends, Topological, AllPrecede, Tasks, Mappable, Placed, KvRoles, LayerRoles, Exhaustive,
      Serving, Batched, ReadsContext;
    var compiler := new Compiler();
    compiler.Compile(RowsOf(g.slices), layers, prefetchDepth, emitsOutput);
    operations := compiler.operations;
    RolesExhaustive(operations, RowsOf(g.slices), |layers|);
    CompiledFits(operations, g, weights, |layers|);
    CompiledServes(operations, g, weights, |layers|);
    images, retain := mapper.MapBatch(TasksOf(operations, g, weights), activation, MovesOf(g.s.migrations));
    ghost var start := |old(mapper.log)|;
    BatchOrdered(mapper.log, start, TasksOf(operations, g, weights), images, ActivationEffects(activation) + MoveEffects(MovesOf(g.s.migrations)));
    forall q: nat | start <= q && ReadsContext(mapper.log, operations, q)
      ensures AfterAppends(mapper.log, start, operations, |g.slices|, q)
    {
      AppendsFirst(mapper.log, start, operations, g, weights, |g.slices|, q);
    }
  }

  lemma BatchOrdered(log: Log, start: nat, tasks: seq<Task>, images: seq<Image>, effects: seq<Effect>)
    requires Batched(log, start, tasks, images, effects)
    ensures KeepsOrder(log, start, tasks)
  {
    hide Completes, Ordered, Serial, Handed, Did, Phased, PreparesFirst, KeepsOrder, Owned, Ending, MappedAll;
  }

  // --------------------------------------------------------------- what is needed

  /** Blocks are as large as any layer of a live request needs. */
  ghost predicate LargeEnough(w: World, arena: Arena, cfg: Config)
  {
    forall id, layer: nat :: id in w.s.kv && layer < w.s.kv[id].request.model.layers ==>
      At(cfg.blockTokens, w.s.kv[id].request.model.TokenBytes(layer), 0) <= arena.blockBytes
  }

  /** In every reachable state the plane has promised enough to map the batch that is reserved. */
  lemma WorldMappable(w: World, arena: Arena, cfg: Config, layers: nat)
    requires cfg.Valid() && KvRuns.Sound(w, cfg) && Tidied(w, cfg) && LargeEnough(w, arena, cfg)
    requires forall i :: 0 <= i < |w.reserved| && w.reserved[i].request in w.s.kv ==>
      w.s.kv[w.reserved[i].request].request.model.layers == layers
    ensures Mappable(Setting(w.s, w.reserved, cfg.blockTokens, arena), layers)
    ensures Fitting(Setting(w.s, w.reserved, cfg.blockTokens, arena))
  {
    hide KvRuns.Sound, Tidied, LargeEnough;
    var g := Setting(w.s, w.reserved, cfg.blockTokens, arena);
    forall i | 0 <= i < |w.reserved| ensures w.reserved[i].request in w.s.kv && Ready(g, i, layers) {
      SliceReady(w, arena, cfg, i);
    }
    SlicesApart(w, cfg);
  }

  lemma SliceReady(w: World, arena: Arena, cfg: Config, i: nat)
    requires cfg.Valid() && KvRuns.Sound(w, cfg) && LargeEnough(w, arena, cfg) && i < |w.reserved|
    ensures w.reserved[i].request in w.s.kv
    ensures Ready(Setting(w.s, w.reserved, cfg.blockTokens, arena), i, w.s.kv[w.reserved[i].request].request.model.layers)
  {
    hide LargeEnough, Inv, AllRead, EntriesHold, Exclusive, Clean, Future, At, Span;
    SoundMeans(w, cfg);
    var id := w.reserved[i].request;
    assert w.reserved[i].End() <= w.frontier[id];
    TableShape(w.s, id, cfg);
    NoSpan(cfg.blockTokens);
    var g := Setting(w.s, w.reserved, cfg.blockTokens, arena);
    forall l: nat | l < w.s.kv[id].request.model.layers
      ensures g.Holds(i, l) && w.reserved[i].End() <= Span(|w.s.kv[id].table[l]|, cfg.blockTokens)
    {
      BlockLarge(w, arena, cfg, id, l);
    }
  }

  lemma BlockLarge(w: World, arena: Arena, cfg: Config, id: nat, l: nat)
    requires LargeEnough(w, arena, cfg) && id in w.s.kv && l < w.s.kv[id].request.model.layers
    ensures At(cfg.blockTokens, w.s.kv[id].request.model.TokenBytes(l), 0) <= arena.blockBytes
  {
  }

  lemma NoSpan(blockTokens: nat)
    ensures Span(0, blockTokens) == 0
  {
  }

  lemma TableShape(s: State, id: nat, cfg: Config)
    requires Inv(s, cfg) && id in s.kv
    ensures s.kv[id].request.Valid() && s.kv[id].request.id == id
    ensures s.kv[id].table == [] || Rectangular(s.kv[id].table, s.kv[id].request.model.layers, s.kv[id].Width())
  {
    hide Accounted, ColdBalanced;
    assert Shaped(s.kv[id], cfg);
  }

  lemma SlicesApart(w: World, cfg: Config)
    requires KvRuns.Sound(w, cfg) && Tidied(w, cfg)
    ensures forall i, k :: 0 <= i < k < |w.reserved| && w.reserved[i].request in w.s.kv && w.reserved[k].request in w.s.kv ==>
      w.s.kv[w.reserved[i].request].request != w.s.kv[w.reserved[k].request].request
  {
    hide Inv, AllRead, EntriesHold, Exclusive, Clean, Future, Orderly, Seated, OneWriter, Covering, BatchOk;
    forall i, k | 0 <= i < k < |w.reserved| && w.reserved[i].request in w.s.kv && w.reserved[k].request in w.s.kv
      ensures w.s.kv[w.reserved[i].request].request != w.s.kv[w.reserved[k].request].request
    {
      TableShape(w.s, w.reserved[i].request, cfg);
      TableShape(w.s, w.reserved[k].request, cfg);
    }
  }

  /** What an iteration emits for a reachable state is what a recorded run consists of. */
  lemma IterationMaps(w: World, arena: Arena, cfg: Config, log: Log, start: nat, operations: seq<Operation>, weights: Weights,
                      images: seq<Image>, activation: Activation)
    requires Fitting(Setting(w.s, w.reserved, cfg.blockTokens, arena))
    requires var g := Setting(w.s, w.reserved, cfg.blockTokens, arena);
      && Serving(g, TasksOf(operations, g, weights))
      && Batched(log, start, TasksOf(operations, g, weights), images, ActivationEffects(activation) + MoveEffects(MovesOf(g.s.migrations)))
    ensures var g := Setting(w.s, w.reserved, cfg.blockTokens, arena);
      Mapping(log, Mark(start, |log|, w, TasksOf(operations, g, weights), images, activation), arena, cfg)
  {
    hide Fitting, Serving, Batched;
    var g := Setting(w.s, w.reserved, cfg.blockTokens, arena);
    BatchBegun(log, start, TasksOf(operations, g, weights), images, ActivationEffects(activation) + MoveEffects(MovesOf(g.s.migrations)));
  }

  lemma BatchBegun(log: Log, start: nat, tasks: seq<Task>, images: seq<Image>, effects: seq<Effect>)
    requires Batched(log, start, tasks, images, effects)
    ensures start < |log|
  {
    hide Ordered, Serial, Handed, Did, Phased, PreparesFirst, KeepsOrder, Owned, Ending, MappedAll;
  }
}
