/** One scheduler iteration as a causal graph of memory operations and barriers. */
module Compilers {
  import opened Graphs
  import opened Operations

  /** The appended tokens' writes, of every row and all of them, are direct dependencies of every
      context read of their layer. */
  ghost predicate WritesFirst(operations: seq<Operation>, rows: nat)
  {
    forall j :: 0 <= j < |operations| && operations[j].role.KvRead? ==>
      && Writes(operations, operations[j].dependencies, operations[j].role.layer, rows)
      && AllListed(operations, operations[j].dependencies, operations[j].role.layer)
  }

  ghost predicate AllListed(operations: seq<Operation>, listed: seq<nat>, layer: nat)
  {
    forall i: nat :: i < |operations| && operations[i].role.KvWrite? && operations[i].role.layer == layer ==> i in listed
  }

  /** Appends belong to the first `writing` layers, context reads to the first `reading` ones. */
  ghost predicate Layered(operations: seq<Operation>, writing: nat, reading: nat)
  {
    forall i :: 0 <= i < |operations| ==>
      && (operations[i].role.KvWrite? ==> operations[i].role.layer < writing)
      && (operations[i].role.KvRead? ==> operations[i].role.layer < reading)
  }

  ghost predicate Writes(operations: seq<Operation>, listed: seq<nat>, layer: nat, rows: nat)
  {
    forall r: nat :: r < rows ==> Writer(operations, listed, r, layer)
  }

  ghost predicate Writer(operations: seq<Operation>, listed: seq<nat>, r: nat, layer: nat)
  {
    exists i: nat :: i in listed && i < |operations| && operations[i].role == KvWrite(r, layer)
  }

  class Compiler {
    var operations: seq<Operation>
    /** Operations that nothing waits for yet. */
    ghost var Open: set<nat>
    /** How many layers have begun to append, and to read. */
    ghost var Writing: nat
    ghost var Reading: nat

    ghost predicate Valid()
      reads this
    {
      OpenEnds(GraphOf(operations), Open) && Layered(operations, Writing, Reading)
    }

    constructor ()
      ensures Valid() && operations == [] && Open == {} && Writing == Reading == 0
    {
      operations, Open, Writing, Reading := [], {}, 0, 0;
      NoEnds();
    }

    /** Appends one operation behind its dependencies. */
    method Emit(role: Role, dependencies: seq<nat>) returns (id: nat)
      requires Valid() && forall k :: 0 <= k < |dependencies| ==> dependencies[k] < |operations|
      requires (role.KvWrite? ==> role.layer < Writing) && (role.KvRead? ==> role.layer < Reading)
      modifies this`operations, this`Open
      ensures Valid() && id == |old(operations)| && operations == old(operations) + [Operation(role, dependencies)]
      ensures Open == (old(Open) - Elements(dependencies)) + {id}
      ensures Said(old(operations), operations, [role]) && Adds(old(operations), operations, GroupsOf(role), [id])
    {
      hide Said, Adds;
      SaidOne(operations, Operation(role, dependencies));
      AddsOne(operations, Operation(role, dependencies));
      Extended(GraphOf(operations), Open, dependencies);
      id := |operations|;
      Open := (Open - Elements(dependencies)) + {id};
      operations := operations + [Operation(role, dependencies)];
      assert GraphOf(operations) == GraphOf(old(operations)) + [dependencies];
    }

    /** The memory and compute of one layer, behind the previous compute and the freed buffer. */
    method EmitLayer(rows: seq<Row>, layer: Layer, l: nat, root: nat, current: nat, ghost it: Iteration) returns (compute: nat, writes: seq<nat>)
      requires Valid() && rows != [] && (layer.moe ==> layer.experts > 0) && root < |operations| && current < |operations|
      requires it.rows == rows && l < |it.layers| && it.layers[l] == layer && Proper(operations, it) && Vacant(operations, l)
      requires Ids(operations, it.Root(l)) == {root} && Ids(operations, it.Prior(l)) == {current}
      requires Writing == Reading == l
      modifies this
      ensures Writing == Reading == l + 1
      ensures Valid() && Proper(operations, it) && Grown(old(operations), operations)
      ensures compute < |operations| && forall k :: 0 <= k < |writes| ==> writes[k] < |operations|
      ensures Open <= (old(Open) - {current}) + Elements(writes) + {compute}
      ensures Said(old(operations), operations, it.OneLayer(l))
      ensures Emitted(old(operations), operations, l, compute, writes)
    {
      hide Compiler.Valid, Proper, Grown, Said, Vacant, Stocked, Emitted, Ids, Adds, GroupsOf, AnyContext, Iteration.Memory, Iteration.ExpertLoads,
        Iteration.Needed;
      ghost var first, base := operations, Open - {current};
      var memoryOps: seq<nat>;
      memoryOps, writes := EmitMemory(rows, layer, l, root, current, it);
      ghost var shelf := Shelf(memoryOps, writes, [], [], []);
      var routing: nat := current;
      if layer.moe {
        routing, shelf := EmitRouting(l, memoryOps, current, it, first, shelf);
      } else {
        SaidChoice(first, operations, it.Memory(l), Routing(l));
      }
      ghost var second := operations;
      GrownSize(first, operations);
      memoryOps, shelf := EmitExpertLoads(layer, l, root, routing, memoryOps, base, it, first, shelf);
      SaidMore(first, second, operations, it.Memory(l) + Choice(layer.moe, Routing(l)), it.ExpertLoads(l));
      GrownMore(first, second, operations);
      second := operations;
      compute := EmitEnd(l, root, current, memoryOps, base, it, first, shelf);
      GrownMore(first, second, operations);
    }

    /** The routing decision, behind what has been loaded. */
    method EmitRouting(l: nat, memoryOps: seq<nat>, current: nat, ghost it: Iteration, ghost first: seq<Operation>, ghost shelf: Shelf)
      returns (routing: nat, ghost next: Shelf)
      requires Valid() && Proper(operations, it) && l < |it.layers| && it.layers[l].moe && Vacant(first, l) && Grown(first, operations)
      requires current < |operations| && forall k :: 0 <= k < |memoryOps| ==> memoryOps[k] < |operations|
      requires Ids(first, it.Prior(l)) == {current} && Stocked(first, operations, l, shelf) && shelf.loads == memoryOps && shelf.routing == []
      requires Said(first, operations, it.Memory(l))
      modifies this`operations, this`Open
      ensures Valid() && Proper(operations, it) && Grown(first, operations) && |operations| > |old(operations)|
      ensures routing == |old(operations)| && next == shelf.(routing := [routing]) && Stocked(first, operations, l, next)
      ensures Open == (old(Open) - Elements(memoryOps) - {current}) + {routing}
      ensures Said(first, operations, it.Memory(l) + Choice(it.layers[l].moe, Routing(l)))
    {
      hide Compiler.Valid, Proper, Grown, Said, Vacant, Stocked, Ids, Adds, Iteration.Memory;
      ghost var now := operations;
      StockedMeans(first, operations, l, shelf);
      RootKept(first, operations, it, l, shelf);
      assert Elements([current]) == {current};
      DueTwo(operations, it, Routing(l), Loads(l), memoryOps, it.Prior(l), [current]);
      routing := EmitQuiet(Routing(l), memoryOps + [current], it);
      GrownMore(first, now, operations);
      next := shelf.(routing := [routing]);
      StockedMore(first, now, operations, l, shelf, {Routings(l)}, [routing], next);
      SaidMore(first, now, operations, it.Memory(l), [Routing(l)]);
    }

    /** All loads of the layer are there, and then it is computed. */
    method EmitEnd(l: nat, root: nat, current: nat, memoryOps: seq<nat>, ghost base: set<nat>, ghost it: Iteration, ghost first: seq<Operation>,
                   ghost shelf: Shelf)
      returns (compute: nat)
      requires Valid() && Proper(operations, it) && l < |it.layers| && Vacant(first, l) && Grown(first, operations)
      requires root < |operations| && current < |operations| && forall k :: 0 <= k < |memoryOps| ==> memoryOps[k] < |operations|
      requires Ids(first, it.Root(l)) == {root} && Ids(first, it.Prior(l)) == {current}
      requires Stocked(first, operations, l, shelf) && shelf.loads == memoryOps && shelf.complete == shelf.compute == []
      requires memoryOps == [] <==> !it.Loading(l)
      requires Open <= base + Elements(memoryOps) + Elements(shelf.writes)
      requires Said(first, operations, it.Memory(l) + Choice(it.layers[l].moe, Routing(l)) + it.ExpertLoads(l))
      modifies this`operations, this`Open
      ensures Valid() && Proper(operations, it) && Grown(old(operations), operations) && |operations| > |old(operations)|
      ensures compute < |operations| && Emitted(first, operations, l, compute, shelf.writes)
      ensures Open <= base + Elements(shelf.writes) + {compute}
      ensures Said(first, operations, it.OneLayer(l))
    {
      hide Compiler.Valid, Proper, Grown, Said, Vacant, Stocked, Emitted, Ids, Adds, Iteration.Memory, Iteration.ExpertLoads, Iteration.Loading;
      ghost var now, roles := operations, it.Memory(l) + Choice(it.layers[l].moe, Routing(l)) + it.ExpertLoads(l);
      StockedMeans(first, now, l, shelf);
      RootKept(first, now, it, l, shelf);
      var complete := EmitJoin(l, root, memoryOps, it);
      SaidMore(first, now, operations, roles, [MemoryComplete(l)]);
      Completed(first, now, operations, it, l, shelf, complete);
      ghost var late := operations;
      compute := EmitCompute(l, complete, current, it);
      SaidMore(first, late, operations, roles + [MemoryComplete(l)], [Compute(l)]);
      LayerEmitted(first, late, operations, l, shelf.(complete := [complete]), compute);
      GrownMore(now, late, operations);
    }

    method EmitJoin(l: nat, root: nat, memoryOps: seq<nat>, ghost it: Iteration) returns (complete: nat)
      requires Valid() && Proper(operations, it) && l < |it.layers|
      requires root < |operations| && forall k :: 0 <= k < |memoryOps| ==> memoryOps[k] < |operations|
      requires memoryOps == [] <==> !it.Loading(l)
      requires Ids(operations, it.Root(l)) == {root} && Ids(operations, Loads(l)) == Elements(memoryOps)
      modifies this`operations, this`Open
      ensures Valid() && Proper(operations, it) && Grown(old(operations), operations) && complete == |old(operations)| < |operations|
      ensures Open <= (old(Open) - Elements(memoryOps)) + {complete}
      ensures Said(old(operations), operations, [MemoryComplete(l)]) && Adds(old(operations), operations, {Joins(l)}, [complete])
    {
      hide Compiler.Valid, Proper, Grown, Said, Ids, Adds, Due, Iteration.Loading, Iteration.Root;
      var needed := if memoryOps == [] then [root] else memoryOps;
      assert Elements([root]) == {root};
      DueOne(operations, it, MemoryComplete(l), if memoryOps == [] then it.Root(l) else Loads(l), needed);
      complete := EmitQuiet(MemoryComplete(l), needed, it);
    }

    method EmitCompute(l: nat, complete: nat, current: nat, ghost it: Iteration) returns (compute: nat)
      requires Valid() && Proper(operations, it) && complete < |operations| && current < |operations|
      requires Ids(operations, Joins(l)) == {complete} && Ids(operations, it.Prior(l)) == {current}
      modifies this`operations, this`Open
      ensures Valid() && Proper(operations, it) && Grown(old(operations), operations) && compute == |old(operations)| < |operations|
      ensures Open <= (old(Open) - {complete}) + {compute}
      ensures Said(old(operations), operations, [Compute(l)]) && Adds(old(operations), operations, {Computes(l)}, [compute])
    {
      hide Compiler.Valid, Proper, Grown, Said, Ids, Adds, Due;
      assert Elements([complete]) == {complete};
      assert Elements([current]) == {current};
      if l > 0 {
        DueTwo(operations, it, Compute(l), Joins(l), [complete], it.Prior(l), [current]);
        assert [complete] + [current] == [complete, current];
      } else {
        DueOne(operations, it, Compute(l), Joins(l), [complete]);
      }
      compute := EmitQuiet(Compute(l), if l > 0 then [complete, current] else [complete], it);
    }

    /** Dense weights, the appended tokens, and the context reads. */
    method EmitMemory(rows: seq<Row>, layer: Layer, l: nat, root: nat, current: nat, ghost it: Iteration)
      returns (memoryOps: seq<nat>, writes: seq<nat>)
      requires Valid() && rows != [] && root < |operations| && current < |operations| && Proper(operations, it)
      requires it.rows == rows && l < |it.layers| && it.layers[l] == layer && Vacant(operations, l)
      requires Ids(operations, it.Root(l)) == {root} && Ids(operations, it.Prior(l)) == {current}
      requires Writing == Reading == l
      modifies this
      ensures Writing == Reading == l + 1
      ensures Valid() && Proper(operations, it) && Grown(old(operations), operations) && |operations| >= |old(operations)|
      ensures forall k :: 0 <= k < |memoryOps| ==> memoryOps[k] < |operations|
      ensures forall k :: 0 <= k < |writes| ==> writes[k] < |operations|
      ensures Open <= (old(Open) - {current}) + Elements(memoryOps) + Elements(writes)
      ensures memoryOps == [] <==> !(layer.attention || layer.ffn || layer.router || AnyContext(rows))
      ensures Said(old(operations), operations, it.Memory(l))
      ensures Stocked(old(operations), operations, l, Shelf(memoryOps, writes, [], [], []))
    {
      hide Compiler.Valid, Proper, Grown, Said, WriteRoles, ReadRoles, Ids, Adds, GroupsOf, Vacant, Stocked, AnyContext, Iteration.Root, Iteration.Prior;
      ghost var first, roles := operations, Choice(layer.attention, Weights(Attention, l)) + WriteRoles(|rows|, l) + ReadRoles(rows, l);
      memoryOps, writes := EmitAttention(rows, layer, l, root, current, it);
      ghost var now, shelf := operations, Shelf(memoryOps, writes, [], [], []);
      RootKept(first, now, it, l, shelf);
      var more := EmitWeights(layer.ffn, Ffn, l, root, it);
      GrownMore(first, now, operations);
      SaidMore(first, now, operations, roles, Choice(layer.ffn, Weights(Ffn, l)));
      StockedLoads(first, now, operations, l, shelf, more);
      memoryOps := Joined(memoryOps, more);
      now, shelf := operations, Shelf(memoryOps, writes, [], [], []);
      RootKept(first, now, it, l, shelf);
      more := EmitWeights(layer.router, Router, l, root, it);
      GrownMore(first, now, operations);
      SaidMore(first, now, operations, roles + Choice(layer.ffn, Weights(Ffn, l)), Choice(layer.router, Weights(Router, l)));
      StockedLoads(first, now, operations, l, shelf, more);
      memoryOps := Joined(memoryOps, more);
    }

    /** The weights of the attention, the appended tokens, and the context reads. */
    method EmitAttention(rows: seq<Row>, layer: Layer, l: nat, root: nat, current: nat, ghost it: Iteration)
      returns (memoryOps: seq<nat>, writes: seq<nat>)
      requires Valid() && rows != [] && root < |operations| && current < |operations| && Proper(operations, it)
      requires it.rows == rows && l < |it.layers| && it.layers[l] == layer && Vacant(operations, l)
      requires Ids(operations, it.Root(l)) == {root} && Ids(operations, it.Prior(l)) == {current}
      requires Writing == Reading == l
      modifies this
      ensures Writing == Reading == l + 1
      ensures Valid() && Proper(operations, it) && Grown(old(operations), operations) && |operations| >= |old(operations)|
      ensures forall k :: 0 <= k < |memoryOps| ==> memoryOps[k] < |operations|
      ensures forall k :: 0 <= k < |writes| ==> writes[k] < |operations|
      ensures Open <= (old(Open) - {current}) + Elements(memoryOps) + Elements(writes)
      ensures memoryOps == [] <==> !(layer.attention || AnyContext(rows))
      ensures Said(old(operations), operations, Choice(layer.attention, Weights(Attention, l)) + WriteRoles(|rows|, l) + ReadRoles(rows, l))
      ensures Stocked(old(operations), operations, l, Shelf(memoryOps, writes, [], [], []))
    {
      hide Compiler.Valid, Proper, Grown, Said, WriteRoles, ReadRoles, Choice, Ids, Adds, GroupsOf, Vacant, Stocked, AnyContext, AllListed,
        Shelf.At, Iteration.Root, Iteration.Prior;
      ghost var first, roles := operations, Choice(layer.attention, Weights(Attention, l));
      StockedNone(first, l);
      memoryOps := EmitWeights(layer.attention, Attention, l, root, it);
      GrownSize(first, operations);
      StockedLoads(first, first, operations, l, Shelf([], [], [], [], []), memoryOps);
      assert [] + memoryOps == memoryOps;
      ghost var now, shelf := operations, Shelf(memoryOps, [], [], [], []);
      RootKept(first, now, it, l, shelf);
      writes := EmitWrites(rows, l, current, it);
      GrownMore(first, now, operations);
      SaidMore(first, now, operations, roles, WriteRoles(|rows|, l));
      Appended(first, now, operations, it, l, shelf, writes);
      now, shelf := operations, shelf.(writes := writes);
      var more := EmitReads(rows, l, root, writes, it);
      GrownMore(first, now, operations);
      SaidMore(first, now, operations, roles + WriteRoles(|rows|, l), ReadRoles(rows, l));
      StockedLoads(first, now, operations, l, shelf, more);
      memoryOps := Joined(memoryOps, more);
    }

    /** The weights that wait for the routing decision, and the shared expert's. */
    method EmitExpertLoads(layer: Layer, l: nat, root: nat, routing: nat, loaded: seq<nat>, ghost base: set<nat>, ghost it: Iteration,
                           ghost first: seq<Operation>, ghost shelf: Shelf)
      returns (memoryOps: seq<nat>, ghost next: Shelf)
      requires Valid() && Proper(operations, it) && root < |operations| && routing < |operations| && (layer.moe ==> layer.experts > 0)
      requires l < |it.layers| && it.layers[l] == layer && Vacant(first, l) && Ids(first, it.Root(l)) == {root}
      requires Stocked(first, operations, l, shelf) && shelf.loads == loaded && (layer.moe ==> shelf.routing == [routing])
      requires forall k :: 0 <= k < |loaded| ==> loaded[k] < |operations|
      requires Open <= base + Elements(loaded) + Elements(shelf.writes) + (if layer.moe then {routing} else {})
      modifies this`operations, this`Open
      ensures Valid() && Proper(operations, it) && Grown(old(operations), operations) && |operations| >= |old(operations)|
      ensures forall k :: 0 <= k < |memoryOps| ==> memoryOps[k] < |operations|
      ensures Open <= base + Elements(memoryOps) + Elements(shelf.writes)
      ensures memoryOps == [] <==> loaded == [] && !layer.shared && !layer.moe
      ensures next == shelf.(loads := memoryOps) && Stocked(first, operations, l, next)
      ensures Said(old(operations), operations, it.ExpertLoads(l))
    {
      hide Compiler.Valid, Proper, Grown, Said, Ids, Adds, GroupsOf, Vacant, Stocked, Choice, Iteration.Root;
      ghost var begin := operations;
      RootKept(first, begin, it, l, shelf);
      var more := EmitWeights(layer.shared, Shared, l, root, it);
      GrownSize(begin, operations);
      StockedLoads(first, begin, operations, l, shelf, more);
      memoryOps := Joined(loaded, more);
      next := shelf.(loads := memoryOps);
      ghost var now := operations;
      if layer.moe {
        StockedMeans(first, now, l, next);
        assert Elements([routing]) == {routing};
        more := EmitExperts(l, layer.experts, routing, it);
        GrownMore(begin, now, operations);
        StockedLoads(first, now, operations, l, next, more);
        SaidMore(begin, now, operations, Choice(layer.shared, Weights(Shared, l)), Repeat(Expert(l), layer.experts));
        memoryOps := Joined(memoryOps, more);
        next := shelf.(loads := memoryOps);
      } else {
        SaidNone(now);
        SaidMore(begin, now, now, Choice(layer.shared, Weights(Shared, l)), Repeat(Expert(l), 0));
      }
    }

    /** An operation that is no context read disturbs nothing. */
    method EmitQuiet(role: Role, dependencies: seq<nat>, ghost it: Iteration) returns (id: nat)
      requires Valid() && !role.KvRead? && dependencies != [] && Proper(operations, it)
      requires forall k :: 0 <= k < |dependencies| ==> dependencies[k] < |operations|
      requires Due(operations, it, role, dependencies)
      requires role.KvWrite? ==> Reading <= role.layer < Writing
      modifies this`operations, this`Open
      ensures Valid() && Proper(operations, it) && id == |old(operations)|
      ensures operations == old(operations) + [Operation(role, dependencies)] && Grown(old(operations), operations)
      ensures Open == (old(Open) - Elements(dependencies)) + {id}
      ensures Said(old(operations), operations, [role]) && Adds(old(operations), operations, GroupsOf(role), [id])
    {
      hide OpenEnds, Said, Adds, GroupsOf, Due;
      id := Emit(role, dependencies);
      StillProper(old(operations), role, dependencies, Writing, Reading, it);
    }

    method EmitWeights(present: bool, part: Part, l: nat, root: nat, ghost it: Iteration) returns (ids: seq<nat>)
      requires Valid() && root < |operations| && Proper(operations, it) && Ids(operations, it.Root(l)) == {root}
      modifies this`operations, this`Open
      ensures Valid() && Proper(operations, it) && Grown(old(operations), operations)
      ensures (forall k :: 0 <= k < |ids| ==> ids[k] < |operations|) && Open <= old(Open) + Elements(ids)
      ensures (ids == [] <==> !present) && Adds(old(operations), operations, {Loads(l)}, ids)
      ensures Said(old(operations), operations, Choice(present, Weights(part, l)))
    {
      hide Said, Adds, Ids, Due, Proper, OpenEnds;
      ids := [];
      if present {
        assert Elements([root]) == {root};
        DueOne(operations, it, Weights(part, l), it.Root(l), [root]);
        var id := EmitQuiet(Weights(part, l), [root], it);
        ids := [id];
      } else {
        GrownSelf(operations);
        AddsNone(operations, {Loads(l)});
        SaidNone(operations);
      }
    }

    method EmitExperts(l: nat, experts: nat, routing: nat, ghost it: Iteration) returns (ids: seq<nat>)
      requires Valid() && routing < |operations| && experts > 0 && Proper(operations, it) && Ids(operations, Routings(l)) == {routing}
      modifies this`operations, this`Open
      ensures Valid() && Proper(operations, it) && Grown(old(operations), operations)
      ensures (forall k :: 0 <= k < |ids| ==> ids[k] < |operations|) && Open <= (old(Open) - {routing}) + Elements(ids)
      ensures ids != [] && Adds(old(operations), operations, {Loads(l)}, ids)
      ensures Said(old(operations), operations, Repeat(Expert(l), experts))
    {
      GrownSelf(operations);
      AddsNone(operations, {Loads(l)});
      SaidNone(operations);
      hide Compiler.Valid, Proper, Said, Adds, Ids, Due, Grown;
      ids := [];
      for n := 0 to experts
        invariant Valid() && Proper(operations, it) && Grown(old(operations), operations)
        invariant Adds(old(operations), operations, {Loads(l)}, ids) && Said(old(operations), operations, Repeat(Expert(l), n))
        invariant |ids| == n && forall k :: 0 <= k < |ids| ==> ids[k] < |operations|
        invariant Open <= (if n == 0 then old(Open) else old(Open) - {routing}) + Elements(ids) && |old(operations)| <= |operations|
      {
        ghost var before := operations;
        AddsKeep(old(operations), before, {Loads(l)}, ids, Routings(l));
        assert Elements([routing]) == {routing};
        DueOne(before, it, Expert(l), Routings(l), [routing]);
        var id := EmitQuiet(Expert(l), [routing], it);
        GrownMore(old(operations), before, operations);
        AddsMore(old(operations), before, operations, {Loads(l)}, ids, [id]);
        SaidMore(old(operations), before, operations, Repeat(Expert(l), n), [Expert(l)]);
        ids := Joined(ids, [id]);
      }
    }

    /** The appended tokens of every row, behind the previous layer's compute. */
    method EmitWrites(rows: seq<Row>, l: nat, current: nat, ghost it: Iteration) returns (ids: seq<nat>)
      requires Valid() && rows != [] && rows == it.rows && current < |operations| && Proper(operations, it)
      requires Ids(operations, it.Prior(l)) == {current}
      requires Writing == Reading == l
      modifies this
      ensures Writing == l + 1 && Reading == l && AllListed(operations, ids, l)
      ensures Valid() && Proper(operations, it) && Grown(old(operations), operations)
      ensures |ids| == |rows| && forall r :: 0 <= r < |ids| ==> ids[r] < |operations| && operations[ids[r]].role == KvWrite(r, l)
      ensures Open <= (old(Open) - {current}) + Elements(ids)
      ensures Adds(old(operations), operations, {Appends(l), AllAppends}, ids)
      ensures Said(old(operations), operations, WriteRoles(|rows|, l))
    {
      hide Compiler.Valid, Proper, AllListed, Said, Adds, Ids, WriteRoles, AppendIds, Grown;
      AddsNone(operations, {Appends(l), AllAppends});
      SaidNone(operations);
      NoAppendIds(operations, l);
      WriteRolesNext(0, l);
      BeginWrites(l);
      ids := [];
      for r := 0 to |rows|
        invariant Valid() && Proper(operations, it) && Grown(old(operations), operations)
        invariant Said(old(operations), operations, WriteRoles(r, l)) && Adds(old(operations), operations, {Appends(l), AllAppends}, ids)
        invariant Writing == l + 1 && Reading == l && AllListed(operations, ids, l) && current < |operations|
        invariant |ids| == r && AppendIds(operations, ids, |old(operations)|, l)
        invariant Open <= (if r == 0 then old(Open) else old(Open) - {current}) + Elements(ids)
      {
        var id := EmitWrite(r, l, current, ids, old(operations), it);
        ids := Joined(ids, [id]);
      }
      AppendIdsMean(operations, ids, |old(operations)|, l);
    }

    ghost method BeginWrites(l: nat)
      requires Valid() && Writing == Reading == l
      modifies this`Writing
      ensures Valid() && Writing == l + 1 && AllListed(operations, [], l)
    {
      NoneListed(operations, l, Reading);
      Writing := l + 1;
      LayeredMore(operations, l, l);
      hide OpenEnds, Layered, AllListed;
    }

    ghost method BeginReads(l: nat)
      requires Valid() && Writing == l + 1 && Reading == l
      modifies this`Reading
      ensures Valid() && Reading == l + 1
    {
      hide OpenEnds, Layered;
      Reading := l + 1;
      LayeredMore(operations, l + 1, l);
    }

    /** One append. */
    method EmitWrite(r: nat, l: nat, current: nat, ghost ids: seq<nat>, ghost first: seq<Operation>, ghost it: Iteration) returns (id: nat)
      requires Valid() && current < |operations| && Proper(operations, it) && Ids(first, it.Prior(l)) == {current}
      requires Writing == l + 1 && Reading == l && AllListed(operations, ids, l) && |ids| == r && Grown(first, operations)
      requires AppendIds(operations, ids, |first|, l)
      requires Adds(first, operations, {Appends(l), AllAppends}, ids) && Said(first, operations, WriteRoles(r, l))
      modifies this`operations, this`Open
      ensures Valid() && Proper(operations, it) && Grown(first, operations) && |operations| > |old(operations)|
      ensures AllListed(operations, ids + [id], l) && AppendIds(operations, ids + [id], |first|, l)
      ensures Open == (old(Open) - {current}) + {id}
      ensures Adds(first, operations, {Appends(l), AllAppends}, ids + [id]) && Said(first, operations, WriteRoles(r + 1, l))
    {
      hide Compiler.Valid, Proper, AllListed, Said, Adds, Ids, Due, AppendIds, Grown, WriteRoles;
      ghost var before := operations;
      GrownSize(first, before);
      AddsKeep(first, before, {Appends(l), AllAppends}, ids, it.Prior(l));
      assert Elements([current]) == {current};
      DueOne(before, it, KvWrite(r, l), it.Prior(l), [current]);
      id := EmitQuiet(KvWrite(r, l), [current], it);
      OneListed(before, Operation(KvWrite(r, l), [current]), ids, l);
      OneAppendId(before, Operation(KvWrite(r, l), [current]), ids, |first|, l);
      GrownMore(first, before, operations);
      AddsMore(first, before, operations, {Appends(l), AllAppends}, ids, [id]);
      SaidMore(first, before, operations, WriteRoles(r, l), [KvWrite(r, l)]);
      WriteRolesNext(r, l);
    }

    /** Context reads wait for all writes of the layer. */
    method EmitReads(rows: seq<Row>, l: nat, root: nat, writes: seq<nat>, ghost it: Iteration) returns (ids: seq<nat>)
      requires Valid() && root < |operations| && |writes| == |rows| && rows == it.rows && Proper(operations, it)
      requires AppendsOf(operations, writes, l) && Writing == l + 1 && Reading == l && AllListed(operations, writes, l)
      requires Ids(operations, it.Root(l)) == {root} && Ids(operations, Appends(l)) == Elements(writes)
      modifies this
      ensures Writing == Reading == l + 1
      ensures Valid() && Proper(operations, it) && Grown(old(operations), operations)
      ensures (forall k :: 0 <= k < |ids| ==> ids[k] < |operations|) && Open <= old(Open) + Elements(ids)
      ensures (ids == [] <==> !AnyContext(rows)) && Adds(old(operations), operations, {Loads(l)}, ids)
      ensures Said(old(operations), operations, ReadRoles(rows, l))
    {
      hide Compiler.Valid, Proper, AllListed, Said, Adds, Ids, ReadRoles, AppendsOf, Grown, AnyContext;
      AddsNone(operations, {Loads(l)});
      SaidNone(operations);
      BeginReads(l);
      NoReads(rows, l);
      ids := [];
      GrownSelf(operations);
      for r := 0 to |rows|
        invariant Said(old(operations), operations, ReadRoles(rows[..r], l)) && AppendsOf(operations, writes, l)
        invariant Valid() && Proper(operations, it) && Grown(old(operations), operations)
        invariant Writing == Reading == l + 1 && AllListed(operations, writes, l)
        invariant Adds(old(operations), operations, {Loads(l)}, ids)
        invariant ids == [] <==> !AnyContext(rows[..r])
        invariant forall k :: 0 <= k < |ids| ==> ids[k] < |operations|
        invariant Open <= old(Open) + Elements(ids)
      {
        ghost var before := operations;
        ReadRolesNext(rows, r, l);
        AnyContextNext(rows, r);
        if rows[r].context > 0 {
          GrownSize(old(operations), before);
          AddsKeep(old(operations), before, {Loads(l)}, ids, it.Root(l));
          AddsKeep(old(operations), before, {Loads(l)}, ids, Appends(l));
          var id := EmitRead(r, l, root, writes, it);
          GrownMore(old(operations), before, operations);
          AddsMore(old(operations), before, operations, {Loads(l)}, ids, [id]);
          SaidMore(old(operations), before, operations, ReadRoles(rows[..r], l), [KvRead(r, l)]);
          ids := Joined(ids, [id]);
        } else {
          assert ReadRoles(rows[..r], l) + [] == ReadRoles(rows[..r], l);
        }
      }
      assert rows[..|rows|] == rows;
    }

    /** One context read. */
    method EmitRead(r: nat, l: nat, root: nat, writes: seq<nat>, ghost it: Iteration) returns (id: nat)
      requires Valid() && root < |operations| && Proper(operations, it) && |writes| == |it.rows| && r < |it.rows|
      requires Writing == Reading == l + 1 && AllListed(operations, writes, l) && AppendsOf(operations, writes, l)
      requires Ids(operations, it.Root(l)) == {root} && Ids(operations, Appends(l)) == Elements(writes)
      modifies this
      ensures Valid() && Proper(operations, it) && AllListed(operations, writes, l) && AppendsOf(operations, writes, l)
      ensures Writing == Reading == l + 1 && id == |old(operations)| < |operations| && Open <= old(Open) + {id}
      ensures Grown(old(operations), operations) && Said(old(operations), operations, [KvRead(r, l)])
      ensures Adds(old(operations), operations, {Loads(l)}, [id])
    {
      hide Compiler.Valid, Proper, AllListed, Said, Adds, Ids, Due;
      ghost var before := operations;
      assert Elements([root]) == {root};
      DueTwo(operations, it, KvRead(r, l), it.Root(l), [root], Appends(l), writes);
      id := Emit(KvRead(r, l), [root] + writes);
      ReadProper(before, Operation(KvRead(r, l), [root] + writes), l, writes, it);
      StillListed(before, Operation(KvRead(r, l), [root] + writes), writes, l);
    }

    /** The whole iteration.  Its operations are those of the rows and the layers, in their order; each
        waits for exactly those it needs.  The graph is topologically ordered, every operation precedes
        the completion barrier, every context read waits for the appends of its layer, and each row
        appends to each layer once and reads its context, if it has one, once. */
    method Compile(rows: seq<Row>, layers: seq<Layer>, prefetchDepth: nat, emitsOutput: bool)
      requires Valid() && operations == [] && Open == {} && Writing == Reading == 0 && Runnable(rows, layers)
      modifies this
      ensures operations != [] && operations[|operations| - 1].role == Complete && Topological(GraphOf(operations))
      ensures AllPrecede(GraphOf(operations), |operations| - 1)
      ensures WritesFirst(operations, |rows|) && Rooted(operations)
      ensures RolesOf(operations) == Iteration(rows, layers, prefetchDepth, emitsOutput).Roles()
      ensures Precise(operations, Iteration(rows, layers, prefetchDepth, emitsOutput))
      ensures KvRoles(operations) == LayerRoles(rows, |layers|)
    {
      ghost var it := Iteration(rows, layers, prefetchDepth, emitsOutput);
      hide Compiler.Valid, Proper, WritesFirst, Rooted, AllPrecede, Topological, Said, Emitted, Ids, Vacant, Precise, LayerRoles,
        Iteration.OneLayer, KvRoles;
      var embedded := EmitEmbedding(rows, it);
      var computes: seq<nat>, kvWrites: seq<nat> := [], [];
      var current: nat := embedded;
      for l := 0 to |layers|
        invariant Valid() && Proper(operations, it) && current < |operations| && embedded < |operations|
        invariant Writing == Reading == l
        invariant |computes| == l && (forall k :: 0 <= k < l ==> computes[k] < |operations|)
        invariant forall k :: 0 <= k < |kvWrites| ==> kvWrites[k] < |operations|
        invariant Open <= Elements(kvWrites) + {current}
        invariant current == if l > 0 then computes[l - 1] else embedded
        invariant Reached(operations, l, embedded, computes, kvWrites) && Said([], operations, it.Upto(l))
      {
        var root: nat := if l >= 1 + prefetchDepth then computes[l - 1 - prefetchDepth] else embedded;
        ghost var before := operations;
        ReachedMeans(operations, it, l, embedded, computes, kvWrites, root, current);
        var compute, writes := EmitLayer(rows, layers[l], l, root, current, it);
        SaidMore([], before, operations, it.Upto(l), it.OneLayer(l));
        ReachedNext(before, operations, l, embedded, computes, kvWrites, compute, writes);
        kvWrites := Joined(kvWrites, writes);
        computes := computes + [compute];
        current := compute;
      }
      ReachedEnd(operations, it, |layers|, embedded, computes, kvWrites, current);
      ghost var before := operations;
      EmitTail(emitsOutput, current, kvWrites, it);
      SaidMore([], before, operations, it.Upto(|layers|), [FinalNorm] + Choice(emitsOutput, Head) + [Tail] + [Complete]);
      AllSaid(operations, it);
      RolesKv(operations, it);
    }

    /** Final norm and output head, and the barrier behind everything. */
    method EmitTail(emitsOutput: bool, current: nat, kvWrites: seq<nat>, ghost it: Iteration)
      requires Valid() && Proper(operations, it) && current < |operations| && Open <= Elements(kvWrites) + {current}
      requires forall k :: 0 <= k < |kvWrites| ==> kvWrites[k] < |operations|
      requires it.emits == emitsOutput && Finishing(operations, it, current, kvWrites)
      modifies this`operations, this`Open
      ensures operations != [] && operations[|operations| - 1].role == Complete && Topological(GraphOf(operations))
      ensures AllPrecede(GraphOf(operations), |operations| - 1)
      ensures WritesFirst(operations, |it.rows|) && Rooted(operations) && Precise(operations, it)
      ensures Said(old(operations), operations, [FinalNorm] + Choice(emitsOutput, Head) + [Tail] + [Complete])
    {
      hide Compiler.Valid, Proper, WritesFirst, Rooted, AllPrecede, Topological, Said, Ids, Adds, Due, Precise;
      ghost var first := operations;
      var tail := EmitHead(emitsOutput, current, kvWrites, it);
      ghost var now := operations;
      assert Elements([tail]) == {tail};
      DueOne(now, it, Tail, if emitsOutput then Heads else Norms, [tail]);
      var tailCompute := EmitQuiet(Tail, [tail], it);
      SaidMore(first, now, operations, [FinalNorm] + Choice(emitsOutput, Head), [Tail]);
      TailEmitted(now, operations, kvWrites, tailCompute);
      now := operations;
      EmitComplete(tailCompute, kvWrites, it);
      SaidMore(first, now, operations, [FinalNorm] + Choice(emitsOutput, Head) + [Tail], [Complete]);
    }

    method EmitComplete(tail: nat, kvWrites: seq<nat>, ghost it: Iteration)
      requires Valid() && Proper(operations, it) && tail < |operations| && Open <= Elements(kvWrites) + {tail}
      requires forall k :: 0 <= k < |kvWrites| ==> kvWrites[k] < |operations|
      requires Ids(operations, Tails) == {tail} && Ids(operations, AllAppends) == Elements(kvWrites)
      modifies this`operations, this`Open
      ensures operations != [] && operations[|operations| - 1].role == Complete && Topological(GraphOf(operations))
      ensures AllPrecede(GraphOf(operations), |operations| - 1)
      ensures WritesFirst(operations, |it.rows|) && Rooted(operations) && Precise(operations, it)
      ensures Said(old(operations), operations, [Complete])
    {
      hide OpenEnds, Proper, Layered, WritesFirst, Rooted, AllPrecede, Topological, Said, Ids, Due, Precise, Adds, GroupsOf;
      assert Elements([tail]) == {tail};
      DueTwo(operations, it, Complete, Tails, [tail], AllAppends, kvWrites);
      var complete := EmitQuiet(Complete, [tail] + kvWrites, it);
      assert Open <= {complete};
      Ends(GraphOf(operations), Open);
      ProperMeans(operations, it);
    }

    method EmitHead(emitsOutput: bool, current: nat, ghost kvWrites: seq<nat>, ghost it: Iteration) returns (tail: nat)
      requires Valid() && Proper(operations, it) && current < |operations|
      requires it.emits == emitsOutput && Finishing(operations, it, current, kvWrites)
      modifies this`operations, this`Open
      ensures Valid() && Proper(operations, it) && tail < |operations| && |operations| > |old(operations)|
      ensures Open <= (old(Open) - {current}) + {tail}
      ensures Ids(operations, if emitsOutput then Heads else Norms) == {tail}
      ensures Ids(operations, AllAppends) == Elements(kvWrites) && Ids(operations, Tails) == {}
      ensures Said(old(operations), operations, [FinalNorm] + Choice(emitsOutput, Head))
    {
      hide Compiler.Valid, Proper, Said, Ids, Adds, Due, Grown;
      ghost var first := operations;
      assert Elements([current]) == {current};
      DueOne(operations, it, FinalNorm, it.Prior(|it.layers|), [current]);
      tail := EmitQuiet(FinalNorm, [current], it);
      ghost var now := operations;
      NormEmitted(first, now, it, current, kvWrites, tail);
      if emitsOutput {
        assert Elements([tail]) == {tail};
        DueOne(now, it, Head, Norms, [tail]);
        tail := EmitQuiet(Head, [tail], it);
        HeadEmitted(now, operations, kvWrites, tail);
        SaidMore(first, now, operations, [FinalNorm], [Head]);
      } else {
        assert [FinalNorm] + [] == [FinalNorm];
      }
    }

    /** The batch starts, and every new token's embedding row is gathered. */
    method EmitEmbedding(rows: seq<Row>, ghost it: Iteration) returns (embedded: nat)
      requires Valid() && operations == [] && Open == {} && rows != [] && rows == it.rows && forall r :: 0 <= r < |rows| ==> rows[r].tokens > 0
      modifies this`operations, this`Open
      ensures Valid() && Proper(operations, it) && embedded < |operations| && Open == {embedded}
      ensures Said([], operations, it.Upto(0)) && Reached(operations, 0, embedded, [], [])
    {
      hide Compiler.Valid, Proper, Said, Ids, Adds, Due, GatherRoles, Repeat;
      var start := Emit(Start, []);
      OnlyStart(operations, it);
      ghost var begin := operations;
      assert begin == [Operation(Start, [])];
      AddsNone(begin, {Gathers});
      assert [Start] + GatherRoles(rows[..0]) == [Start] by {
        NoGathers(rows);
      }
      var gathered: seq<nat> := [];
      for r := 0 to |rows|
        invariant Valid() && Proper(operations, it) && start < |operations|
        invariant (r > 0 ==> gathered != []) && forall k :: 0 <= k < |gathered| ==> start < gathered[k] < |operations|
        invariant Open == (if r == 0 then {start} else {}) + Elements(gathered)
        invariant Adds(begin, operations, {Gathers}, gathered) && Said([], operations, [Start] + GatherRoles(rows[..r]))
      {
        ghost var before := operations;
        OnlyStarted(begin, before, gathered, start);
        var more := EmitGather(rows[r].tokens, start, it);
        AddsMore(begin, before, operations, {Gathers}, gathered, more);
        SaidMore([], before, operations, [Start] + GatherRoles(rows[..r]), Repeat(Embedding, rows[r].tokens));
        GatherRolesNext(rows, r);
        assert ([Start] + GatherRoles(rows[..r])) + Repeat(Embedding, rows[r].tokens) == [Start] + GatherRoles(rows[..r + 1]);
        gathered := Joined(gathered, more);
      }
      assert rows[..|rows|] == rows;
      ghost var before := operations;
      OnlyStarted(begin, before, gathered, start);
      DueOne(before, it, Embedded, Gathers, gathered);
      embedded := EmitQuiet(Embedded, gathered, it);
      SaidMore([], before, operations, [Start] + GatherRoles(rows), [Embedded]);
      NothingYet(begin, before, operations, gathered, embedded);
    }

    method EmitGather(tokens: nat, start: nat, ghost it: Iteration) returns (ids: seq<nat>)
      requires Valid() && start < |operations| && tokens > 0 && Proper(operations, it) && Ids(operations, Starts) == {start}
      modifies this`operations, this`Open
      ensures Valid() && Proper(operations, it) && |operations| > |old(operations)|
      ensures ids != [] && forall k :: 0 <= k < |ids| ==> |old(operations)| <= ids[k] < |operations|
      ensures Open == (old(Open) - {start}) + Elements(ids)
      ensures Adds(old(operations), operations, {Gathers}, ids) && Said(old(operations), operations, Repeat(Embedding, tokens))
    {
      AddsNone(operations, {Gathers});
      SaidNone(operations);
      hide Compiler.Valid, Proper, Said, Adds, Ids, Due;
      ids := [];
      for n := 0 to tokens
        invariant Valid() && Proper(operations, it) && |operations| == |old(operations)| + n && |ids| == n
        invariant forall k :: 0 <= k < |ids| ==> |old(operations)| <= ids[k] < |operations|
        invariant Open == (if n == 0 then old(Open) else old(Open) - {start}) + Elements(ids)
        invariant Adds(old(operations), operations, {Gathers}, ids) && Said(old(operations), operations, Repeat(Embedding, n))
      {
        ghost var before := operations;
        AddsKeep(old(operations), before, {Gathers}, ids, Starts);
        assert Elements([start]) == {start};
        DueOne(before, it, Embedding, Starts, [start]);
        var id := EmitQuiet(Embedding, [start], it);
        AddsMore(old(operations), before, operations, {Gathers}, ids, [id]);
        SaidMore(old(operations), before, operations, Repeat(Embedding, n), [Embedding]);
        ids := Joined(ids, [id]);
      }
    }
  }

  function Joined(a: seq<nat>, b: seq<nat>): (joined: seq<nat>)
    ensures joined == a + b && Elements(joined) == Elements(a) + Elements(b)
  {
    a + b
  }

  ghost predicate Grown(before: seq<Operation>, after: seq<Operation>)
  {
    |before| <= |after| && after[..|before|] == before
  }

  lemma GrownSelf(a: seq<Operation>)
    ensures Grown(a, a)
  {
    assert a[..|a|] == a;
  }

  lemma GrownMore(a: seq<Operation>, b: seq<Operation>, c: seq<Operation>)
    requires Grown(a, b) && Grown(b, c)
    ensures Grown(a, c) && |a| <= |b| <= |c|
  {
    assert c[..|a|] == c[..|b|][..|a|];
  }

  lemma GrownSize(a: seq<Operation>, b: seq<Operation>)
    requires Grown(a, b)
    ensures |a| <= |b|
  {
  }

  /** Only the start has no dependencies. */
  ghost predicate Rooted(operations: seq<Operation>)
  {
    && operations != [] && operations[0] == Operation(Start, [])
    && forall i :: 0 < i < |operations| ==> operations[i].dependencies != []
  }

  ghost predicate Proper(operations: seq<Operation>, it: Iteration)
  {
    WritesFirst(operations, |it.rows|) && Rooted(operations) && Precise(operations, it)
  }

  lemma ProperMeans(operations: seq<Operation>, it: Iteration)
    requires Proper(operations, it)
    ensures WritesFirst(operations, |it.rows|) && Rooted(operations) && Precise(operations, it)
  {
  }

  lemma OnlyStart(operations: seq<Operation>, it: Iteration)
    requires operations == [Operation(Start, [])]
    ensures Proper(operations, it)
  {
  }

  lemma AddsKeep(before: seq<Operation>, after: seq<Operation>, groups: set<Group>, ids: seq<nat>, group: Group)
    requires Adds(before, after, groups, ids) && group !in groups
    ensures Ids(after, group) == Ids(before, group)
  {
  }

  /** What a layer waits for is there before it begins. */
  lemma RootKept(before: seq<Operation>, after: seq<Operation>, it: Iteration, l: nat, shelf: Shelf)
    requires Stocked(before, after, l, shelf)
    ensures Ids(after, it.Root(l)) == Ids(before, it.Root(l)) && Ids(after, it.Prior(l)) == Ids(before, it.Prior(l))
  {
    hide Ids;
  }

  lemma SaidChoice(before: seq<Operation>, after: seq<Operation>, roles: seq<Role>, role: Role)
    requires Said(before, after, roles)
    ensures Said(before, after, roles + Choice(false, role))
  {
    assert roles + [] == roles;
  }

  /** One layer is complete. */
  ghost predicate Emitted(before: seq<Operation>, after: seq<Operation>, l: nat, compute: nat, writes: seq<nat>)
  {
    && (Vacant(before, l) ==> Vacant(after, l + 1)) && Ids(after, Computes(l)) == {compute} && Ids(after, Embeds) == Ids(before, Embeds)
    && Ids(after, AllAppends) == Ids(before, AllAppends) + Elements(writes)
    && forall k: nat :: k < l ==> Ids(after, Computes(k)) == Ids(before, Computes(k))
  }

  lemma Appended(first: seq<Operation>, before: seq<Operation>, after: seq<Operation>, it: Iteration, l: nat, shelf: Shelf, writes: seq<nat>)
    requires Vacant(first, l) && Stocked(first, before, l, shelf) && shelf.writes == [] && Adds(before, after, {Appends(l), AllAppends}, writes)
    ensures Stocked(first, after, l, shelf.(writes := writes)) && Ids(after, Appends(l)) == Elements(writes)
    ensures Ids(after, it.Root(l)) == Ids(first, it.Root(l))
  {
    hide Ids, Vacant, Stocked;
    var next := shelf.(writes := writes);
    StockedMore(first, before, after, l, shelf, {Appends(l), AllAppends}, writes, next);
    StockedMeans(first, after, l, next);
    RootKept(first, after, it, l, next);
  }

  lemma Completed(first: seq<Operation>, before: seq<Operation>, after: seq<Operation>, it: Iteration, l: nat, shelf: Shelf, complete: nat)
    requires Vacant(first, l) && Stocked(first, before, l, shelf) && shelf.complete == [] && Adds(before, after, {Joins(l)}, [complete])
    ensures Stocked(first, after, l, shelf.(complete := [complete])) && Ids(after, Joins(l)) == {complete}
    ensures Ids(after, it.Prior(l)) == Ids(first, it.Prior(l))
  {
    hide Ids, Vacant, Stocked;
    var next := shelf.(complete := [complete]);
    StockedMore(first, before, after, l, shelf, {Joins(l)}, [complete], next);
    StockedMeans(first, after, l, next);
    RootKept(first, after, it, l, next);
    assert Elements([complete]) == {complete};
  }

  lemma LayerEmitted(first: seq<Operation>, before: seq<Operation>, after: seq<Operation>, l: nat, shelf: Shelf, compute: nat)
    requires Vacant(first, l) && Stocked(first, before, l, shelf) && shelf.compute == [] && Adds(before, after, {Computes(l)}, [compute])
    ensures Emitted(first, after, l, compute, shelf.writes)
  {
    hide Ids, Vacant, Stocked;
    var next := shelf.(compute := [compute]);
    StockedMore(first, before, after, l, shelf, {Computes(l)}, [compute], next);
    VacantNext(first, after, l, next);
    StockedMeans(first, after, l, next);
    assert Elements([compute]) == {compute};
  }

  /** The first layers are complete. */
  ghost predicate Reached(operations: seq<Operation>, l: nat, embedded: nat, computes: seq<nat>, writes: seq<nat>)
  {
    && Vacant(operations, l) && Ids(operations, Embeds) == {embedded} && Ids(operations, AllAppends) == Elements(writes)
    && |computes| == l && forall k: nat :: k < l ==> Ids(operations, Computes(k)) == {computes[k]}
  }

  lemma ReachedMeans(operations: seq<Operation>, it: Iteration, l: nat, embedded: nat, computes: seq<nat>, writes: seq<nat>,
                     root: nat, current: nat)
    requires Reached(operations, l, embedded, computes, writes) && current == (if l > 0 then computes[l - 1] else embedded)
    requires root == if l >= 1 + it.depth then computes[l - 1 - it.depth] else embedded
    ensures Vacant(operations, l) && Ids(operations, it.Root(l)) == {root} && Ids(operations, it.Prior(l)) == {current}
  {
    hide Ids, Vacant;
  }

  lemma ReachedNext(before: seq<Operation>, after: seq<Operation>, l: nat, embedded: nat, computes: seq<nat>, writes: seq<nat>,
                    compute: nat, more: seq<nat>)
    requires Reached(before, l, embedded, computes, writes) && Emitted(before, after, l, compute, more)
    ensures Reached(after, l + 1, embedded, computes + [compute], writes + more)
  {
    hide Ids, Vacant;
    assert Elements(writes + more) == Elements(writes) + Elements(more);
  }

  /** All layers are complete, and nothing of the end is there. */
  ghost predicate Finishing(operations: seq<Operation>, it: Iteration, current: nat, writes: seq<nat>)
  {
    && Ids(operations, it.Prior(|it.layers|)) == {current} && Ids(operations, AllAppends) == Elements(writes)
    && Ids(operations, Norms) == Ids(operations, Heads) == Ids(operations, Tails) == {}
  }

  lemma ReachedEnd(operations: seq<Operation>, it: Iteration, l: nat, embedded: nat, computes: seq<nat>, writes: seq<nat>, current: nat)
    requires Reached(operations, l, embedded, computes, writes) && current == (if l > 0 then computes[l - 1] else embedded)
    requires l == |it.layers|
    ensures Finishing(operations, it, current, writes)
  {
    hide Ids;
  }

  lemma NormEmitted(before: seq<Operation>, after: seq<Operation>, it: Iteration, current: nat, writes: seq<nat>, norm: nat)
    requires Finishing(before, it, current, writes) && Adds(before, after, {Norms}, [norm])
    ensures Ids(after, Norms) == {norm} && Ids(after, AllAppends) == Elements(writes) && Ids(after, Heads) == Ids(after, Tails) == {}
  {
    hide Ids;
    assert Elements([norm]) == {norm};
  }

  lemma HeadEmitted(before: seq<Operation>, after: seq<Operation>, writes: seq<nat>, head: nat)
    requires Ids(before, AllAppends) == Elements(writes) && Ids(before, Heads) == Ids(before, Tails) == {} && Adds(before, after, {Heads}, [head])
    ensures Ids(after, Heads) == {head} && Ids(after, AllAppends) == Elements(writes) && Ids(after, Tails) == {}
  {
    hide Ids;
    assert Elements([head]) == {head};
  }

  lemma TailEmitted(before: seq<Operation>, after: seq<Operation>, writes: seq<nat>, tail: nat)
    requires Ids(before, AllAppends) == Elements(writes) && Ids(before, Tails) == {} && Adds(before, after, {Tails}, [tail])
    ensures Ids(after, Tails) == {tail} && Ids(after, AllAppends) == Elements(writes)
  {
    hide Ids;
    assert Elements([tail]) == {tail};
  }

  lemma AllSaid(operations: seq<Operation>, it: Iteration)
    requires Said([], operations, it.Upto(|it.layers|) + ([FinalNorm] + Choice(it.emits, Head) + [Tail] + [Complete]))
    ensures RolesOf(operations) == it.Roles()
  {
    hide Iteration.Upto;
    assert RolesOf([]) == [];
  }

  lemma NoGathers(rows: seq<Row>)
    ensures GatherRoles(rows[..0]) == []
  {
  }

  lemma NoReads(rows: seq<Row>, l: nat)
    ensures ReadRoles(rows[..0], l) == [] && !AnyContext(rows[..0])
  {
  }

  lemma AnyContextNext(rows: seq<Row>, r: nat)
    requires r < |rows|
    ensures AnyContext(rows[..r + 1]) <==> AnyContext(rows[..r]) || rows[r].context > 0
  {
    if AnyContext(rows[..r]) {
      var k :| 0 <= k < r && rows[..r][k].context > 0;
      assert rows[..r + 1][k].context > 0;
    }
    if rows[r].context > 0 {
      assert rows[..r + 1][r].context > 0;
    }
  }

  /** The start is alone at first. */
  lemma OnlyStarted(begin: seq<Operation>, now: seq<Operation>, gathered: seq<nat>, start: nat)
    requires begin == [Operation(Start, [])] && start == 0 && Adds(begin, now, {Gathers}, gathered)
    ensures Ids(now, Starts) == {start} && Ids(now, Gathers) == Elements(gathered)
  {
    assert Ids(begin, Starts) == {0} && Ids(begin, Gathers) == {};
  }

  lemma NothingYet(begin: seq<Operation>, before: seq<Operation>, now: seq<Operation>, gathered: seq<nat>, embedded: nat)
    requires begin == [Operation(Start, [])] && Adds(begin, before, {Gathers}, gathered) && Adds(before, now, {Embeds}, [embedded])
    ensures Reached(now, 0, embedded, [], [])
  {
    assert Elements([embedded]) == {embedded};
    assert forall g: Group :: g != Starts ==> Ids(begin, g) == {};
    hide Ids;
    assert Ids(now, Embeds) == {embedded};
  }

  lemma StillWrites(before: seq<Operation>, more: seq<Operation>, listed: seq<nat>, layer: nat, rows: nat)
    requires Writes(before, listed, layer, rows)
    ensures Writes(before + more, listed, layer, rows)
  {
    var after := before + more;
    forall r: nat | r < rows ensures Writer(after, listed, r, layer) {
      assert Writer(before, listed, r, layer);
      var i: nat :| i in listed && i < |before| && before[i].role == KvWrite(r, layer);
      assert after[i] == before[i];
    }
  }

  lemma NoneListed(operations: seq<Operation>, l: nat, reading: nat)
    requires Layered(operations, l, reading)
    ensures AllListed(operations, [], l)
  {
  }

  lemma LayeredMore(operations: seq<Operation>, writing: nat, reading: nat)
    requires Layered(operations, writing, reading)
    ensures Layered(operations, writing + 1, reading) && Layered(operations, writing, reading + 1)
  {
  }

  /** The appends to a layer, one for each row so far. */
  ghost predicate AppendIds(operations: seq<Operation>, ids: seq<nat>, start: nat, layer: nat)
  {
    forall k: nat :: k < |ids| ==> start <= ids[k] < |operations| && operations[ids[k]].role == KvWrite(k, layer)
  }

  lemma NoAppendIds(operations: seq<Operation>, layer: nat)
    ensures AppendIds(operations, [], |operations|, layer) && Grown(operations, operations)
  {
    GrownSelf(operations);
  }

  lemma AppendIdsMean(operations: seq<Operation>, ids: seq<nat>, start: nat, layer: nat)
    requires AppendIds(operations, ids, start, layer)
    ensures forall r :: 0 <= r < |ids| ==> ids[r] < |operations| && operations[ids[r]].role == KvWrite(r, layer)
  {
  }

  lemma OneAppendId(before: seq<Operation>, operation: Operation, ids: seq<nat>, start: nat, layer: nat)
    requires AppendIds(before, ids, start, layer) && operation.role == KvWrite(|ids|, layer) && start <= |before|
    ensures AppendIds(before + [operation], ids + [|before|], start, layer)
  {
  }

  lemma OneListed(before: seq<Operation>, operation: Operation, listed: seq<nat>, layer: nat)
    requires AllListed(before, listed, layer)
    ensures AllListed(before + [operation], listed + [|before|], layer)
  {
  }

  /** Write r is the append of row r to the layer. */
  ghost predicate AppendsOf(operations: seq<Operation>, writes: seq<nat>, layer: nat)
  {
    forall r :: 0 <= r < |writes| ==> writes[r] < |operations| && operations[writes[r]].role == KvWrite(r, layer)
  }

  lemma StillListed(before: seq<Operation>, operation: Operation, listed: seq<nat>, layer: nat)
    requires AllListed(before, listed, layer) && (operation.role.KvWrite? ==> operation.role.layer != layer)
    ensures AllListed(before + [operation], listed, layer)
  {
  }

  lemma StillProper(before: seq<Operation>, role: Role, dependencies: seq<nat>, writing: nat, reading: nat, it: Iteration)
    requires Proper(before, it) && !role.KvRead? && dependencies != [] && Due(before, it, role, dependencies)
    requires Layered(before, writing, reading) && (role.KvWrite? ==> reading <= role.layer)
    ensures Proper(before + [Operation(role, dependencies)], it)
  {
    PrecisePush(before, it, role, dependencies);
    StillFirst(before, Operation(role, dependencies), writing, reading, |it.rows|);
  }

  lemma StillFirst(before: seq<Operation>, operation: Operation, writing: nat, reading: nat, rows: nat)
    requires WritesFirst(before, rows) && !operation.role.KvRead?
    requires Layered(before, writing, reading) && (operation.role.KvWrite? ==> reading <= operation.role.layer)
    ensures WritesFirst(before + [operation], rows)
  {
    hide Writes, AllListed;
    var after := before + [operation];
    forall j | 0 <= j < |after| && after[j].role.KvRead?
      ensures Writes(after, after[j].dependencies, after[j].role.layer, rows)
      ensures AllListed(after, after[j].dependencies, after[j].role.layer)
    {
      assert j < |before| && after[j] == before[j];
      StillWrites(before, [operation], before[j].dependencies, before[j].role.layer, rows);
      StillListed(before, operation, before[j].dependencies, before[j].role.layer);
    }
  }

  lemma ReadProper(before: seq<Operation>, operation: Operation, l: nat, writes: seq<nat>, it: Iteration)
    requires Proper(before, it) && operation.role.KvRead? && operation.role.layer == l && |writes| == |it.rows|
    requires Due(before, it, operation.role, operation.dependencies) && forall w :: w in writes ==> w in operation.dependencies
    requires AppendsOf(before, writes, l) && operation.dependencies != [] && AllListed(before, writes, l)
    ensures Proper(before + [operation], it)
  {
    PrecisePush(before, it, operation.role, operation.dependencies);
    ReadFirst(before, operation, l, writes, |it.rows|);
  }

  lemma ReadFirst(before: seq<Operation>, operation: Operation, l: nat, writes: seq<nat>, rows: nat)
    requires WritesFirst(before, rows) && operation.role.KvRead? && operation.role.layer == l && |writes| == rows
    requires forall w :: w in writes ==> w in operation.dependencies
    requires AppendsOf(before, writes, l) && AllListed(before, writes, l)
    ensures WritesFirst(before + [operation], rows)
  {
    var after := before + [operation];
    forall j | 0 <= j < |after| && after[j].role.KvRead?
      ensures Writes(after, after[j].dependencies, after[j].role.layer, rows)
      ensures AllListed(after, after[j].dependencies, after[j].role.layer)
    {
      if j < |before| {
        assert after[j] == before[j];
        StillWrites(before, [operation], before[j].dependencies, before[j].role.layer, rows);
        StillListed(before, operation, before[j].dependencies, before[j].role.layer);
      } else {
        forall r: nat | r < rows ensures Writer(after, operation.dependencies, r, l) {
          assert writes[r] in writes && after[writes[r]] == before[writes[r]];
        }
      }
    }
  }

  /** The completion is the only operation that nothing waits for. */
  lemma Ends(g: Graph, open: set<nat>)
    requires OpenEnds(g, open) && g != [] && open <= {|g| - 1}
    ensures Topological(g) && AllPrecede(g, |g| - 1)
  {
    var last: nat := |g| - 1;
    forall i: nat | i < |g| - 1 ensures Waited(g, i) {
      assert i !in open;
    }
    hide Waited;
    assert OpenEnds(g, {last});
    forall i: nat | i < |g| ensures Precedes(g, i, last) {
      SingleEnd(g, i);
    }
  }

  // -------------------------------------------------- each append and read once

  function Times(roles: seq<Role>, role: Role): nat
  {
    if roles == [] then 0 else Times(roles[..|roles| - 1], role) + (if roles[|roles| - 1] == role then 1 else 0)
  }

  lemma {:induction false} Counts(a: seq<Role>, b: seq<Role>, role: Role)
    ensures Times(a + b, role) == Times(a, role) + Times(b, role)
    decreases |b|
  {
    if b == [] {
      assert a + b == a;
    } else {
      var n := |b| - 1;
      assert (a + b)[..|a| + n] == a + b[..n];
      Counts(a, b[..n], role);
    }
  }

  lemma NoneCounts(role: Role)
    ensures Times([], role) == 0
  {
  }

  lemma One(x: Role, role: Role)
    ensures Times([x], role) == if x == role then 1 else 0
  {
    assert [x][..0] == [];
  }

  lemma {:induction false} Occurs(operations: seq<Operation>, i: nat)
    requires i < |operations| && Traffic(operations[i].role) != []
    ensures Times(KvRoles(operations), operations[i].role) >= 1
  {
    var n, role := |operations| - 1, operations[i].role;
    Counts(KvRoles(operations[..n]), Traffic(operations[n].role), role);
    if i < n {
      Occurs(operations[..n], i);
    } else {
      One(role, role);
    }
  }

  /** Two operations of one kind count twice. */
  lemma {:induction false} OccursTwice(operations: seq<Operation>, i: nat, j: nat)
    requires i < j < |operations| && operations[i].role == operations[j].role && Traffic(operations[i].role) != []
    ensures Times(KvRoles(operations), operations[i].role) >= 2
  {
    hide KvRoles, Times;
    var n, role := |operations| - 1, operations[i].role;
    KvRolesLast(operations);
    Counts(KvRoles(operations[..n]), Traffic(operations[n].role), role);
    if j < n {
      OccursTwice(operations[..n], i, j);
    } else {
      Occurs(operations[..n], i);
      One(role, role);
    }
  }

  lemma KvRolesLast(operations: seq<Operation>)
    requires operations != []
    ensures KvRoles(operations) == KvRoles(operations[..|operations| - 1]) + Traffic(operations[|operations| - 1].role)
  {
  }

  lemma {:induction false} Found(operations: seq<Operation>, role: Role)
    requires Times(KvRoles(operations), role) >= 1
    ensures exists i: nat :: i < |operations| && operations[i].role == role
  {
    var n := |operations| - 1;
    if operations[n].role != role {
      Counts(KvRoles(operations[..n]), Traffic(operations[n].role), role);
      One(operations[n].role, role);
      Found(operations[..n], role);
      var i: nat :| i < n && operations[..n][i].role == role;
      assert operations[i].role == role;
    }
  }

  lemma {:induction false} WriteCount(rows: nat, layer: nat, role: Role)
    ensures Times(WriteRoles(rows, layer), role) == if role.KvWrite? && role.layer == layer && role.row < rows then 1 else 0
  {
    if rows > 0 {
      WriteRolesNext(rows - 1, layer);
      WriteCount(rows - 1, layer, role);
      Counts(WriteRoles(rows - 1, layer), [KvWrite(rows - 1, layer)], role);
      One(KvWrite(rows - 1, layer), role);
    } else {
      WriteRolesNext(0, layer);
    }
  }

  ghost predicate Recalls(rows: seq<Row>, layer: nat, role: Role)
  {
    role.KvRead? && role.layer == layer && role.row < |rows| && rows[role.row].context > 0
  }

  lemma {:induction false} ReadCount(rows: seq<Row>, layer: nat, role: Role)
    ensures Times(ReadRoles(rows, layer), role) == if Recalls(rows, layer, role) then 1 else 0
  {
    if rows != [] {
      var n := |rows| - 1;
      ReadCount(rows[..n], layer, role);
      Counts(ReadRoles(rows[..n], layer), [KvRead(n, layer)], role);
      Counts(ReadRoles(rows[..n], layer), [], role);
      One(KvRead(n, layer), role);
    }
  }

  lemma {:induction false} LayerCount(rows: seq<Row>, layers: nat, role: Role)
    ensures Times(LayerRoles(rows, layers), role)
         == if role.KvWrite? && role.layer < layers && role.row < |rows| then 1
            else if role.KvRead? && role.layer < layers && Recalls(rows, role.layer, role) then 1 else 0
  {
    hide WriteRoles, ReadRoles, Times;
    if layers == 0 {
      NoneCounts(role);
    } else {
      LayerCount(rows, layers - 1, role);
      WriteCount(|rows|, layers - 1, role);
      ReadCount(rows, layers - 1, role);
      Counts(WriteRoles(|rows|, layers - 1), ReadRoles(rows, layers - 1), role);
      Counts(LayerRoles(rows, layers - 1), WriteRoles(|rows|, layers - 1) + ReadRoles(rows, layers - 1), role);
    }
  }

  /** Every row appends to every layer, once; who reads its context has one. */
  ghost predicate Exhaustive(operations: seq<Operation>, rows: seq<Row>, layers: nat)
  {
    && (forall i :: 0 <= i < |operations| && operations[i].role.KvWrite? ==>
          operations[i].role.row < |rows| && operations[i].role.layer < layers)
    && (forall i :: 0 <= i < |operations| && operations[i].role.KvRead? ==>
          operations[i].role.layer < layers && operations[i].role.row < |rows| && rows[operations[i].role.row].context > 0)
    && (forall r: nat, l: nat :: r < |rows| && l < layers ==> HasWrite(operations, l, r))
    && forall i, j :: 0 <= i < j < |operations| && operations[i].role.KvWrite? ==> operations[i].role != operations[j].role
  }

  ghost predicate HasWrite(operations: seq<Operation>, layer: nat, r: nat)
  {
    exists i :: 0 <= i < |operations| && operations[i].role == KvWrite(r, layer)
  }

  lemma RolesExhaustive(operations: seq<Operation>, rows: seq<Row>, layers: nat)
    requires KvRoles(operations) == LayerRoles(rows, layers)
    ensures Exhaustive(operations, rows, layers)
  {
    hide KvRoles, LayerRoles;
    forall i | 0 <= i < |operations| && Traffic(operations[i].role) != []
      ensures Times(KvRoles(operations), operations[i].role) >= 1
    {
      Occurs(operations, i);
      LayerCount(rows, layers, operations[i].role);
    }
    forall role: Role ensures Times(KvRoles(operations), role) ==
      if role.KvWrite? && role.layer < layers && role.row < |rows| then 1
      else if role.KvRead? && role.layer < layers && Recalls(rows, role.layer, role) then 1 else 0
    {
      LayerCount(rows, layers, role);
    }
    forall r: nat, l: nat | r < |rows| && l < layers ensures HasWrite(operations, l, r) {
      Found(operations, KvWrite(r, l));
    }
    forall i, j | 0 <= i < j < |operations| && operations[i].role.KvWrite? ensures operations[i].role != operations[j].role {
      if operations[i].role == operations[j].role {
        OccursTwice(operations, i, j);
      }
    }
  }
}
