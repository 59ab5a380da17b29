/** The operations of one scheduler iteration: which there are, in which order, and what each waits for. */
module Operations {
  import opened Graphs

  /** A row of the batch: one slice's tokens, and whether it reads earlier context. */
  datatype Row = Row(tokens: nat, context: nat)

  datatype Layer = Layer(attention: bool, ffn: bool, router: bool, moe: bool, shared: bool, experts: nat)

  datatype Part = Attention | Ffn | Router | Shared

  datatype Role =
    | Start | Embedding | Embedded | Weights(part: Part, layer: nat) | KvWrite(row: nat, layer: nat) | KvRead(row: nat, layer: nat)
    | Routing(layer: nat) | Expert(layer: nat) | MemoryComplete(layer: nat) | Compute(layer: nat)
    | FinalNorm | Head | Tail | Complete

  datatype Operation = Operation(role: Role, dependencies: seq<nat>)
  {
    predicate IsBarrier()
    {
      role.Start? || role.Embedded? || role.Routing? || role.MemoryComplete? || role.Compute? || role.Tail? || role.Complete?
    }
  }

  /** Operations that others wait for together. */
  datatype Group =
    | Starts | Gathers | Embeds | Appends(layer: nat) | AllAppends | Loads(layer: nat) | Routings(layer: nat)
    | Joins(layer: nat) | Computes(layer: nat) | Norms | Heads | Tails
  {
    /** It begins with layer l or later. */
    predicate From(l: nat)
    {
      match this
      case Appends(k) => k >= l
      case Loads(k) => k >= l
      case Routings(k) => k >= l
      case Joins(k) => k >= l
      case Computes(k) => k >= l
      case _ => Norms? || Heads? || Tails?
    }
  }

  function GroupsOf(role: Role): set<Group>
  {
    match role
    case Start => {Starts}
    case Embedding => {Gathers}
    case Embedded => {Embeds}
    case Weights(_, l) => {Loads(l)}
    case KvWrite(_, l) => {Appends(l), AllAppends}
    case KvRead(_, l) => {Loads(l)}
    case Routing(l) => {Routings(l)}
    case Expert(l) => {Loads(l)}
    case MemoryComplete(l) => {Joins(l)}
    case Compute(l) => {Computes(l)}
    case FinalNorm => {Norms}
    case Head => {Heads}
    case Tail => {Tails}
    case Complete => {}
  }

  /** What an iteration is compiled from. */
  datatype Iteration = Iteration(rows: seq<Row>, layers: seq<Layer>, depth: nat, emits: bool)
  {
    /** When the memory of layer l may start: the layer whose buffer it reuses is computed. */
    function Root(l: nat): Group
    {
      if l >= 1 + depth then Computes(l - 1 - depth) else Embeds
    }

    /** What was computed right before layer l. */
    function Prior(l: nat): Group
    {
      if l > 0 then Computes(l - 1) else Embeds
    }

    /** Whether layer l loads anything. */
    predicate Loading(l: nat)
      requires l < |layers|
    {
      layers[l].attention || layers[l].ffn || layers[l].router || layers[l].shared || layers[l].moe || AnyContext(rows)
    }

    /** Exactly what an operation waits for. */
    function Needed(role: Role): set<Group>
    {
      match role
      case Start => {}
      case Embedding => {Starts}
      case Embedded => {Gathers}
      case Weights(_, l) => {Root(l)}
      case KvWrite(_, l) => {Prior(l)}
      case KvRead(_, l) => {Root(l), Appends(l)}
      case Routing(l) => {Loads(l), Prior(l)}
      case Expert(l) => {Routings(l)}
      case MemoryComplete(l) => if l < |layers| && Loading(l) then {Loads(l)} else {Root(l)}
      case Compute(l) => if l > 0 then {Joins(l), Prior(l)} else {Joins(l)}
      case FinalNorm => {Prior(|layers|)}
      case Head => {Norms}
      case Tail => {if emits then Heads else Norms}
      case Complete => {Tails, AllAppends}
    }

    predicate Needs(role: Role, other: Role)
    {
      Needed(role) * GroupsOf(other) != {}
    }

    // ------------------------------------------------------------ the whole order

    function Memory(l: nat): seq<Role>
      requires l < |layers|
    {
      Choice(layers[l].attention, Weights(Attention, l)) + WriteRoles(|rows|, l) + ReadRoles(rows, l)
      + Choice(layers[l].ffn, Weights(Ffn, l)) + Choice(layers[l].router, Weights(Router, l))
    }

    function ExpertLoads(l: nat): seq<Role>
      requires l < |layers|
    {
      Choice(layers[l].shared, Weights(Shared, l)) + Repeat(Expert(l), if layers[l].moe then layers[l].experts else 0)
    }

    function OneLayer(l: nat): seq<Role>
      requires l < |layers|
    {
      Memory(l) + Choice(layers[l].moe, Routing(l)) + ExpertLoads(l) + [MemoryComplete(l)] + [Compute(l)]
    }

    function Upto(n: nat): seq<Role>
      requires n <= |layers|
    {
      if n == 0 then [Start] + GatherRoles(rows) + [Embedded] else Upto(n - 1) + OneLayer(n - 1)
    }

    /** All operations of the iteration, in their order. */
    function Roles(): seq<Role>
    {
      Upto(|layers|) + ([FinalNorm] + Choice(emits, Head) + [Tail] + [Complete])
    }
  }

  /** A batch the scheduler can hand over. */
  ghost predicate Runnable(rows: seq<Row>, layers: seq<Layer>)
  {
    && rows != [] && layers != []
    && (forall r :: 0 <= r < |rows| ==> rows[r].tokens > 0)
    && (forall l :: 0 <= l < |layers| && layers[l].moe ==> layers[l].experts > 0)
  }

  predicate AnyContext(rows: seq<Row>)
  {
    exists r :: 0 <= r < |rows| && rows[r].context > 0
  }

  function Choice(present: bool, role: Role): seq<Role>
  {
    if present then [role] else []
  }

  function Repeat(role: Role, n: nat): (roles: seq<Role>)
    ensures |roles| == n && forall k :: 0 <= k < n ==> roles[k] == role
  {
    if n == 0 then [] else Repeat(role, n - 1) + [role]
  }

  /** One read for each new token. */
  function GatherRoles(rows: seq<Row>): (roles: seq<Role>)
    ensures forall k :: 0 <= k < |roles| ==> roles[k] == Embedding
  {
    if rows == [] then [] else GatherRoles(rows[..|rows| - 1]) + Repeat(Embedding, rows[|rows| - 1].tokens)
  }

  lemma GatherRolesNext(rows: seq<Row>, r: nat)
    requires r < |rows|
    ensures GatherRoles(rows[..r + 1]) == GatherRoles(rows[..r]) + Repeat(Embedding, rows[r].tokens)
  {
    assert rows[..r + 1][..r] == rows[..r];
  }

  function WriteRoles(rows: nat, layer: nat): (roles: seq<Role>)
    ensures |roles| == rows && forall r :: 0 <= r < rows ==> roles[r] == KvWrite(r, layer)
  {
    seq(rows, r requires 0 <= r < rows => KvWrite(r, layer))
  }

  lemma WriteRolesNext(rows: nat, layer: nat)
    ensures WriteRoles(0, layer) == [] && WriteRoles(rows + 1, layer) == WriteRoles(rows, layer) + [KvWrite(rows, layer)]
  {
  }

  /** Rows without earlier context read none. */
  function ReadRoles(rows: seq<Row>, layer: nat): (roles: seq<Role>)
    ensures forall k :: 0 <= k < |roles| ==> roles[k].KvRead? && roles[k].layer == layer
  {
    if rows == [] then []
    else
      var n := |rows| - 1;
      ReadRoles(rows[..n], layer) + Choice(rows[n].context > 0, KvRead(n, layer))
  }

  lemma ReadRolesNext(rows: seq<Row>, r: nat, layer: nat)
    requires r < |rows|
    ensures ReadRoles(rows[..r + 1], layer) == ReadRoles(rows[..r], layer) + Choice(rows[r].context > 0, KvRead(r, layer))
  {
    assert rows[..r + 1][..r] == rows[..r];
  }

  // ------------------------------------------------------------ lists of operations

  ghost function GraphOf(operations: seq<Operation>): (g: Graph)
    ensures |g| == |operations| && forall i :: 0 <= i < |g| ==> g[i] == operations[i].dependencies
  {
    seq(|operations|, i requires 0 <= i < |operations| => operations[i].dependencies)
  }

  ghost function RolesOf(operations: seq<Operation>): (roles: seq<Role>)
    ensures |roles| == |operations| && forall i :: 0 <= i < |roles| ==> roles[i] == operations[i].role
  {
    seq(|operations|, i requires 0 <= i < |operations| => operations[i].role)
  }

  /** The operations that were added. */
  ghost predicate Said(before: seq<Operation>, after: seq<Operation>, roles: seq<Role>)
  {
    RolesOf(after) == RolesOf(before) + roles
  }

  lemma SaidOne(operations: seq<Operation>, operation: Operation)
    ensures Said(operations, operations + [operation], [operation.role])
  {
  }

  lemma SaidNone(operations: seq<Operation>)
    ensures Said(operations, operations, [])
  {
  }

  lemma SaidMore(a: seq<Operation>, b: seq<Operation>, c: seq<Operation>, roles: seq<Role>, more: seq<Role>)
    requires Said(a, b, roles) && Said(b, c, more)
    ensures Said(a, c, roles + more)
  {
    hide RolesOf;
    assert (RolesOf(a) + roles) + more == RolesOf(a) + (roles + more);
  }

  // -------------------------------------------------------------- who waits for whom

  /** The operations of a group. */
  ghost function Ids(operations: seq<Operation>, group: Group): set<nat>
  {
    set j: nat | j < |operations| && group in GroupsOf(operations[j].role)
  }

  /** The dependencies of a further operation are exactly those it needs. */
  ghost predicate Due(operations: seq<Operation>, it: Iteration, role: Role, dependencies: seq<nat>)
  {
    forall j: nat :: j in dependencies <==> j < |operations| && it.Needs(role, operations[j].role)
  }

  /** Every operation waits for exactly those in front of it that it needs. */
  ghost predicate Precise(operations: seq<Operation>, it: Iteration)
  {
    forall i: nat :: i < |operations| ==> Due(operations[..i], it, operations[i].role, operations[i].dependencies)
  }

  lemma PrecisePush(operations: seq<Operation>, it: Iteration, role: Role, dependencies: seq<nat>)
    requires Precise(operations, it) && Due(operations, it, role, dependencies)
    ensures Precise(operations + [Operation(role, dependencies)], it)
  {
    hide Due;
    var longer := operations + [Operation(role, dependencies)];
    forall i: nat | i < |longer| ensures Due(longer[..i], it, longer[i].role, longer[i].dependencies) {
      assert longer[..i] == operations[..i];
      assert operations[..|operations|] == operations;
    }
  }

  /** The order and the needs leave nothing open: the graph is the only one. */
  lemma OnlyOne(a: seq<Operation>, b: seq<Operation>, it: Iteration)
    requires RolesOf(a) == RolesOf(b) && Precise(a, it) && Precise(b, it)
    ensures |a| == |b| && forall i :: 0 <= i < |a| ==> a[i].role == b[i].role && Elements(a[i].dependencies) == Elements(b[i].dependencies)
  {
    forall i: nat | i < |a| ensures a[i].role == b[i].role && Elements(a[i].dependencies) == Elements(b[i].dependencies) {
      assert RolesOf(a)[i] == RolesOf(b)[i];
      assert Due(a[..i], it, a[i].role, a[i].dependencies) && Due(b[..i], it, b[i].role, b[i].dependencies);
      forall j: nat | j < i ensures a[..i][j].role == b[..i][j].role {
        assert RolesOf(a)[j] == RolesOf(b)[j];
      }
    }
  }

  lemma DueOne(operations: seq<Operation>, it: Iteration, role: Role, group: Group, ids: seq<nat>)
    requires it.Needed(role) == {group} && Ids(operations, group) == Elements(ids)
    ensures Due(operations, it, role, ids)
  {
    forall j: nat ensures j in ids <==> j < |operations| && it.Needs(role, operations[j].role) {
      NeedsOne(it, role, group, operations, j);
      assert j in ids <==> j in Elements(ids);
    }
  }

  lemma NeedsOne(it: Iteration, role: Role, group: Group, operations: seq<Operation>, j: nat)
    requires it.Needed(role) == {group}
    ensures j in Ids(operations, group) <==> j < |operations| && it.Needs(role, operations[j].role)
  {
    if j < |operations| {
      var groups := GroupsOf(operations[j].role);
      assert group in groups ==> group in it.Needed(role) * groups;
      assert group !in groups ==> it.Needed(role) * groups == {};
    }
  }

  lemma DueTwo(operations: seq<Operation>, it: Iteration, role: Role, group: Group, ids: seq<nat>, other: Group, more: seq<nat>)
    requires it.Needed(role) == {group, other}
    requires Ids(operations, group) == Elements(ids) && Ids(operations, other) == Elements(more)
    ensures Due(operations, it, role, ids + more)
  {
    forall j: nat ensures j in ids + more <==> j < |operations| && it.Needs(role, operations[j].role) {
      NeedsTwo(it, role, group, other, operations, j);
      assert (j in ids <==> j in Elements(ids)) && (j in more <==> j in Elements(more));
    }
  }

  lemma NeedsTwo(it: Iteration, role: Role, group: Group, other: Group, operations: seq<Operation>, j: nat)
    requires it.Needed(role) == {group, other}
    ensures j in Ids(operations, group) + Ids(operations, other) <==> j < |operations| && it.Needs(role, operations[j].role)
  {
    if j < |operations| {
      var groups := GroupsOf(operations[j].role);
      assert group in groups ==> group in it.Needed(role) * groups;
      assert other in groups ==> other in it.Needed(role) * groups;
      assert group !in groups && other !in groups ==> it.Needed(role) * groups == {};
    }
  }

  // ----------------------------------------------------------- groups while emitting

  /** The new operations are the listed ones, all of these groups and no others. */
  ghost predicate Adds(before: seq<Operation>, after: seq<Operation>, groups: set<Group>, ids: seq<nat>)
  {
    forall g: Group :: Ids(after, g) == Ids(before, g) + (if g in groups then Elements(ids) else {})
  }

  lemma AddsOne(operations: seq<Operation>, operation: Operation)
    ensures Adds(operations, operations + [operation], GroupsOf(operation.role), [|operations|])
  {
    hide GroupsOf;
    var longer := operations + [operation];
    assert Elements([|operations|]) == {|operations|};
    forall g: Group, j: nat ensures j in Ids(longer, g) <==> j in Ids(operations, g) || (g in GroupsOf(operation.role) && j == |operations|) {
      if j < |operations| {
        assert longer[j] == operations[j];
      }
    }
  }

  lemma AddsNone(operations: seq<Operation>, groups: set<Group>)
    ensures Adds(operations, operations, groups, [])
  {
  }

  lemma AddsMore(a: seq<Operation>, b: seq<Operation>, c: seq<Operation>, groups: set<Group>, ids: seq<nat>, more: seq<nat>)
    requires Adds(a, b, groups, ids) && Adds(b, c, groups, more)
    ensures Adds(a, c, groups, ids + more)
  {
    hide Ids;
    assert Elements(ids + more) == Elements(ids) + Elements(more);
  }

  /** What a layer has emitted. */
  datatype Shelf = Shelf(loads: seq<nat>, writes: seq<nat>, routing: seq<nat>, complete: seq<nat>, compute: seq<nat>)
  {
    function At(group: Group, l: nat): seq<nat>
    {
      if group == Loads(l) then loads
      else if group == Appends(l) || group == AllAppends then writes
      else if group == Routings(l) then routing
      else if group == Joins(l) then complete
      else if group == Computes(l) then compute
      else []
    }
  }

  /** Between the two lists, exactly this was emitted, all for layer l. */
  ghost predicate Stocked(before: seq<Operation>, after: seq<Operation>, l: nat, shelf: Shelf)
  {
    forall g: Group :: Ids(after, g) == Ids(before, g) + Elements(shelf.At(g, l))
  }

  lemma StockedNone(operations: seq<Operation>, l: nat)
    ensures Stocked(operations, operations, l, Shelf([], [], [], [], []))
  {
  }

  lemma StockedLoads(a: seq<Operation>, b: seq<Operation>, c: seq<Operation>, l: nat, shelf: Shelf, more: seq<nat>)
    requires Stocked(a, b, l, shelf) && Adds(b, c, {Loads(l)}, more)
    ensures Stocked(a, c, l, shelf.(loads := shelf.loads + more))
  {
    hide Ids;
    assert Elements(shelf.loads + more) == Elements(shelf.loads) + Elements(more);
  }

  lemma StockedMore(a: seq<Operation>, b: seq<Operation>, c: seq<Operation>, l: nat, shelf: Shelf, groups: set<Group>, ids: seq<nat>, next: Shelf)
    requires Stocked(a, b, l, shelf) && Adds(b, c, groups, ids)
    requires forall g: Group :: next.At(g, l) == shelf.At(g, l) + (if g in groups then ids else [])
    ensures Stocked(a, c, l, next)
  {
    hide Ids, Shelf.At;
    forall g: Group ensures Ids(c, g) == Ids(a, g) + Elements(next.At(g, l)) {
      assert Elements(next.At(g, l)) == Elements(shelf.At(g, l)) + (if g in groups then Elements(ids) else {});
    }
  }

  /** Nothing of layer l or later ones, and nothing of the end, is there yet. */
  ghost predicate Vacant(operations: seq<Operation>, l: nat)
  {
    forall g: Group :: g.From(l) ==> Ids(operations, g) == {}
  }

  lemma VacantNext(before: seq<Operation>, after: seq<Operation>, l: nat, shelf: Shelf)
    requires Vacant(before, l) && Stocked(before, after, l, shelf)
    ensures Vacant(after, l + 1)
  {
    hide Ids;
  }

  /** The groups of the layer, the roots and the computed layers, once all of the shelf is there. */
  lemma StockedMeans(before: seq<Operation>, after: seq<Operation>, l: nat, shelf: Shelf)
    requires Vacant(before, l) && Stocked(before, after, l, shelf)
    ensures Ids(after, Loads(l)) == Elements(shelf.loads) && Ids(after, Appends(l)) == Elements(shelf.writes)
    ensures Ids(after, Routings(l)) == Elements(shelf.routing) && Ids(after, Joins(l)) == Elements(shelf.complete)
    ensures Ids(after, Computes(l)) == Elements(shelf.compute) && Ids(after, Embeds) == Ids(before, Embeds)
    ensures Ids(after, AllAppends) == Ids(before, AllAppends) + Elements(shelf.writes)
    ensures forall k: nat :: k < l ==> Ids(after, Computes(k)) == Ids(before, Computes(k))
  {
    hide Ids;
  }

  // ------------------------------------------------------------ the traffic with the KV cache

  function Traffic(role: Role): seq<Role>
  {
    if role.KvWrite? || role.KvRead? then [role] else []
  }

  /** The appends and the context reads, in the order of emission. */
  ghost function KvRoles(operations: seq<Operation>): seq<Role>
  {
    if operations == [] then []
    else KvRoles(operations[..|operations| - 1]) + Traffic(operations[|operations| - 1].role)
  }

  function KvOf(roles: seq<Role>): seq<Role>
  {
    if roles == [] then [] else KvOf(roles[..|roles| - 1]) + Traffic(roles[|roles| - 1])
  }

  lemma {:induction false} KvRolesOf(operations: seq<Operation>)
    ensures KvRoles(operations) == KvOf(RolesOf(operations))
  {
    if operations != [] {
      var n := |operations| - 1;
      KvRolesOf(operations[..n]);
      assert RolesOf(operations)[..n] == RolesOf(operations[..n]);
    }
  }

  lemma {:induction false} KvJoin(a: seq<Role>, b: seq<Role>)
    ensures KvOf(a + b) == KvOf(a) + KvOf(b)
    decreases |b|
  {
    if b == [] {
      assert a + b == a;
    } else {
      var n := |b| - 1;
      assert (a + b)[..|a| + n] == a + b[..n];
      KvJoin(a, b[..n]);
      KvLast(a + b);
      KvLast(b);
      hide KvOf, Traffic;
      assert (KvOf(a) + KvOf(b[..n])) + Traffic(b[n]) == KvOf(a) + (KvOf(b[..n]) + Traffic(b[n]));
    }
  }

  lemma KvLast(roles: seq<Role>)
    requires roles != []
    ensures KvOf(roles) == KvOf(roles[..|roles| - 1]) + Traffic(roles[|roles| - 1])
  {
  }

  lemma {:induction false} KvAll(roles: seq<Role>)
    requires forall k :: 0 <= k < |roles| ==> Traffic(roles[k]) != []
    ensures KvOf(roles) == roles
  {
    if roles != [] {
      KvAll(roles[..|roles| - 1]);
    }
  }

  lemma {:induction false} KvNone(roles: seq<Role>)
    requires forall k :: 0 <= k < |roles| ==> Traffic(roles[k]) == []
    ensures KvOf(roles) == []
  {
    if roles != [] {
      KvNone(roles[..|roles| - 1]);
    }
  }

  /** What a batch appends and reads: layer by layer, first all appends, then the context. */
  function LayerRoles(rows: seq<Row>, layers: nat): seq<Role>
  {
    if layers == 0 then []
    else LayerRoles(rows, layers - 1) + (WriteRoles(|rows|, layers - 1) + ReadRoles(rows, layers - 1))
  }

  lemma MemoryKv(it: Iteration, l: nat)
    requires l < |it.layers|
    ensures KvOf(it.Memory(l)) == WriteRoles(|it.rows|, l) + ReadRoles(it.rows, l)
  {
    hide KvOf;
    var layer := it.layers[l];
    var front, writes, recalls := Choice(layer.attention, Weights(Attention, l)), WriteRoles(|it.rows|, l), ReadRoles(it.rows, l);
    var ffn, router := Choice(layer.ffn, Weights(Ffn, l)), Choice(layer.router, Weights(Router, l));
    KvNone(front);
    KvAll(writes);
    KvAll(recalls);
    KvNone(ffn);
    KvNone(router);
    hide WriteRoles, ReadRoles, Choice;
    KvMiddle(front, writes, recalls, ffn, router);
  }

  lemma KvMiddle(a: seq<Role>, b: seq<Role>, c: seq<Role>, d: seq<Role>, e: seq<Role>)
    requires KvOf(a) == KvOf(d) == KvOf(e) == [] && KvOf(b) == b && KvOf(c) == c
    ensures KvOf(a + b + c + d + e) == b + c
  {
    hide KvOf;
    KvJoin(a, b);
    KvJoin(a + b, c);
    KvJoin(a + b + c, d);
    KvJoin(a + b + c + d, e);
    assert [] + b == b && (b + c) + [] == b + c;
  }

  lemma KvFront(a: seq<Role>, b: seq<Role>)
    requires KvOf(b) == []
    ensures KvOf(a + b) == KvOf(a)
  {
    hide KvOf;
    KvJoin(a, b);
    assert KvOf(a) + [] == KvOf(a);
  }

  lemma OneLayerKv(it: Iteration, l: nat)
    requires l < |it.layers|
    ensures KvOf(it.OneLayer(l)) == WriteRoles(|it.rows|, l) + ReadRoles(it.rows, l)
  {
    hide KvOf;
    MemoryKv(it, l);
    var kv, routing := it.Memory(l), Choice(it.layers[l].moe, Routing(l));
    KvNone(routing);
    KvNone(it.ExpertLoads(l));
    KvNone([MemoryComplete(l)]);
    KvNone([Compute(l)]);
    hide WriteRoles, ReadRoles, Choice, Iteration.ExpertLoads, Iteration.Memory;
    KvFront(kv, routing);
    KvFront(kv + routing, it.ExpertLoads(l));
    KvFront(kv + routing + it.ExpertLoads(l), [MemoryComplete(l)]);
    KvFront(kv + routing + it.ExpertLoads(l) + [MemoryComplete(l)], [Compute(l)]);
  }

  lemma {:induction false} UptoKv(it: Iteration, n: nat)
    requires n <= |it.layers|
    ensures KvOf(it.Upto(n)) == LayerRoles(it.rows, n)
  {
    hide KvOf, WriteRoles, ReadRoles, Iteration.OneLayer;
    if n == 0 {
      KvNone(it.Upto(0));
    } else {
      UptoKv(it, n - 1);
      OneLayerKv(it, n - 1);
      KvJoin(it.Upto(n - 1), it.OneLayer(n - 1));
    }
  }

  lemma RolesKv(operations: seq<Operation>, it: Iteration)
    requires RolesOf(operations) == it.Roles()
    ensures KvRoles(operations) == LayerRoles(it.rows, |it.layers|)
  {
    hide KvOf, LayerRoles, Iteration.Upto, RolesOf, KvRoles;
    var end := [FinalNorm] + Choice(it.emits, Head) + [Tail] + [Complete];
    KvRolesOf(operations);
    KvNone(end);
    UptoKv(it, |it.layers|);
    KvFront(it.Upto(|it.layers|), end);
  }
}
