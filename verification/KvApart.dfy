/** Who writes where within one batch: appends never meet, swap-ins arrive in blocks that nobody else
    reads or fills, in every reachable state.
 */
module KvApart {
  import opened PrefixKeys
  import opened PrefixSpec
  import opened Tables
  import opened PlacementSpec
  import opened PlacementInvariant
  import opened PlannerSoundness
  import opened PlacementRuns
  import opened KvMemory
  import opened KvRefinement
  import opened KvWrites
  import opened KvPublish
  import opened KvSteps
  import opened KvReservation
  import opened KvAdmission
  import opened KvRuns
  import opened WorldFacts
  import opened Settlements

  /** The slice puts a byte of one of its tokens here. */
  ghost predicate Puts(s: State, slice: Slice, blockTokens: nat, b: nat, x: nat, cell: Cell)
  {
    slice.request in s.kv && Lands(s.kv[slice.request].request.model, s.kv[slice.request].table, slice, blockTokens, b, x, cell)
  }

  /** A block is written by one slice alone, as one block of one layer. */
  ghost predicate OneWriter(s: State, slice: Slice, slice': Slice, blockTokens: nat)
  {
    forall b, x, x', cell, cell' :: Puts(s, slice, blockTokens, b, x, cell) && Puts(s, slice', blockTokens, b, x', cell') ==>
      slice == slice' && cell.layer == cell'.layer && cell.ordinal == cell'.ordinal
  }

  ghost predicate Sole(s: State, reserved: seq<Slice>, cfg: Config)
  {
    && (forall i, j :: 0 <= i < j < |reserved| ==> reserved[i].request != reserved[j].request)
    && forall i, j :: 0 <= i < |reserved| && 0 <= j < |reserved| ==> OneWriter(s, reserved[i], reserved[j], cfg.blockTokens)
  }

  /** One table repeats another, as far as that goes. */
  ghost predicate Repeats(table: Table, longer: Table)
  {
    |table| <= |longer| && forall l :: 0 <= l < |table| ==> table[l] <= longer[l]
  }

  /** A pending swap-in belongs to a request of the batch, which still has its blocks. */
  ghost predicate Seated(s: State, m: Migration, batch: set<nat>)
  {
    m.request in batch && m.request in s.kv && s.kv[m.request].tier.Hot? && Repeats(m.destination, s.kv[m.request].table)
  }

  /** The hot blocks that a migration reads or fills. */
  ghost function HotSide(m: Migration): multiset<nat>
  {
    Cells(if m.toCold then m.source else m.destination)
  }

  /** No later migration reads or fills a block that a swap-in fills, nor does the swap-in twice. */
  ghost predicate Clear(first: Migration, later: Migration)
  {
    !first.toCold ==> forall b :: b in Cells(first.destination) ==> b !in HotSide(later)
  }

  ghost predicate Orderly(migrations: seq<Migration>)
  {
    && Matching(migrations)
    && (forall k, b :: 0 <= k < |migrations| && b in Cells(migrations[k].destination) ==> Cells(migrations[k].destination)[b] == 1)
    && forall i, j :: 0 <= i < j < |migrations| ==> Clear(migrations[i], migrations[j])
  }

  /** A request outside the batch holds no block that a swap-in fills. */
  ghost predicate Foreign(s: State, m: Migration, id: nat)
    requires id in s.kv
  {
    forall b :: b in Cells(s.kv[id].table) ==> b !in Cells(m.destination)
  }

  ghost predicate Firm(s: State, reserved: seq<Slice>, batch: set<nat>, exempt: set<nat>, cfg: Config)
  {
    && Sole(s, reserved, cfg) && Orderly(s.migrations)
    && (forall k :: 0 <= k < |s.migrations| && !s.migrations[k].toCold ==> Seated(s, s.migrations[k], batch))
    && forall k, id ::
         (0 <= k < |s.migrations| && !s.migrations[k].toCold && id in s.kv && s.kv[id].tier.Hot? && id !in batch && id !in exempt)
         ==> Foreign(s, s.migrations[k], id)
  }

  // ------------------------------------------------------------------ frames

  /** Tables, tiers and requests are what matters. */
  ghost predicate SameHoldings(s: State, next: State)
  {
    && next.migrations == s.migrations && next.kv.Keys == s.kv.Keys
    && forall id :: id in s.kv ==>
         next.kv[id].table == s.kv[id].table && next.kv[id].tier == s.kv[id].tier && next.kv[id].request == s.kv[id].request
  }

  lemma SameFirm(s: State, next: State, reserved: seq<Slice>, batch: set<nat>, exempt: set<nat>, cfg: Config)
    requires Firm(s, reserved, batch, exempt, cfg) && SameHoldings(s, next)
    ensures Firm(next, reserved, batch, exempt, cfg)
  {
    hide Lands, Clear, Matching;
    forall i, j | 0 <= i < |reserved| && 0 <= j < |reserved| ensures OneWriter(next, reserved[i], reserved[j], cfg.blockTokens) {
      assert OneWriter(s, reserved[i], reserved[j], cfg.blockTokens);
      forall b, x, x', cell, cell' | Puts(next, reserved[i], cfg.blockTokens, b, x, cell) && Puts(next, reserved[j], cfg.blockTokens, b, x', cell')
        ensures reserved[i] == reserved[j] && cell.layer == cell'.layer && cell.ordinal == cell'.ordinal
      {
        assert Puts(s, reserved[i], cfg.blockTokens, b, x, cell) && Puts(s, reserved[j], cfg.blockTokens, b, x', cell');
      }
    }
    forall k | 0 <= k < |next.migrations| && !next.migrations[k].toCold ensures Seated(next, next.migrations[k], batch) {
      assert Seated(s, s.migrations[k], batch);
    }
    forall k, id | 0 <= k < |next.migrations| && !next.migrations[k].toCold && id in next.kv && next.kv[id].tier.Hot?
        && id !in batch && id !in exempt
      ensures Foreign(next, next.migrations[k], id)
    {
      assert Foreign(s, s.migrations[k], id);
    }
  }

  /** The batch may grow, and takes in who was exempt. */
  lemma WiderFirm(s: State, reserved: seq<Slice>, batch: set<nat>, wider: set<nat>, exempt: set<nat>, cfg: Config)
    requires Firm(s, reserved, batch, exempt, cfg) && batch <= wider && exempt <= wider
    ensures Firm(s, reserved, wider, {}, cfg)
  {
    hide Sole, Clear, Matching, Repeats;
    forall k | 0 <= k < |s.migrations| && !s.migrations[k].toCold ensures Seated(s, s.migrations[k], wider) {
      assert Seated(s, s.migrations[k], batch);
    }
    forall k, id | 0 <= k < |s.migrations| && !s.migrations[k].toCold && id in s.kv && s.kv[id].tier.Hot? && id !in wider
      ensures Foreign(s, s.migrations[k], id)
    {
      assert id !in batch && id !in exempt;
    }
  }

  /** Requests outside the batch's slices may change their tables. */
  lemma SoleFrame(s: State, next: State, reserved: seq<Slice>, cfg: Config)
    requires Sole(s, reserved, cfg) && SameTables(s.kv, next.kv, reserved)
    ensures Sole(next, reserved, cfg)
  {
    hide Lands;
    forall i, j | 0 <= i < |reserved| && 0 <= j < |reserved| ensures OneWriter(next, reserved[i], reserved[j], cfg.blockTokens) {
      assert OneWriter(s, reserved[i], reserved[j], cfg.blockTokens);
      forall b, x, x', cell, cell' | Puts(next, reserved[i], cfg.blockTokens, b, x, cell) && Puts(next, reserved[j], cfg.blockTokens, b, x', cell')
        ensures reserved[i] == reserved[j] && cell.layer == cell'.layer && cell.ordinal == cell'.ordinal
      {
        assert Puts(s, reserved[i], cfg.blockTokens, b, x, cell) && Puts(s, reserved[j], cfg.blockTokens, b, x', cell');
      }
    }
  }

  // -------------------------------------------------------------- migrations

  /** The blocks that swap-ins fill are in use. */
  lemma SeatedHeld(s: State, m: Migration, batch: set<nat>, b: nat, cfg: Config)
    requires Inv(s, cfg) && Seated(s, m, batch) && b in Cells(m.destination)
    ensures b in s.hot.refs
  {
    hide Inv;
    var l, o := CellOfTable(m.destination, b);
    assert s.kv[m.request].table[l][o] == b;
    HeldCounts(s, cfg, m.request, l, o);
  }

  lemma {:induction false} CellOfTable(table: Table, b: nat) returns (l: nat, o: nat)
    requires b in Cells(table)
    ensures l < |table| && o < |table[l]| && table[l][o] == b
  {
    if b in table[0] {
      l := 0;
      o :| o < |table[0]| && table[0][o] == b;
    } else {
      var l', o' := CellOfTable(table[1..], b);
      l, o := l' + 1, o';
    }
  }

  lemma OrderlyPush(migrations: seq<Migration>, m: Migration)
    requires Orderly(migrations) && SameShape(m.source, m.destination)
    requires forall b :: b in Cells(m.destination) ==> Cells(m.destination)[b] == 1
    requires forall k :: 0 <= k < |migrations| ==> Clear(migrations[k], m)
    ensures Orderly(migrations + [m])
  {
    hide Clear;
    var longer := migrations + [m];
    forall i, j | 0 <= i < j < |longer| ensures Clear(longer[i], longer[j]) {
      if j < |migrations| {
        assert Clear(migrations[i], migrations[j]);
      }
    }
  }

  /** A request outside the batch is swapped out. */
  lemma OutFirm(s: State, id: nat, rows: Rows, reserved: seq<Slice>, batch: set<nat>, exempt: set<nat>, cfg: Config)
    requires Inv(s, cfg) && Firm(s, reserved, batch, exempt, cfg) && id in s.kv && s.kv[id].tier.Hot? && id !in batch && id !in exempt
    requires rows.Rows? && rows == AllocateRows(s.cold, |s.kv[id].table|, s.kv[id].Width()) && InBatch(reserved) <= batch
    ensures Firm(Moved(s, id, true, rows), reserved, batch, exempt, cfg)
  {
    hide Inv, AllocateRows, Sole, Orderly, Clear;
    var next, m := Moved(s, id, true, rows), Migration(true, id, s.kv[id].table, rows.table);
    MigrationFacts(s, id, true, cfg);
    RowsFacts(s, id, true, rows, cfg);
    NotInBatch(s.kv, next.kv, id, reserved);
    SoleFrame(s, next, reserved, cfg);
    forall k | 0 <= k < |s.migrations| ensures Clear(s.migrations[k], m) {
      ClearOut(s, id, k, m, batch, exempt);
    }
    OrderlyPush(s.migrations, m);
    forall k | 0 <= k < |next.migrations| && !next.migrations[k].toCold ensures Seated(next, next.migrations[k], batch) {
      assert Seated(s, s.migrations[k], batch);
    }
    forall k, j | 0 <= k < |next.migrations| && !next.migrations[k].toCold && j in next.kv && next.kv[j].tier.Hot?
        && j !in batch && j !in exempt
      ensures Foreign(next, next.migrations[k], j)
    {
      assert Foreign(s, s.migrations[k], j);
    }
  }

  lemma ClearOut(s: State, id: nat, k: nat, m: Migration, batch: set<nat>, exempt: set<nat>)
    requires k < |s.migrations| && id in s.kv && m.toCold && m.source == s.kv[id].table
    requires !s.migrations[k].toCold ==> Foreign(s, s.migrations[k], id)
    ensures Clear(s.migrations[k], m)
  {
  }

  /** A request of the batch is swapped in, to fresh blocks. */
  lemma InFirm(s: State, id: nat, rows: Rows, reserved: seq<Slice>, batch: set<nat>, exempt: set<nat>, cfg: Config)
    requires Inv(s, cfg) && Firm(s, reserved, batch, exempt, cfg) && id in s.kv && s.kv[id].tier.Cold? && id in batch && id !in InBatch(reserved)
    requires rows.Rows? && rows == AllocateRows(s.hot, |s.kv[id].table|, s.kv[id].Width())
    ensures Firm(Moved(s, id, false, rows), reserved, batch, exempt, cfg)
  {
    hide Inv, AllocateRows, Sole, Orderly, Clear;
    var next, m := Moved(s, id, false, rows), Migration(false, id, s.kv[id].table, rows.table);
    MigrationFacts(s, id, false, cfg);
    RowsFacts(s, id, false, rows, cfg);
    NotInBatch(s.kv, next.kv, id, reserved);
    SoleFrame(s, next, reserved, cfg);
    forall k | 0 <= k < |s.migrations| ensures Clear(s.migrations[k], m) {
      ClearIn(s, k, m, batch, cfg);
    }
    OrderlyPush(s.migrations, m);
    forall k | 0 <= k < |next.migrations| && !next.migrations[k].toCold ensures Seated(next, next.migrations[k], batch) {
      if k < |s.migrations| {
        assert Seated(s, s.migrations[k], batch);
      }
    }
    forall k, j | 0 <= k < |next.migrations| && !next.migrations[k].toCold && j in next.kv && next.kv[j].tier.Hot?
        && j !in batch && j !in exempt
      ensures Foreign(next, next.migrations[k], j)
    {
      if k < |s.migrations| {
        assert Foreign(s, s.migrations[k], j);
      } else {
        FreshForeign(s, j, rows.table, cfg);
      }
    }
  }

  lemma ClearIn(s: State, k: nat, m: Migration, batch: set<nat>, cfg: Config)
    requires Inv(s, cfg) && k < |s.migrations| && !m.toCold && forall b :: b in Cells(m.destination) ==> b !in s.hot.refs
    requires !s.migrations[k].toCold ==> Seated(s, s.migrations[k], batch)
    ensures Clear(s.migrations[k], m)
  {
    hide Inv, Seated;
    if !s.migrations[k].toCold {
      forall b | b in Cells(s.migrations[k].destination) ensures b in s.hot.refs {
        SeatedHeld(s, s.migrations[k], batch, b, cfg);
      }
    }
  }

  lemma FreshForeign(s: State, j: nat, table: Table, cfg: Config)
    requires Inv(s, cfg) && j in s.kv && s.kv[j].tier.Hot? && forall b :: b in Cells(table) ==> b !in s.hot.refs
    ensures forall b :: b in Cells(s.kv[j].table) ==> b !in Cells(table)
  {
    hide Inv;
    forall b | b in Cells(s.kv[j].table) ensures b in s.hot.refs {
      var l, o := CellOfTable(s.kv[j].table, b);
      HeldCounts(s, cfg, j, l, o);
    }
  }

  lemma {:induction false} MigrateAllFirm(s: State, ids: seq<nat>, toCold: bool, mems: Mems, frontier: map<nat, nat>,
                                          reserved: seq<Slice>, batch: set<nat>, exempt: set<nat>, cfg: Config)
    requires Good(s, mems, frontier, reserved, exempt, cfg) && Movable(s, ids, toCold, cfg) && MigrateAll(s, ids, toCold).Some?
    requires forall k :: 0 <= k < |ids| ==> ids[k] !in InBatch(reserved) && (toCold ==> ids[k] !in exempt)
    requires Firm(s, reserved, batch, exempt, cfg) && InBatch(reserved) <= batch
    requires forall k :: 0 <= k < |ids| ==> if toCold then ids[k] !in batch && ids[k] !in exempt else ids[k] in batch
    ensures Firm(MigrateAll(s, ids, toCold).value, reserved, batch, exempt, cfg)
    decreases |ids|
  {
    hide Good, Migrate, Movable, Firm;
    if ids != [] {
      GoodInv(s, mems, frontier, reserved, exempt, cfg);
      FirstMovable(s, ids, toCold, cfg);
      var rows := MigrateExact(s, ids[0], toCold, cfg);
      var mid := MigrateFirst(s, ids, toCold, mems, frontier, reserved, exempt, cfg);
      if toCold {
        OutFirm(s, ids[0], rows, reserved, batch, exempt, cfg);
      } else {
        InFirm(s, ids[0], rows, reserved, batch, exempt, cfg);
      }
      MigrateAllFirm(mid, ids[1..], toCold, mems, frontier, reserved, batch, exempt, cfg);
    }
  }

  // ------------------------------------------------------------------- growth

  /** A request of the batch without a slice yet gets more blocks. */
  lemma GrownFirm(s: State, next: State, id: nat, reserved: seq<Slice>, batch: set<nat>, exempt: set<nat>, cfg: Config)
    requires Firm(s, reserved, batch, exempt, cfg) && id in s.kv && id in batch && id !in InBatch(reserved)
    requires next.migrations == s.migrations && next.kv.Keys == s.kv.Keys && forall j :: j in s.kv && j != id ==> next.kv[j] == s.kv[j]
    requires next.kv[id].tier == s.kv[id].tier && Repeats(s.kv[id].table, next.kv[id].table)
    ensures Firm(next, reserved, batch, exempt, cfg)
  {
    hide Sole, Orderly, Seated, Repeats;
    NotInBatch(s.kv, next.kv, id, reserved);
    SoleFrame(s, next, reserved, cfg);
    forall k | 0 <= k < |next.migrations| && !next.migrations[k].toCold ensures Seated(next, next.migrations[k], batch) {
      SeatedGrown(s, next, id, s.migrations[k], batch);
    }
    forall k, j | 0 <= k < |next.migrations| && !next.migrations[k].toCold && j in next.kv && next.kv[j].tier.Hot?
        && j !in batch && j !in exempt
      ensures Foreign(next, next.migrations[k], j)
    {
      assert Foreign(s, s.migrations[k], j);
    }
  }

  lemma SeatedGrown(s: State, next: State, id: nat, m: Migration, batch: set<nat>)
    requires Seated(s, m, batch) && next.kv.Keys == s.kv.Keys && id in s.kv && forall j :: j in s.kv && j != id ==> next.kv[j] == s.kv[j]
    requires next.kv[id].tier == s.kv[id].tier && Repeats(s.kv[id].table, next.kv[id].table)
    ensures Seated(next, m, batch)
  {
    hide Repeats;
    if m.request == id {
      RepeatsOn(m.destination, s.kv[id].table, next.kv[id].table);
    }
  }

  lemma RepeatsOn(a: Table, b: Table, c: Table)
    requires Repeats(a, b) && Repeats(b, c)
    ensures Repeats(a, c)
  {
  }

  lemma GrowRepeats(s: State, id: nat, grow: nat, cfg: Config)
    requires Inv(s, cfg) && id in s.kv && GrowTable(s, id, grow).Some?
    ensures var next := GrowTable(s, id, grow).value;
      && GrewOnly(s, next, id) && Repeats(s.kv[id].table, next.kv[id].table)
  {
    hide Inv, GrowTable, Extends;
    GrowFree(s, id, grow, cfg);
    if grow == 0 {
      NoGrowth(s, id);
    } else {
      var rows := GrowExact(s, id, grow, cfg);
      GrownFacts(s, id, rows.table, grow, cfg);
      InvShape(s, id, cfg);
    }
  }

  lemma InvShape(s: State, id: nat, cfg: Config)
    requires Inv(s, cfg) && id in s.kv
    ensures Shaped(s.kv[id], cfg)
  {
  }

  /** A new slice writes blocks that are its request's alone. */
  lemma SlicedFirm(s: State, slice: Slice, mems: Mems, frontier: map<nat, nat>, reserved: seq<Slice>, batch: set<nat>,
                   exempt: set<nat>, cfg: Config)
    requires Good(s, mems, frontier, reserved, exempt, cfg) && Continues(s, frontier, reserved, slice, cfg)
    requires Firm(s, reserved, batch, exempt, cfg)
    ensures Firm(s, reserved + [slice], batch, exempt, cfg)
  {
    hide Inv, Orderly, Seated, Foreign, OneWriter, AllRead, EntriesHold, Clean, Covering, Exclusive, Continues;
    var longer := reserved + [slice];
    GoodInv(s, mems, frontier, reserved, exempt, cfg);
    ContinuesHot(s, frontier, reserved, slice, cfg);
    NotYet(s, frontier, reserved, slice, cfg);
    forall i, j | 0 <= i < |longer| && 0 <= j < |longer| ensures OneWriter(s, longer[i], longer[j], cfg.blockTokens) {
      if i < |reserved| && j < |reserved| {
        assert OneWriter(s, reserved[i], reserved[j], cfg.blockTokens);
      } else {
        var other := longer[if i < |reserved| then i else j];
        SlicedAlone(s, slice, other, frontier, reserved, cfg);
      }
    }
    forall i, j | 0 <= i < j < |longer| ensures longer[i].request != longer[j].request {
      if j < |reserved| {
        assert reserved[i].request != reserved[j].request;
      }
    }
  }

  lemma NotYet(s: State, frontier: map<nat, nat>, reserved: seq<Slice>, slice: Slice, cfg: Config)
    requires Continues(s, frontier, reserved, slice, cfg)
    ensures forall i :: 0 <= i < |reserved| ==> reserved[i].request != slice.request
  {
    forall i | 0 <= i < |reserved| ensures reserved[i].request != slice.request {
      assert reserved[i].request in InBatch(reserved);
    }
  }

  lemma SlicedAlone(s: State, slice: Slice, other: Slice, frontier: map<nat, nat>, reserved: seq<Slice>, cfg: Config)
    requires Inv(s, cfg) && frontier.Keys == s.kv.Keys && Exclusive(s, frontier, cfg) && Continues(s, frontier, reserved, slice, cfg)
    requires slice.request in s.kv && BatchOk(s, frontier, reserved) && (other == slice || other in reserved)
    ensures OneWriter(s, slice, other, cfg.blockTokens) && OneWriter(s, other, slice, cfg.blockTokens)
  {
    hide Inv, Exclusive, Continues, Lands;
    NotYet(s, frontier, reserved, slice, cfg);
    forall b, x, x', cell, cell' | Puts(s, slice, cfg.blockTokens, b, x, cell) && Puts(s, other, cfg.blockTokens, b, x', cell')
      ensures slice == other && cell.layer == cell'.layer && cell.ordinal == cell'.ordinal
    {
      WritesAreExclusive(s, frontier, reserved, slice, cfg, b, x, cell);
      PutsIn(s, other, cfg.blockTokens, b, x', cell');
    }
  }

  lemma PutsIn(s: State, slice: Slice, blockTokens: nat, b: nat, x: nat, cell: Cell)
    requires Puts(s, slice, blockTokens, b, x, cell)
    ensures var table := s.kv[slice.request].table;
      b in Cells(table) && cell.layer < |table| && cell.ordinal < |table[cell.layer]| && table[cell.layer][cell.ordinal] == b
  {
    CellIn(s.kv[slice.request].table, cell.layer, cell.ordinal);
  }

  // -------------------------------------------------------------- reservation

  lemma NewFirm(s: State, batch: nat, slice: Slice, mems: Mems, frontier: map<nat, nat>, reserved: seq<Slice>, ids: set<nat>,
                exempt: set<nat>, cfg: Config)
    requires cfg.Valid() && Good(s, mems, frontier, reserved, exempt, cfg) && Next(s, frontier, reserved, slice)
    requires ReserveOne(s, batch, slice, cfg).Some? && Firm(s, reserved, ids, exempt, cfg) && slice.request in ids
    ensures Firm(ReserveOne(s, batch, slice, cfg).value, reserved + [slice], ids, exempt, cfg)
  {
    hide Good, Inv, GrowTable, PublishFor, Continues, Firm, Repeats;
    var id := slice.request;
    GoodInv(s, mems, frontier, reserved, exempt, cfg);
    ReserveOneExact(s, batch, slice, cfg);
    var grow := Grow(s.kv[id], slice.End(), cfg.blockTokens);
    var grown := GrowTable(s, id, grow).value;
    GrowRepeats(s, id, grow, cfg);
    GrowInv(s, id, grow, cfg);
    GrownFirm(s, grown, id, reserved, ids, exempt, cfg);
    if grow > 0 {
      GrowGood(s, id, grow, mems, frontier, reserved, exempt, cfg);
    } else {
      NoGrowth(s, id);
    }
    MarkGood(grown, id, batch, mems, frontier, reserved, exempt, cfg);
    var marked := Marked(grown, id, batch);
    SameFirm(grown, marked, reserved, ids, exempt, cfg);
    WiderCovers(s.kv[id], marked.kv[id], slice.End(), cfg);
    ContinuesMarked(s, marked, frontier, reserved, slice, cfg);
    SlicedFirm(marked, slice, mems, frontier, reserved, ids, exempt, cfg);
    var next := ReserveOne(s, batch, slice, cfg).value;
    PublishedSame(marked, id, slice.End(), s.kv[id].request.arrival, cfg);
    SameFirm(marked, next, reserved + [slice], ids, exempt, cfg);
  }

  lemma PublishedSame(s: State, id: nat, end: nat, now: nat, cfg: Config)
    requires id in s.kv && cfg.Valid()
    ensures PublishFor(s, id, end, now, true, cfg).Some? ==> SameHoldings(s, PublishFor(s, id, end, now, true, cfg).value)
  {
    hide Publish;
  }

  lemma AgainFirm(s: State, batch: nat, slice: Slice, mems: Mems, frontier: map<nat, nat>, reserved: seq<Slice>, ids: set<nat>,
                  exempt: set<nat>, cfg: Config)
    requires cfg.Valid() && Good(s, mems, frontier, reserved, exempt, cfg) && slice in reserved && slice.count > 0
    requires Firm(s, reserved, ids, exempt, cfg)
    ensures ReserveOne(s, batch, slice, cfg).Some? && Firm(ReserveOne(s, batch, slice, cfg).value, reserved, ids, exempt, cfg)
  {
    hide Good, Inv, GrowTable, PublishFor, Firm;
    var id := slice.request;
    ReservedCovered(s, mems, frontier, reserved, exempt, slice, cfg);
    ReserveAgainGood(s, batch, slice, mems, frontier, reserved, exempt, cfg);
    NoGrowth(s, id);
    var marked := Marked(s, id, batch);
    SameFirm(s, marked, reserved, ids, exempt, cfg);
    PublishedSame(marked, id, slice.End(), s.kv[id].request.arrival, cfg);
    SameFirm(marked, ReserveOne(s, batch, slice, cfg).value, reserved, ids, exempt, cfg);
  }

  lemma {:induction false} AgainAllFirm(s: State, batch: nat, slices: seq<Slice>, mems: Mems, frontier: map<nat, nat>,
                                        reserved: seq<Slice>, ids: set<nat>, exempt: set<nat>, cfg: Config)
    requires cfg.Valid() && Good(s, mems, frontier, reserved, exempt, cfg) && Firm(s, reserved, ids, exempt, cfg)
    requires forall i :: 0 <= i < |slices| ==> slices[i] in reserved && slices[i].count > 0
    ensures ReserveAll(s, batch, slices, cfg).Some? && Firm(ReserveAll(s, batch, slices, cfg).value, reserved, ids, exempt, cfg)
    decreases |slices|
  {
    hide Good, ReserveOne, SameShapes, Firm;
    if slices != [] {
      AgainFirm(s, batch, slices[0], mems, frontier, reserved, ids, exempt, cfg);
      var mid := AgainFirst(s, batch, slices[0], mems, frontier, reserved, exempt, cfg);
      AgainAllFirm(mid, batch, slices[1..], mems, frontier, reserved, ids, exempt, cfg);
    }
  }

  lemma {:induction false} NewAllFirm(s: State, batch: nat, slices: seq<Slice>, mems: Mems, frontier: map<nat, nat>,
                                      reserved: seq<Slice>, ids: set<nat>, exempt: set<nat>, cfg: Config)
    requires cfg.Valid() && Good(s, mems, frontier, reserved, exempt, cfg) && AllNext(s, frontier, reserved, slices)
    requires ReserveAll(s, batch, slices, cfg).Some? && Firm(s, reserved, ids, exempt, cfg)
    requires forall i :: 0 <= i < |slices| ==> slices[i].request in ids
    ensures Firm(ReserveAll(s, batch, slices, cfg).value, reserved + slices, ids, exempt, cfg)
    decreases |slices|
  {
    hide Good, ReserveOne, AllNext, Firm;
    if slices == [] {
      assert reserved + slices == reserved;
    } else {
      var mid := NewFirst(s, batch, slices, mems, frontier, reserved, exempt, cfg);
      NextFirst(s, frontier, reserved, slices);
      NewFirm(s, batch, slices[0], mems, frontier, reserved, ids, exempt, cfg);
      NewAllFirm(mid, batch, slices[1..], mems, Advanced(frontier, slices[0]), reserved + [slices[0]], ids, exempt, cfg);
      assert reserved + [slices[0]] + slices[1..] == reserved + slices;
    }
  }

  /** The planned evictions and migrations. */
  lemma RoomFirm(s: State, reserved: seq<Slice>, more: seq<Slice>, mems: Mems, frontier: map<nat, nat>, exempt: set<nat>, cfg: Config)
    returns (s3: State)
    requires cfg.Valid() && Good(s, mems, frontier, reserved, exempt, cfg) && MakePlan(s, reserved + more, cfg).Feasible?
    requires forall i :: 0 <= i < |reserved + more| ==> (reserved + more)[i].count > 0
    requires exempt <= InBatch(reserved + more) && InBatch(reserved) <= InBatch(reserved + more)
    requires Firm(s, reserved, InBatch(reserved + more), exempt, cfg)
    ensures var plan := MakePlan(s, reserved + more, cfg);
      && EvictKeys(s, plan.evictions, cfg).Some?
      && MigrateAll(EvictKeys(s, plan.evictions, cfg).value, plan.victims, true).Some?
      && MigrateAll(MigrateAll(EvictKeys(s, plan.evictions, cfg).value, plan.victims, true).value, plan.swapIn, false) == Some(s3)
    ensures Good(s3, mems, frontier, reserved, exempt, cfg) && AllHot(s3, reserved + more)
    ensures GrowthSum(s3.kv, reserved + more, cfg) <= s3.hot.Free() && SameRequests(s, s3)
    ensures Firm(s3, reserved, InBatch(reserved + more), exempt, cfg)
  {
    hide Inv, Good, Needed, MakePlan, EvictKeys, MigrateAll, Movable, Chosen, AllHot, Firm, SameHoldings, InBatch;
    var slices := reserved + more;
    var plan := MakePlan(s, slices, cfg);
    s3 := RoomGood(s, reserved, more, mems, frontier, exempt, cfg);
    GoodInv(s, mems, frontier, reserved, exempt, cfg);
    FeasibleMeans(s, slices, cfg);
    var s2 := VictimsMakeRoom(s, slices, cfg);
    var s1 := EvictKeys(s, plan.evictions, cfg).value;
    EvictKeysGood(s, plan.evictions, mems, frontier, reserved, exempt, cfg);
    EvictedKeeps(s, plan.evictions, cfg);
    EvictedSame(s, s1);
    SameFirm(s, s1, reserved, InBatch(slices), exempt, cfg);
    VictimsOutside(s, s1, reserved, more, plan, cfg);
    MigrateAllGood(s1, plan.victims, true, mems, frontier, reserved, exempt, cfg);
    MigrateAllFirm(s1, plan.victims, true, mems, frontier, reserved, InBatch(slices), exempt, cfg);
    BatchUntouched(s, s2, slices, plan.victims);
    SwapMovable(s, s2, slices, cfg);
    ReservedHot(s, mems, frontier, reserved, exempt, cfg);
    SwapInsOutside(s, reserved, more);
    SwapInsInside(s, slices);
    MigrateAllFirm(s2, plan.swapIn, false, mems, frontier, reserved, InBatch(slices), exempt, cfg);
  }

  lemma EvictedSame(s: State, next: State)
    requires next.kv == s.kv && next.migrations == s.migrations
    ensures SameHoldings(s, next)
  {
  }

  lemma SwapInsInside(s: State, slices: seq<Slice>)
    requires Known(s, slices)
    ensures forall k :: 0 <= k < |SwapIns(s.kv, slices)| ==> SwapIns(s.kv, slices)[k] in InBatch(slices)
  {
    SwapInsChosen(s.kv, slices);
  }

  /** A batch is reserved, or grows. */
  lemma ReserveFirm(s: State, batch: nat, reserved: seq<Slice>, more: seq<Slice>, mems: Mems, frontier: map<nat, nat>,
                    exempt: set<nat>, cfg: Config)
    requires cfg.Valid() && Good(s, mems, frontier, reserved, exempt, cfg) && Reserve(s, batch, reserved + more, cfg).Some?
    requires forall i :: 0 <= i < |reserved + more| ==> (reserved + more)[i].count > 0
    requires Continuing(s, frontier, more) && exempt <= InBatch(reserved + more)
    requires Firm(s, reserved, InBatch(reserved), exempt, cfg)
    ensures Firm(Reserve(s, batch, reserved + more, cfg).value, reserved + more, InBatch(reserved + more), {}, cfg)
  {
    hide Inv, Good, Needed, MakePlan, ReserveAll, EvictKeys, MigrateAll, AdvancedAll, Continuing, Firm, GrowthOf, AllHot, SameShapes, AllNext, InBatch;
    var slices := reserved + more;
    GoodInv(s, mems, frontier, reserved, exempt, cfg);
    FeasibleMeans(s, slices, cfg);
    BatchWider(reserved, more);
    LooserFirm(s, reserved, exempt, InBatch(reserved), InBatch(slices), cfg);
    var s3 := RoomFirm(s, reserved, more, mems, frontier, exempt, cfg);
    SlicesGood(s, s3, batch, reserved, more, mems, frontier, exempt, cfg);
    AllHotMeans(s3, reserved, more);
    ReserveAgainAll(s3, batch, reserved, mems, frontier, reserved, exempt, cfg);
    AgainAllFirm(s3, batch, reserved, mems, frontier, reserved, InBatch(slices), exempt, cfg);
    var mid := ReserveAll(s3, batch, reserved, cfg).value;
    ReserveAllSplit(s3, batch, reserved, more, cfg);
    GoodInv(s3, mems, frontier, reserved, exempt, cfg);
    AddedNext(s, s3, mid, frontier, reserved, more);
    NewAllFirm(mid, batch, more, mems, frontier, reserved, InBatch(slices), exempt, cfg);
    var s4 := ReserveAll(s3, batch, slices, cfg).value;
    WiderFirm(s4, slices, InBatch(slices), InBatch(slices), exempt, cfg);
    SameFirm(s4, s4.(pendingBatch := Some(batch)), slices, InBatch(slices), {}, cfg);
  }

  lemma BatchWider(reserved: seq<Slice>, more: seq<Slice>)
    ensures InBatch(reserved) <= InBatch(reserved + more)
    ensures forall i :: 0 <= i < |more| ==> more[i].request in InBatch(reserved + more)
  {
    var slices := reserved + more;
    forall i | 0 <= i < |more| ensures more[i].request in InBatch(slices) {
      assert slices[|reserved| + i] == more[i];
    }
    forall id | id in InBatch(reserved) ensures id in InBatch(slices) {
      var i :| 0 <= i < |reserved| && reserved[i].request == id;
      assert slices[i] == reserved[i];
    }
  }

  lemma LooserFirm(s: State, reserved: seq<Slice>, exempt: set<nat>, batch: set<nat>, wider: set<nat>, cfg: Config)
    requires Firm(s, reserved, batch, exempt, cfg) && batch <= wider
    ensures Firm(s, reserved, wider, exempt, cfg)
  {
    hide Sole, Clear, Matching, Repeats;
    forall k | 0 <= k < |s.migrations| && !s.migrations[k].toCold ensures Seated(s, s.migrations[k], wider) {
      assert Seated(s, s.migrations[k], batch);
    }
  }

  // -------------------------------------------------------------- other calls

  /** A new request is exempt until it joins the batch. */
  lemma AdmitFirm(s: State, next: State, id: nat, reserved: seq<Slice>, batch: set<nat>, cfg: Config)
    requires Firm(s, reserved, batch, {}, cfg) && id !in s.kv && InBatch(reserved) <= batch && id !in batch
    requires next.migrations == s.migrations && next.kv.Keys == s.kv.Keys + {id} && forall j :: j in s.kv ==> next.kv[j] == s.kv[j]
    ensures Firm(next, reserved, batch, {id}, cfg)
  {
    hide Orderly, OneWriter, Sole;
    forall i | 0 <= i < |reserved| ensures reserved[i].request != id {
      assert reserved[i].request in InBatch(reserved);
    }
    assert SameTables(s.kv, next.kv, reserved);
    SoleFrame(s, next, reserved, cfg);
    forall k | 0 <= k < |next.migrations| && !next.migrations[k].toCold ensures Seated(next, next.migrations[k], batch) {
      assert Seated(s, s.migrations[k], batch);
    }
    forall k, j | 0 <= k < |next.migrations| && !next.migrations[k].toCold && j in next.kv && next.kv[j].tier.Hot?
        && j !in batch && j !in {id}
      ensures Foreign(next, next.migrations[k], j)
    {
      assert Foreign(s, s.migrations[k], j);
    }
  }

  /** A request outside the batch is gone. */
  lemma ReleaseFirm(s: State, next: State, id: nat, reserved: seq<Slice>, batch: set<nat>, exempt: set<nat>, cfg: Config)
    requires Firm(s, reserved, batch, exempt, cfg) && id in s.kv && id !in batch && InBatch(reserved) <= batch
    requires next.migrations == s.migrations && next.kv == s.kv - {id}
    ensures Firm(next, reserved, batch, exempt - {id}, cfg)
  {
    hide Orderly, OneWriter, Sole;
    forall i | 0 <= i < |reserved| ensures reserved[i].request != id {
      assert reserved[i].request in InBatch(reserved);
    }
    assert SameTables(s.kv, next.kv, reserved);
    SoleFrame(s, next, reserved, cfg);
    forall k | 0 <= k < |next.migrations| && !next.migrations[k].toCold ensures Seated(next, next.migrations[k], batch) {
      assert Seated(s, s.migrations[k], batch);
    }
    forall k, j | 0 <= k < |next.migrations| && !next.migrations[k].toCold && j in next.kv && next.kv[j].tier.Hot?
        && j !in batch && j !in exempt - {id}
      ensures Foreign(next, next.migrations[k], j)
    {
      assert Foreign(s, s.migrations[k], j);
    }
  }

  /** Between batches nothing is on its way in. */
  lemma PreemptFirm(s: State, id: nat, cfg: Config)
    requires Inv(s, cfg) && Firm(s, [], {}, {}, cfg) && Preempt(s, id, cfg).Preempted?
    ensures Firm(Preempt(s, id, cfg).state, [], {}, {}, cfg)
  {
    hide Inv, AllocateRows, Firm;
    var next := Preempt(s, id, cfg).state;
    if Preempt(s, id, cfg).mode.SwapOut? {
      var rows := MigrateExact(s, id, true, cfg);
      OutFirm(s, id, rows, [], {}, {}, cfg);
    } else {
      DroppedFirm(s, next, id, cfg);
    }
  }

  lemma DroppedFirm(s: State, next: State, id: nat, cfg: Config)
    requires Firm(s, [], {}, {}, cfg) && next.migrations == s.migrations && id in s.kv
    requires next.kv.Keys == s.kv.Keys && forall j :: j in s.kv && j != id ==> next.kv[j] == s.kv[j]
    ensures Firm(next, [], {}, {}, cfg)
  {
    hide Orderly;
    assert forall k :: 0 <= k < |s.migrations| && !s.migrations[k].toCold ==> Seated(s, s.migrations[k], {});
    assert forall k :: 0 <= k < |next.migrations| ==> next.migrations[k].toCold;
  }

  /** A batch has run. */
  lemma ExecutedFirm(s: State, cfg: Config)
    requires s.migrations == []
    ensures Firm(s, [], {}, {}, cfg)
  {
  }

  // --------------------------------------------------------------------- runs

  /** The batch in the making keeps its writes apart. */
  ghost predicate Tidied(w: World, cfg: Config)
  {
    Firm(w.s, w.reserved, InBatch(w.reserved), w.arriving, cfg)
  }

  lemma OpeningTidied(hotBlocks: nat, coldBlocks: nat, mems: Mems, cfg: Config)
    ensures Tidied(Opening(hotBlocks, coldBlocks, mems), cfg)
  {
    ExecutedFirm(Start(hotBlocks, coldBlocks), cfg);
    assert InBatch([]) == {};
  }

  lemma AdmitMigrations(s: State, request: Request, keys: seq<Key>, now: nat, cfg: Config)
    requires cfg.Valid() && request.Valid() && Admit(s, request, keys, now, cfg).Some?
    ensures Admit(s, request, keys, now, cfg).value.migrations == s.migrations
  {
    hide Lookup, HitTable;
  }

  lemma ReleaseKeeps(s: State, id: nat)
    requires Release(s, id).Some?
    ensures id in s.kv && Release(s, id).value.migrations == s.migrations && Release(s, id).value.kv == s.kv - {id}
  {
    hide ReleaseOrder;
  }

  lemma InBatchKnown(w: World, cfg: Config)
    requires Sound(w, cfg)
    ensures forall id :: id in InBatch(w.reserved) ==> id in w.s.kv
  {
  }

  /** Every call keeps the batch's writes apart. */
  lemma ActTidied(w: World, action: Action, cfg: Config)
    requires cfg.Valid() && Sound(w, cfg) && Tidied(w, cfg) && Act(w, action, cfg).Some?
    ensures Tidied(Act(w, action, cfg).value, cfg)
  {
    hide Good, Inv, Admit, Reserve, Complete, Preempt, Release, Continuing, AdvancedAll, Future, KeysFor, HitFront, Sound, Firm, InBatch;
    SoundMeans(w, cfg);
    GoodInv(w.s, w.mems, w.frontier, w.reserved, w.arriving, cfg);
    InBatchKnown(w, cfg);
    NoSlices();
    match action
    case Admits(request, now) =>
      var keys := KeysFor(request, cfg.blockTokens);
      AdmitsFacts(w, request, now, cfg);
      AdmitMigrations(w.s, request, keys, now, cfg);
      AdmitFirm(w.s, Admit(w.s, request, keys, now, cfg).value, request.id, w.reserved, InBatch(w.reserved), cfg);
    case Reserves(batch, more) =>
      ReserveFirm(w.s, batch, w.reserved, more, w.mems, w.frontier, w.arriving, cfg);
    case Executes(finish) =>
      CompletePending(w.s.(migrations := [], pendingBatch := None), w.reserved, finish, cfg);
      ExecutedFirm(Act(w, action, cfg).value.s, cfg);
    case Preempts(id) =>
      PreemptFirm(w.s, id, cfg);
    case Releases(id) =>
      ReleaseKeeps(w.s, id);
      ReleaseFirm(w.s, Release(w.s, id).value, id, w.reserved, InBatch(w.reserved), w.arriving, cfg);
  }

  lemma NoSlices()
    ensures InBatch([]) == {}
  {
  }

  lemma {:induction false} PlayTidied(w: World, actions: seq<Action>, cfg: Config)
    requires cfg.Valid() && Sound(w, cfg) && Tidied(w, cfg) && Play(w, actions, cfg).Some?
    ensures Tidied(Play(w, actions, cfg).value, cfg) && Sound(Play(w, actions, cfg).value, cfg)
    decreases |actions|
  {
    hide Sound, Tidied, Act;
    if actions != [] {
      ActSound(w, actions[0], cfg);
      ActTidied(w, actions[0], cfg);
      PlayTidied(Act(w, actions[0], cfg).value, actions[1..], cfg);
    }
  }
}
