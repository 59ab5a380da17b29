/** Block tables: one row of block numbers per layer, and the multiset of their cells. */
module Tables {
  type Table = seq<seq<nat>>

  ghost function Cells(table: Table): (cells: multiset<nat>)
  {
    if table == [] then multiset{} else multiset(table[0]) + Cells(table[1..])
  }

  ghost predicate Rectangular(table: Table, layers: nat, width: nat)
  {
    && |table| == layers
    && forall l :: 0 <= l < layers ==> |table[l]| == width
  }

  /** Every listed block is a cell. */
  lemma {:induction false} CellIn(table: Table, l: nat, o: nat)
    requires l < |table| && o < |table[l]|
    ensures table[l][o] in Cells(table)
  {
    if l == 0 {
      assert table[0][o] in multiset(table[0]);
    } else {
      CellIn(table[1..], l - 1, o);
    }
  }

  /** Every cell is listed somewhere. */
  lemma {:induction false} CellAt(table: Table, b: nat) returns (l: nat, o: nat)
    requires b in Cells(table)
    ensures l < |table| && o < |table[l]| && table[l][o] == b
  {
    if b in table[0] {
      l := 0;
      o :| o < |table[0]| && table[0][o] == b;
    } else {
      assert b !in multiset(table[0]);
      l, o := CellAt(table[1..], b);
      l := l + 1;
    }
  }

  lemma {:induction false} RowTwice(row: seq<nat>, o: nat, o': nat)
    requires o < o' < |row| && row[o] == row[o']
    ensures multiset(row)[row[o]] >= 2
  {
    assert row == row[..o] + [row[o]] + row[o + 1..o'] + [row[o']] + row[o' + 1..];
  }

  /** A block listed at two positions has at least two cells. */
  lemma {:induction false} CellTwice(table: Table, l: nat, o: nat, l': nat, o': nat)
    requires l < |table| && o < |table[l]| && l' < |table| && o' < |table[l']|
    requires l < l' || (l == l' && o < o')
    requires table[l][o] == table[l'][o']
    ensures Cells(table)[table[l][o]] >= 2
  {
    if l > 0 {
      CellTwice(table[1..], l - 1, o, l' - 1, o');
    } else if l' == 0 {
      RowTwice(table[0], o, o');
    } else {
      CellIn(table[1..], l' - 1, o');
      assert table[0][o] in multiset(table[0]);
    }
  }

  lemma {:induction false} CellsAppend(a: Table, b: Table)
    ensures Cells(a + b) == Cells(a) + Cells(b)
  {
    if a == [] {
      assert a + b == b;
    } else {
      assert (a + b)[1..] == a[1..] + b;
      CellsAppend(a[1..], b);
    }
  }

  /** Extending every row adds exactly the cells of the extension. */
  lemma {:induction false} CellsZip(a: Table, b: Table, c: Table)
    requires |a| == |b| == |c|
    requires forall l :: 0 <= l < |a| ==> c[l] == a[l] + b[l]
    ensures Cells(c) == Cells(a) + Cells(b)
  {
    if a != [] {
      CellsZip(a[1..], b[1..], c[1..]);
    }
  }

  lemma {:induction false} CellsSize(table: Table, layers: nat, width: nat)
    requires Rectangular(table, layers, width)
    ensures |Cells(table)| == layers * width
  {
    if layers > 0 {
      var rest := table[1..];
      CellsSize(rest, layers - 1, width);
      assert |multiset(table[0])| == width;
      OneRowMore(layers, width);
    }
  }

  lemma OneRowMore(layers: nat, width: nat)
    requires layers > 0
    ensures layers * width == width + (layers - 1) * width
  {
  }

  // --------------------------------------------------------- tables by holder

  /** The cells of all tables in a map, whatever the order they are visited in. */
  ghost function Sum<K>(tables: map<K, Table>): (cells: multiset<nat>)
    decreases |tables|
  {
    if tables == map[] then multiset{}
    else
      var k := Pick(tables);
      Cells(tables[k]) + Sum(tables - {k})
  }

  ghost function Pick<K>(tables: map<K, Table>): (k: K)
    requires tables != map[]
    ensures k in tables
  {
    var k :| k in tables;
    k
  }

  lemma {:induction false} SumRemove<K>(tables: map<K, Table>, k: K)
    requires k in tables
    ensures Sum(tables) == Cells(tables[k]) + Sum(tables - {k})
    decreases |tables|
  {
    var j := Pick(tables);
    if j != k {
      var a, c := tables - {j}, tables - {k};
      SumRemove(a, k);
      SumRemove(c, j);
      assert a - {k} == c - {j};
      Swap(Cells(tables[j]), Cells(tables[k]), Sum(a - {k}));
    }
  }

  lemma Swap(a: multiset<nat>, b: multiset<nat>, rest: multiset<nat>)
    ensures a + (b + rest) == b + (a + rest)
  {
  }

  lemma SumUpdate<K>(tables: map<K, Table>, k: K, table: Table)
    ensures Sum(tables[k := table]) == Cells(table) + Sum(tables - {k})
  {
    SumRemove(tables[k := table], k);
    assert tables[k := table] - {k} == tables - {k};
  }

}
