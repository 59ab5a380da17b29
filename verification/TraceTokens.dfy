/** The encoder itself: it visits the requests in lexical order of their hashes, keeping one path. */
module TraceTokens {
  import opened Modular
  import opened TrieEncoding

  // ------------------------------------------------------------------- tokens

  /** Token x of a request: the block's code first, then the block's body, which is a fixed
      sequence for every hash. */
  function TokenAt(row: Row, codes: seq<nat>, block: nat, body: (nat, nat) -> nat, x: nat): nat
    requires block > 0 && |codes| == |row.hashes| && x < |row.hashes| * block
  {
    InBlocks(x, block, |row.hashes|);
    if x % block == 0 then codes[x / block] else body(row.hashes[x / block], x % block - 1)
  }

  lemma InBlocks(x: nat, block: nat, n: nat)
    requires block > 0
    ensures x < n * block <==> x / block < n
  {
    assert x == x / block * block + x % block;
    MultiplesOrdered(x / block, n, block);
    MultiplesOrdered(n, x / block, block);
  }

  ghost function TokensOf(row: Row, codes: seq<nat>, block: nat, body: (nat, nat) -> nat): (tokens: seq<nat>)
    requires Published(row, block) && |codes| == |row.hashes|
    ensures |tokens| == row.inputTokens
  {
    seq(row.inputTokens, x requires 0 <= x < row.inputTokens => TokenAt(row, codes, block, body, x))
  }

  function Least(a: nat, b: nat): nat
  {
    if a < b then a else b
  }

  /** Two encoded requests share exactly the tokens of their common blocks, cut to their lengths. */
  lemma SharedTokens(a: Row, codeA: seq<nat>, b: Row, codeB: seq<nat>, block: nat, body: (nat, nat) -> nat)
    requires Published(a, block) && Published(b, block) && |codeA| == |a.hashes| && |codeB| == |b.hashes|
    requires Apart(a.hashes, codeA, b.hashes, codeB)
    ensures Common(TokensOf(a, codeA, block, body), TokensOf(b, codeB, block, body))
         == Least(Least(a.inputTokens, b.inputTokens), Common(a.hashes, b.hashes) * block)
  {
    hide TokenAt, Apart;
    var k := Common(a.hashes, b.hashes);
    var m := Least(Least(a.inputTokens, b.inputTokens), k * block);
    var s, t := TokensOf(a, codeA, block, body), TokensOf(b, codeB, block, body);
    forall x | 0 <= x < m ensures s[x] == t[x] {
      SameToken(a, codeA, b, codeB, block, body, x);
    }
    if m < |s| && m < |t| {
      OtherToken(a, codeA, b, codeB, block, body);
    }
    CommonUnique(s, t, m);
  }

  lemma SameToken(a: Row, codeA: seq<nat>, b: Row, codeB: seq<nat>, block: nat, body: (nat, nat) -> nat, x: nat)
    requires block > 0 && |codeA| == |a.hashes| && |codeB| == |b.hashes| && Apart(a.hashes, codeA, b.hashes, codeB)
    requires x < Common(a.hashes, b.hashes) * block && x < |a.hashes| * block && x < |b.hashes| * block
    ensures TokenAt(a, codeA, block, body, x) == TokenAt(b, codeB, block, body, x)
  {
    CommonIs(a.hashes, b.hashes);
    InBlocks(x, block, Common(a.hashes, b.hashes));
  }

  lemma OtherToken(a: Row, codeA: seq<nat>, b: Row, codeB: seq<nat>, block: nat, body: (nat, nat) -> nat)
    requires block > 0 && |codeA| == |a.hashes| && |codeB| == |b.hashes| && Apart(a.hashes, codeA, b.hashes, codeB)
    requires var m := Common(a.hashes, b.hashes) * block; m < |a.hashes| * block && m < |b.hashes| * block
    ensures var m := Common(a.hashes, b.hashes) * block; TokenAt(a, codeA, block, body, m) != TokenAt(b, codeB, block, body, m)
  {
    var k := Common(a.hashes, b.hashes);
    DivModUnique(k * block, block, k, 0);
    InBlocks(k * block, block, |a.hashes|);
    InBlocks(k * block, block, |b.hashes|);
  }

  method EncodeRow(row: Row, codes: seq<nat>, block: nat, body: (nat, nat) -> nat) returns (tokens: seq<nat>)
    requires Published(row, block) && |codes| == |row.hashes|
    ensures tokens == TokensOf(row, codes, block, body)
  {
    hide TokenAt;
    tokens := [];
    for position := 0 to |row.hashes|
      invariant |tokens| == Least(position * block, row.inputTokens)
      invariant forall x :: 0 <= x < |tokens| ==> x < |row.hashes| * block && tokens[x] == TokenAt(row, codes, block, body, x)
    {
      ghost var begin := position * block;
      BlockStart(row, block, position);
      var valid := Least(block, row.inputTokens - position * block);
      var piece := [codes[position]] + seq(valid - 1, i requires 0 <= i => body(row.hashes[position], i));
      forall j | 0 <= j < valid ensures begin + j < |row.hashes| * block && piece[j] == TokenAt(row, codes, block, body, begin + j) {
        BlockToken(row, codes, block, body, position, j);
      }
      tokens := tokens + piece;
    }
  }

  lemma BlockStart(row: Row, block: nat, position: nat)
    requires Published(row, block) && position < |row.hashes|
    ensures position * block < row.inputTokens && (position + 1) * block == position * block + block
  {
    MultiplesOrdered(position, |row.hashes| - 1, block);
  }

  lemma BlockToken(row: Row, codes: seq<nat>, block: nat, body: (nat, nat) -> nat, position: nat, j: nat)
    requires Published(row, block) && |codes| == |row.hashes| && position < |row.hashes| && j < block
    ensures position * block + j < |row.hashes| * block
    ensures TokenAt(row, codes, block, body, position * block + j) == if j == 0 then codes[position] else body(row.hashes[position], j - 1)
  {
    DivModUnique(position * block + j, block, position, j);
    InBlocks(position * block + j, block, |row.hashes|);
  }

  // ------------------------------------------------------------------ sorting

  function Lists(rows: seq<Row>, order: seq<nat>): (lists: seq<seq<nat>>)
    requires forall i :: i in order ==> i < |rows|
    ensures |lists| == |order|
  {
    seq(|order|, k requires 0 <= k < |order| => (assert order[k] in order; rows[order[k]].hashes))
  }

  ghost predicate Order(rows: seq<Row>, order: seq<nat>, n: nat)
  {
    && n <= |rows| && (forall i: nat :: i in order <==> i < n)
    && (forall j, k :: 0 <= j < k < |order| ==> order[j] != order[k])
    && (forall j, k :: 0 <= j < k < |order| && order[j] < |rows| && order[k] < |rows| ==>
          Lexical(rows[order[j]].hashes, rows[order[k]].hashes))
  }

  method SortedOrder(rows: seq<Row>) returns (order: seq<nat>)
    ensures Order(rows, order, |rows|)
  {
    order := [];
    for i := 0 to |rows|
      invariant Order(rows, order, i)
    {
      order := Insert(rows, order, i);
    }
  }

  /** Behind every earlier request that does not come later in lexical order. */
  method Insert(rows: seq<Row>, order: seq<nat>, i: nat) returns (longer: seq<nat>)
    requires i < |rows| && Order(rows, order, i)
    ensures Order(rows, longer, i + 1)
  {
    hide Lexical;
    var at := |order|;
    assert forall k :: 0 <= k < |order| ==> order[k] in order;
    while at > 0 && !Lexical(rows[order[at - 1]].hashes, rows[i].hashes)
      invariant 0 <= at <= |order|
      invariant forall k :: at <= k < |order| ==> Lexical(rows[i].hashes, rows[order[k]].hashes)
    {
      LexicalTotal(rows[order[at - 1]].hashes, rows[i].hashes);
      at := at - 1;
    }
    forall k | 0 <= k < at ensures Lexical(rows[order[k]].hashes, rows[i].hashes) {
      if k < at - 1 {
        OuterCommon(rows[order[k]].hashes, rows[order[at - 1]].hashes, rows[i].hashes);
      }
    }
    longer := order[..at] + [i] + order[at..];
    InsertElements(order, i, at, longer);
    InsertOrder(rows, order, i, at, longer);
  }

  lemma InsertElements(order: seq<nat>, i: nat, at: nat, longer: seq<nat>)
    requires at <= |order| && longer == order[..at] + [i] + order[at..] && i !in order
    requires forall j, k :: 0 <= j < k < |order| ==> order[j] != order[k]
    ensures forall x :: x in longer <==> x == i || x in order
    ensures forall j, k :: 0 <= j < k < |longer| ==> longer[j] != longer[k]
  {
    assert order == order[..at] + order[at..];
    assert forall j :: 0 <= j < |longer| && j != at ==> longer[j] == order[if j < at then j else j - 1];
    assert forall j :: 0 <= j < |order| ==> order[j] in order;
  }

  lemma InsertOrder(rows: seq<Row>, order: seq<nat>, i: nat, at: nat, longer: seq<nat>)
    requires i < |rows| && Order(rows, order, i) && at <= |order| && longer == order[..at] + [i] + order[at..]
    requires forall k :: 0 <= k < at && order[k] < |rows| ==> Lexical(rows[order[k]].hashes, rows[i].hashes)
    requires forall k :: at <= k < |order| && order[k] < |rows| ==> Lexical(rows[i].hashes, rows[order[k]].hashes)
    ensures forall j, k :: 0 <= j < k < |longer| && longer[j] < |rows| && longer[k] < |rows| ==>
      Lexical(rows[longer[j]].hashes, rows[longer[k]].hashes)
  {
    hide Lexical;
  }

  // ----------------------------------------------------------------- branching

  /** Only what was visited matters, not in which order. */
  lemma {:induction false} SiblingIn(lists: seq<seq<nat>>, prefix: seq<nat>, i: nat)
    requires i < |lists| && |lists[i]| > |prefix| && lists[i][..|prefix|] == prefix
    ensures lists[i][|prefix|] in Siblings(lists, prefix)
  {
    if i < |lists| - 1 {
      SiblingIn(lists[..|lists| - 1], prefix, i);
    }
  }

  lemma SameSiblings(a: seq<seq<nat>>, b: seq<seq<nat>>, prefix: seq<nat>)
    requires forall x :: x in a ==> x in b
    ensures Siblings(a, prefix) <= Siblings(b, prefix)
  {
    forall edge | edge in Siblings(a, prefix) ensures edge in Siblings(b, prefix) {
      var i := SiblingAt(a, prefix, edge);
      assert a[i] in b;
      var j :| 0 <= j < |b| && b[j] == a[i];
      SiblingIn(b, prefix, j);
    }
  }

  /** The last visitor of a prefix has seen all its edges. */
  lemma {:induction false} LastVisitor(lists: seq<seq<nat>>, prefix: seq<nat>) returns (k: nat)
    requires Siblings(lists, prefix) != {}
    ensures k < |lists| && |lists[k]| > |prefix| && lists[k][..|prefix|] == prefix
    ensures Siblings(lists[..k + 1], prefix) == Siblings(lists, prefix)
  {
    var n := |lists| - 1;
    if |lists[n]| > |prefix| && lists[n][..|prefix|] == prefix {
      k := n;
      assert lists[..n + 1] == lists;
    } else {
      k := LastVisitor(lists[..n], prefix);
      assert lists[..n][..k + 1] == lists[..k + 1];
    }
  }

  /** Some prefix of the trace branches into more edges than there are free token numbers. */
  ghost predicate Crowded(rows: seq<Row>, vocabSize: nat)
  {
    exists i, l :: 0 <= i < |rows| && 0 <= l < |rows[i].hashes| && Branches(rows, rows[i].hashes, l) + 1 >= vocabSize
  }

  ghost function Branches(rows: seq<Row>, hashes: seq<nat>, l: nat): nat
    requires l <= |hashes|
  {
    |Siblings(seq(|rows|, i requires 0 <= i < |rows| => rows[i].hashes), hashes[..l])|
  }

  // ------------------------------------------------------------------ encoding

  /** The state of the traversal after k requests. */
  ghost predicate Traversed(rows: seq<Row>, order: seq<nat>, k: nat, codes: seq<seq<nat>>)
    requires Order(rows, order, |rows|)
  {
    && k <= |order| && Coded(Lists(rows, order)[..k], codes)
    && (k > 0 ==> Ranked(Lists(rows, order)[..k], codes[k - 1]))
  }

  ghost predicate Stage(rows: seq<Row>, order: seq<nat>, k: nat, codes: seq<seq<nat>>)
    requires Order(rows, order, |rows|)
  {
    k < |codes| && Traversed(rows, order, k + 1, codes[..k + 1])
  }

  lemma StagesStay(rows: seq<Row>, order: seq<nat>, k: nat, codes: seq<seq<nat>>)
    requires Order(rows, order, |rows|) && |codes| == k + 1 && Traversed(rows, order, k + 1, codes)
    requires forall j :: 0 <= j < k ==> Stage(rows, order, j, codes[..k])
    ensures forall j :: 0 <= j <= k ==> Stage(rows, order, j, codes)
  {
    hide Traversed;
    assert codes[..k + 1] == codes;
    forall j | 0 <= j < k ensures Stage(rows, order, j, codes) {
      assert Stage(rows, order, j, codes[..k]);
      assert codes[..k][..j + 1] == codes[..j + 1];
    }
  }

  lemma TraversedMore(rows: seq<Row>, order: seq<nat>, k: nat, codes: seq<seq<nat>>)
    requires Order(rows, order, |rows|) && Traversed(rows, order, k, codes) && k < |order|
    ensures var lists := Lists(rows, order);
      var next := NextCodes(if k == 0 then [] else lists[k - 1], if k == 0 then [] else codes[k - 1], lists[k]);
      Traversed(rows, order, k + 1, codes + [next])
  {
    hide Lexical, Siblings, NextCodes, Apart;
    var lists := Lists(rows, order);
    ListsSorted(rows, order);
    assert lists[..k + 1] == lists[..k] + [lists[k]];
    assert Sorted(lists[..k + 1]);
    if k > 0 {
      assert lists[..k][k - 1] == lists[k - 1] && Lexical(lists[k - 1], lists[k]);
      CodedMore(lists[..k], codes, lists[k]);
    } else {
      assert lists[..0] == [];
    }
    NextRanked(lists[..k], if k == 0 then [] else codes[k - 1], lists[k]);
  }

  lemma ListsSorted(rows: seq<Row>, order: seq<nat>)
    requires Order(rows, order, |rows|)
    ensures Sorted(Lists(rows, order))
  {
    hide Lexical;
    assert forall k :: 0 <= k < |order| ==> order[k] in order;
  }

  /** A code that does not fit the vocabulary means a crowded prefix. */
  lemma TooMany(rows: seq<Row>, order: seq<nat>, k: nat, codes: seq<seq<nat>>, vocabSize: nat, l: nat)
    requires Order(rows, order, |rows|) && Traversed(rows, order, k + 1, codes)
    requires l < |codes[k]| && codes[k][l] >= vocabSize
    ensures Crowded(rows, vocabSize)
  {
    hide Lexical, Siblings, Coded;
    var lists := Lists(rows, order);
    var all := seq(|rows|, i requires 0 <= i < |rows| => rows[i].hashes);
    var i := order[k];
    assert i in order;
    assert lists[..k + 1][k] == lists[k] == rows[i].hashes;
    forall x | x in lists[..k + 1] ensures x in all {
      var j :| 0 <= j < k + 1 && lists[j] == x;
      assert order[j] in order && all[order[j]] == x;
    }
    SameSiblings(lists[..k + 1], all, rows[i].hashes[..l]);
    Subset(Siblings(lists[..k + 1], rows[i].hashes[..l]), Siblings(all, rows[i].hashes[..l]));
    assert Branches(rows, rows[i].hashes, l) + 1 >= vocabSize;
  }

  lemma Subset(a: set<nat>, b: set<nat>)
    requires a <= b
    ensures |a| <= |b|
  {
    assert b == a + (b - a);
  }

  /** If all codes fit, no prefix is crowded. */
  lemma NoneCrowded(rows: seq<Row>, order: seq<nat>, codes: seq<seq<nat>>, vocabSize: nat)
    requires Order(rows, order, |rows|) && |order| == |codes|
    requires forall k :: 0 <= k < |order| ==> Stage(rows, order, k, codes)
    requires forall k, l :: 0 <= k < |codes| && 0 <= l < |codes[k]| ==> codes[k][l] < vocabSize
    requires vocabSize >= 3
    ensures !Crowded(rows, vocabSize)
  {
    forall i, l | 0 <= i < |rows| && 0 <= l < |rows[i].hashes| ensures Branches(rows, rows[i].hashes, l) + 1 < vocabSize {
      BranchesFit(rows, order, codes, vocabSize, i, l);
    }
  }

  lemma BranchesFit(rows: seq<Row>, order: seq<nat>, codes: seq<seq<nat>>, vocabSize: nat, i: nat, l: nat)
    requires Order(rows, order, |rows|) && |order| == |codes| && vocabSize >= 3
    requires forall k :: 0 <= k < |order| ==> Stage(rows, order, k, codes)
    requires forall k, l :: 0 <= k < |codes| && 0 <= l < |codes[k]| ==> codes[k][l] < vocabSize
    requires i < |rows| && l < |rows[i].hashes|
    ensures Branches(rows, rows[i].hashes, l) + 1 < vocabSize
  {
    hide Lexical, Siblings, Coded;
    var lists := Lists(rows, order);
    var all := seq(|rows|, i requires 0 <= i < |rows| => rows[i].hashes);
    var prefix := rows[i].hashes[..l];
    forall x | x in all ensures x in lists {
      var j :| 0 <= j < |all| && all[j] == x;
      assert j in order;
      var k :| 0 <= k < |order| && order[k] == j;
      assert lists[k] == x;
    }
    SameSiblings(all, lists, prefix);
    Subset(Siblings(all, prefix), Siblings(lists, prefix));
    if Siblings(lists, prefix) != {} {
      var k := LastVisitor(lists, prefix);
      assert Stage(rows, order, k, codes);
      assert lists[..k + 1][k] == lists[k] && codes[..k + 1][k] == codes[k];
      assert codes[k][l] == 1 + |Siblings(lists[..k + 1], prefix)|;
    }
  }

  /** Encodes the selected requests.  It refuses exactly when some prefix of the trace branches too
      widely for the vocabulary; otherwise lengths are kept, and any two requests share exactly
      the tokens of their common leading blocks. */
  method EncodeTrace(rows: seq<Row>, block: nat, vocabSize: nat, body: (nat, nat) -> nat) returns (encoded: Option<seq<seq<nat>>>)
    requires block > 0 && vocabSize >= 3 && forall i :: 0 <= i < |rows| ==> Published(rows[i], block)
    ensures encoded.None? <==> Crowded(rows, vocabSize)
    ensures encoded.Some? ==> |encoded.value| == |rows|
    ensures encoded.Some? ==> forall i :: 0 <= i < |rows| ==> |encoded.value[i]| == rows[i].inputTokens
    ensures encoded.Some? ==> forall i, j :: 0 <= i < |rows| && 0 <= j < |rows| ==>
      Common(encoded.value[i], encoded.value[j])
      == Least(Least(rows[i].inputTokens, rows[j].inputTokens), Common(rows[i].hashes, rows[j].hashes) * block)
  {
    hide Lexical, Siblings, Coded, Ranked, Order, Traversed, Crowded, NextCodes, Progress, Common, TokensOf;
    var order := SortedOrder(rows);
    OrderMeans(rows, order);
    var tokens := seq(|rows|, _ => []);
    var previous, codes: seq<nat> := [], [];
    ghost var visited: seq<seq<nat>> := [];
    ProgressNone(rows, order, tokens, vocabSize, block, body);
    var k := 0;
    while k < |order|
      invariant 0 <= k <= |order| && Progress(rows, order, k, visited, tokens, vocabSize, block, body)
      invariant previous == (if k == 0 then [] else Lists(rows, order)[k - 1])
      invariant |visited| == k && codes == (if k == 0 then [] else visited[k - 1]) && |codes| == |previous|
    {
      var i := order[k];
      var hashes := rows[i].hashes;
      ProgressMeans(rows, order, k, visited, tokens, vocabSize, block, body);
      TraversedMore(rows, order, k, visited);
      codes := NextCodes(previous, codes, hashes);
      ghost var before := visited;
      visited := visited + [codes];
      if l :| 0 <= l < |codes| && codes[l] >= vocabSize {
        TooMany(rows, order, k, visited, vocabSize, l);
        return None;
      }
      var row := EncodeRow(rows[i], codes, block, body);
      ProgressMore(rows, order, k, before, codes, tokens, row, vocabSize, block, body);
      tokens := tokens[i := row];
      previous := hashes;
      k := k + 1;
    }
    ProgressEnds(rows, order, visited, tokens, vocabSize, block, body);
    encoded := Some(tokens);
  }

  /** What holds after k requests: their codes fit, and their tokens stand at their places. */
  ghost predicate Progress(rows: seq<Row>, order: seq<nat>, k: nat, visited: seq<seq<nat>>, tokens: seq<seq<nat>>,
                           vocabSize: nat, block: nat, body: (nat, nat) -> nat)
    requires Order(rows, order, |rows|) && forall i :: 0 <= i < |rows| ==> Published(rows[i], block)
  {
    && k <= |order| && |tokens| == |rows| && |visited| == k && Traversed(rows, order, k, visited)
    && (forall j :: 0 <= j < k ==> Stage(rows, order, j, visited))
    && (forall j, l :: 0 <= j < k && 0 <= l < |visited[j]| ==> visited[j][l] < vocabSize)
    && (forall j :: 0 <= j < k ==>
          && order[j] < |rows| && |visited[j]| == |rows[order[j]].hashes|
          && tokens[order[j]] == TokensOf(rows[order[j]], visited[j], block, body))
  }

  lemma ProgressMeans(rows: seq<Row>, order: seq<nat>, k: nat, visited: seq<seq<nat>>, tokens: seq<seq<nat>>,
                      vocabSize: nat, block: nat, body: (nat, nat) -> nat)
    requires Order(rows, order, |rows|) && forall i :: 0 <= i < |rows| ==> Published(rows[i], block)
    requires Progress(rows, order, k, visited, tokens, vocabSize, block, body)
    ensures Traversed(rows, order, k, visited) && |tokens| == |rows|
  {
  }

  lemma ProgressMore(rows: seq<Row>, order: seq<nat>, k: nat, visited: seq<seq<nat>>, codes: seq<nat>, tokens: seq<seq<nat>>, row: seq<nat>,
                     vocabSize: nat, block: nat, body: (nat, nat) -> nat)
    requires Order(rows, order, |rows|) && forall i :: 0 <= i < |rows| ==> Published(rows[i], block)
    requires Progress(rows, order, k, visited, tokens, vocabSize, block, body) && k < |order| && order[k] < |rows|
    requires Traversed(rows, order, k + 1, visited + [codes]) && forall l :: 0 <= l < |codes| ==> codes[l] < vocabSize
    requires |codes| == |rows[order[k]].hashes| && row == TokensOf(rows[order[k]], codes, block, body)
    ensures Progress(rows, order, k + 1, visited + [codes], tokens[order[k] := row], vocabSize, block, body)
  {
    hide Traversed, Lexical, Stage, TokensOf;
    var longer := visited + [codes];
    assert longer[..k] == visited;
    StagesStay(rows, order, k, longer);
    OrderMeans(rows, order);
  }

  lemma ProgressEnds(rows: seq<Row>, order: seq<nat>, visited: seq<seq<nat>>, tokens: seq<seq<nat>>,
                     vocabSize: nat, block: nat, body: (nat, nat) -> nat)
    requires Order(rows, order, |rows|) && (forall i :: 0 <= i < |rows| ==> Published(rows[i], block)) && vocabSize >= 3
    requires Progress(rows, order, |order|, visited, tokens, vocabSize, block, body)
    ensures !Crowded(rows, vocabSize) && |tokens| == |rows|
    ensures forall i :: 0 <= i < |rows| ==> |tokens[i]| == rows[i].inputTokens
    ensures forall i, j :: 0 <= i < |rows| && 0 <= j < |rows| ==>
      Common(tokens[i], tokens[j])
      == Least(Least(rows[i].inputTokens, rows[j].inputTokens), Common(rows[i].hashes, rows[j].hashes) * block)
  {
    hide Traversed, Lexical, Stage, TokensOf, Order, Crowded, Common;
    NoneCrowded(rows, order, visited, vocabSize);
    AllShared(rows, order, visited, tokens, block, body);
  }

  lemma OrderMeans(rows: seq<Row>, order: seq<nat>)
    requires Order(rows, order, |rows|)
    ensures forall k :: 0 <= k < |order| ==> order[k] < |rows|
    ensures forall j, k :: 0 <= j < k < |order| ==> order[j] != order[k]
    ensures forall i :: i in order ==> i < |rows|
  {
    assert forall k :: 0 <= k < |order| ==> order[k] in order;
  }

  lemma ProgressNone(rows: seq<Row>, order: seq<nat>, tokens: seq<seq<nat>>, vocabSize: nat, block: nat, body: (nat, nat) -> nat)
    requires Order(rows, order, |rows|) && |tokens| == |rows| && forall i :: 0 <= i < |rows| ==> Published(rows[i], block)
    ensures Progress(rows, order, 0, [], tokens, vocabSize, block, body)
  {
  }

  lemma AllShared(rows: seq<Row>, order: seq<nat>, codes: seq<seq<nat>>, tokens: seq<seq<nat>>, block: nat, body: (nat, nat) -> nat)
    requires Order(rows, order, |rows|) && Traversed(rows, order, |order|, codes) && |codes| == |order| && |tokens| == |rows|
    requires forall i :: 0 <= i < |rows| ==> Published(rows[i], block)
    requires forall j :: 0 <= j < |order| ==>
      && order[j] < |rows| && |codes[j]| == |rows[order[j]].hashes|
      && tokens[order[j]] == TokensOf(rows[order[j]], codes[j], block, body)
    ensures forall i :: 0 <= i < |rows| ==> |tokens[i]| == rows[i].inputTokens
    ensures forall i, j :: 0 <= i < |rows| && 0 <= j < |rows| ==>
      Common(tokens[i], tokens[j])
      == Least(Least(rows[i].inputTokens, rows[j].inputTokens), Common(rows[i].hashes, rows[j].hashes) * block)
  {
    forall i | 0 <= i < |rows| ensures |tokens[i]| == rows[i].inputTokens {
      assert i in order;
    }
    forall i, j | 0 <= i < |rows| && 0 <= j < |rows|
      ensures Common(tokens[i], tokens[j])
        == Least(Least(rows[i].inputTokens, rows[j].inputTokens), Common(rows[i].hashes, rows[j].hashes) * block)
    {
      PairShared(rows, order, codes, tokens, block, body, i, j);
    }
  }

  lemma PairShared(rows: seq<Row>, order: seq<nat>, codes: seq<seq<nat>>, tokens: seq<seq<nat>>, block: nat, body: (nat, nat) -> nat,
                   i: nat, j: nat)
    requires Order(rows, order, |rows|) && Traversed(rows, order, |order|, codes) && |codes| == |order| && |tokens| == |rows|
    requires forall i :: 0 <= i < |rows| ==> Published(rows[i], block)
    requires forall j :: 0 <= j < |order| ==>
      && order[j] < |rows| && |codes[j]| == |rows[order[j]].hashes|
      && tokens[order[j]] == TokensOf(rows[order[j]], codes[j], block, body)
    requires i < |rows| && j < |rows|
    ensures Common(tokens[i], tokens[j])
        == Least(Least(rows[i].inputTokens, rows[j].inputTokens), Common(rows[i].hashes, rows[j].hashes) * block)
  {
    hide Lexical, Siblings, Ranked, Common, TokensOf, Apart;
    assert i in order && j in order;
    var p :| 0 <= p < |order| && order[p] == i;
    var q :| 0 <= q < |order| && order[q] == j;
    var lists := Lists(rows, order);
    assert lists[..|order|] == lists && lists[p] == rows[i].hashes && lists[q] == rows[j].hashes;
    if p < q {
      assert Apart(lists[p], codes[p], lists[q], codes[q]);
      SharedTokens(rows[i], codes[p], rows[j], codes[q], block, body);
    } else if q < p {
      assert Apart(lists[q], codes[q], lists[p], codes[p]);
      SharedTokens(rows[j], codes[q], rows[i], codes[p], block, body);
      CommonFlips(tokens[i], tokens[j]);
      CommonFlips(rows[i].hashes, rows[j].hashes);
    } else {
      Itself(rows[i], tokens[i], block, codes[p], body);
    }
  }

  lemma Itself(row: Row, tokens: seq<nat>, block: nat, codes: seq<nat>, body: (nat, nat) -> nat)
    requires Published(row, block) && |codes| == |row.hashes| && tokens == TokensOf(row, codes, block, body)
    ensures Common(tokens, tokens) == Least(Least(row.inputTokens, row.inputTokens), Common(row.hashes, row.hashes) * block)
  {
    LexicalSelf(tokens);
    LexicalSelf(row.hashes);
  }
}
