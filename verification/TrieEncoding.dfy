/** Encoding a trace of block hashes into tokens: requests share exactly as many leading tokens
    as their published block prefixes say.
 */
module TrieEncoding {
  datatype Option<T> = None | Some(value: T)

  datatype Row = Row(hashes: seq<nat>, inputTokens: nat)

  /** A published record has one hash per block of its input, the last block maybe partial. */
  ghost predicate Published(row: Row, block: nat)
  {
    block > 0 && row.hashes != [] && (|row.hashes| - 1) * block < row.inputTokens <= |row.hashes| * block
  }

  // ---------------------------------------------------------- common prefixes

  /** The number of leading elements that two lists share. */
  function Common(a: seq<nat>, b: seq<nat>): (l: nat)
    ensures l <= |a| && l <= |b|
  {
    if a == [] || b == [] || a[0] != b[0] then 0 else 1 + Common(a[1..], b[1..])
  }

  ghost predicate Parts(a: seq<nat>, b: seq<nat>, l: nat)
  {
    && l <= |a| && l <= |b| && (forall x :: 0 <= x < l ==> a[x] == b[x])
    && (l < |a| && l < |b| ==> a[l] != b[l])
  }

  lemma {:induction false} CommonIs(a: seq<nat>, b: seq<nat>)
    ensures Parts(a, b, Common(a, b))
  {
    if a != [] && b != [] && a[0] == b[0] {
      CommonIs(a[1..], b[1..]);
      var l := Common(a, b);
      forall x | 0 <= x < l ensures a[x] == b[x] {
        if x > 0 {
          assert a[x] == a[1..][x - 1] && b[x] == b[1..][x - 1];
        }
      }
    }
  }

  lemma {:induction false} CommonUnique(a: seq<nat>, b: seq<nat>, l: nat)
    requires Parts(a, b, l)
    ensures Common(a, b) == l
  {
    if l > 0 {
      CommonUnique(a[1..], b[1..], l - 1);
    }
  }

  lemma {:induction false} CommonAtLeast(a: seq<nat>, b: seq<nat>, l: nat)
    requires l <= |a| && l <= |b| && a[..l] == b[..l]
    ensures Common(a, b) >= l
  {
    if l > 0 {
      assert a[0] == a[..l][0] == b[..l][0] == b[0];
      assert a[1..][..l - 1] == a[..l][1..] && b[1..][..l - 1] == b[..l][1..];
      CommonAtLeast(a[1..], b[1..], l - 1);
    }
  }

  lemma CommonFlips(a: seq<nat>, b: seq<nat>)
    ensures Common(a, b) == Common(b, a)
  {
    CommonIs(a, b);
    CommonUnique(b, a, Common(a, b));
  }

  // ------------------------------------------------------------ lexical order

  /** The order in which lists of hashes are sorted. */
  predicate Lexical(a: seq<nat>, b: seq<nat>)
  {
    var l := Common(a, b);
    l == |a| || (l < |b| && a[l] < b[l])
  }

  lemma LexicalTotal(a: seq<nat>, b: seq<nat>)
    ensures Lexical(a, b) || Lexical(b, a)
  {
    CommonIs(a, b);
    CommonFlips(a, b);
  }

  /** Of three lists in order, the outer two share what both neighbours share. */
  lemma OuterCommon(a: seq<nat>, b: seq<nat>, c: seq<nat>)
    requires Lexical(a, b) && Lexical(b, c)
    ensures Common(a, c) == if Common(a, b) < Common(b, c) then Common(a, b) else Common(b, c)
    ensures Lexical(a, c)
  {
    CommonIs(a, b);
    CommonIs(b, c);
    var l := if Common(a, b) < Common(b, c) then Common(a, b) else Common(b, c);
    assert Parts(a, c, l);
    CommonUnique(a, c, l);
  }

  // ------------------------------------------------------------------- codes

  /** The codes of a list, given its predecessor's: shared edges keep their code, a new edge gets
      the next one, and everything below it starts again. */
  function NextCodes(previous: seq<nat>, codes: seq<nat>, hashes: seq<nat>): (next: seq<nat>)
    requires |codes| == |previous|
    ensures |next| == |hashes|
  {
    var common := Common(previous, hashes);
    if common < |hashes| then
      codes[..common] + [if common < |previous| then codes[common] + 1 else 2] + seq(|hashes| - common - 1, _ => 2)
    else codes[..common]
  }

  ghost predicate Sorted(lists: seq<seq<nat>>)
  {
    forall i, j :: 0 <= i < j < |lists| ==> Lexical(lists[i], lists[j])
  }

  /** The lists visited so far and their codes. */
  ghost predicate Coded(lists: seq<seq<nat>>, codes: seq<seq<nat>>)
  {
    && |codes| == |lists| && Sorted(lists)
    && (forall i :: 0 <= i < |lists| ==> |codes[i]| == |lists[i]|)
    && (forall i, j :: 0 <= i < j < |lists| ==> Apart(lists[i], codes[i], lists[j], codes[j]))
  }

  /** Codes agree as long as the lists do, and where the lists part the later code is greater. */
  ghost predicate Apart(a: seq<nat>, codeA: seq<nat>, b: seq<nat>, codeB: seq<nat>)
    requires |codeA| == |a| && |codeB| == |b|
  {
    var l := Common(a, b);
    && (forall x :: 0 <= x < l ==> codeA[x] == codeB[x])
    && (l < |a| ==> l < |b| && codeA[l] < codeB[l])
  }

  lemma NextApart(previous: seq<nat>, codes: seq<nat>, hashes: seq<nat>)
    requires |codes| == |previous| && Lexical(previous, hashes)
    ensures Apart(previous, codes, hashes, NextCodes(previous, codes, hashes))
  {
    CommonIs(previous, hashes);
  }

  lemma ApartThrough(a: seq<nat>, codeA: seq<nat>, b: seq<nat>, codeB: seq<nat>, c: seq<nat>, codeC: seq<nat>)
    requires |codeA| == |a| && |codeB| == |b| && |codeC| == |c|
    requires Lexical(a, b) && Lexical(b, c) && Apart(a, codeA, b, codeB) && Apart(b, codeB, c, codeC)
    ensures Apart(a, codeA, c, codeC)
  {
    OuterCommon(a, b, c);
    CommonIs(a, b);
    CommonIs(b, c);
  }

  lemma CodedMore(lists: seq<seq<nat>>, codes: seq<seq<nat>>, hashes: seq<nat>)
    requires Coded(lists, codes) && lists != [] && Lexical(lists[|lists| - 1], hashes)
    ensures Coded(lists + [hashes], codes + [NextCodes(lists[|lists| - 1], codes[|lists| - 1], hashes)])
  {
    var n := |lists| - 1;
    var code := NextCodes(lists[n], codes[n], hashes);
    NextApart(lists[n], codes[n], hashes);
    forall i | 0 <= i < n ensures Lexical(lists[i], hashes) && Apart(lists[i], codes[i], hashes, code) {
      OuterCommon(lists[i], lists[n], hashes);
      ApartThrough(lists[i], codes[i], lists[n], codes[n], hashes, code);
    }
    hide Lexical, Apart, NextCodes;
  }

  // ------------------------------------------------- codes are sibling ranks

  /** The edges that leave a prefix, among the lists visited so far. */
  ghost function Siblings(lists: seq<seq<nat>>, prefix: seq<nat>): (edges: set<nat>)
  {
    if lists == [] then {}
    else
      var rest, last := Siblings(lists[..|lists| - 1], prefix), lists[|lists| - 1];
      if |last| > |prefix| && last[..|prefix|] == prefix then rest + {last[|prefix|]} else rest
  }

  lemma {:induction false} SiblingAt(lists: seq<seq<nat>>, prefix: seq<nat>, edge: nat) returns (i: nat)
    requires edge in Siblings(lists, prefix)
    ensures i < |lists| && |lists[i]| > |prefix| && lists[i][..|prefix|] == prefix && lists[i][|prefix|] == edge
  {
    var last := lists[|lists| - 1];
    if |last| > |prefix| && last[..|prefix|] == prefix && last[|prefix|] == edge {
      i := |lists| - 1;
    } else {
      i := SiblingAt(lists[..|lists| - 1], prefix, edge);
    }
  }

  /** The code of an edge is one more than the number of distinct edges that left its prefix by then. */
  ghost predicate Ranked(lists: seq<seq<nat>>, codes: seq<nat>)
  {
    && lists != [] && |codes| == |lists[|lists| - 1]|
    && forall l :: 0 <= l < |codes| ==> codes[l] == 1 + |Siblings(lists, lists[|lists| - 1][..l])|
  }

  lemma NextRanked(lists: seq<seq<nat>>, codes: seq<nat>, hashes: seq<nat>)
    requires Sorted(lists + [hashes]) && (lists == [] ==> codes == []) && (lists != [] ==> Ranked(lists, codes))
    ensures var previous := if lists == [] then [] else lists[|lists| - 1];
      Ranked(lists + [hashes], NextCodes(previous, codes, hashes))
  {
    var previous := if lists == [] then [] else lists[|lists| - 1];
    var next := NextCodes(previous, codes, hashes);
    var longer := lists + [hashes];
    assert longer[..|longer| - 1] == lists;
    forall l | 0 <= l < |next| ensures next[l] == 1 + |Siblings(longer, hashes[..l])| {
      RankOf(lists, codes, hashes, previous, l);
    }
  }

  lemma RankOf(lists: seq<seq<nat>>, codes: seq<nat>, hashes: seq<nat>, previous: seq<nat>, l: nat)
    requires Sorted(lists + [hashes]) && l < |hashes|
    requires if lists == [] then codes == [] && previous == [] else Ranked(lists, codes) && previous == lists[|lists| - 1]
    ensures NextCodes(previous, codes, hashes)[l] == 1 + |Siblings(lists + [hashes], hashes[..l])|
  {
    hide Sorted, Siblings, Lexical;
    var prefix, common := hashes[..l], Common(previous, hashes);
    OneMore(lists, hashes, l);
    CommonIs(previous, hashes);
    if l < common {
      assert prefix == previous[..l];
      OldEdge(lists, previous, prefix, hashes[l]);
    } else if l == common && l < |previous| {
      assert prefix == previous[..l];
      NewEdge(lists, hashes, previous, l);
    } else {
      NoEdges(lists, hashes, previous, l);
    }
  }

  lemma OneMore(lists: seq<seq<nat>>, hashes: seq<nat>, l: nat)
    requires l < |hashes|
    ensures Siblings(lists + [hashes], hashes[..l]) == Siblings(lists, hashes[..l]) + {hashes[l]}
  {
    var longer := lists + [hashes];
    assert longer[..|longer| - 1] == lists;
  }

  lemma OldEdge(lists: seq<seq<nat>>, previous: seq<nat>, prefix: seq<nat>, edge: nat)
    requires lists != [] && previous == lists[|lists| - 1] && |previous| > |prefix|
    requires previous[..|prefix|] == prefix && previous[|prefix|] == edge
    ensures edge in Siblings(lists, prefix) && Siblings(lists, prefix) + {edge} == Siblings(lists, prefix)
  {
  }

  /** Whoever left the prefix before, the predecessor still has it and goes beyond it; and whoever
      took the same edge, the predecessor took it too. */
  lemma SiblingMeans(lists: seq<seq<nat>>, hashes: seq<nat>, previous: seq<nat>, l: nat, edge: nat)
    requires Sorted(lists + [hashes]) && l < |hashes| && edge in Siblings(lists, hashes[..l])
    requires lists != [] && previous == lists[|lists| - 1]
    ensures Common(previous, hashes) >= l && |previous| > l
    ensures edge == hashes[l] ==> Common(previous, hashes) > l
  {
    hide Sorted, Lexical, Siblings, Common;
    var i := SiblingAt(lists, hashes[..l], edge);
    CommonAtLeast(lists[i], hashes, l);
    if edge == hashes[l] {
      SameEdge(lists[i], hashes, l);
    }
    LaterCommon(lists, hashes, i, previous);
    LexicalLonger(lists[i], previous, l);
  }

  lemma SameEdge(a: seq<nat>, b: seq<nat>, l: nat)
    requires l < |a| && l < |b| && a[..l] == b[..l] && a[l] == b[l]
    ensures Common(a, b) > l
  {
    assert a[..l + 1] == a[..l] + [a[l]] && b[..l + 1] == b[..l] + [b[l]];
    hide Common;
    CommonAtLeast(a, b, l + 1);
  }

  lemma LexicalLonger(a: seq<nat>, b: seq<nat>, l: nat)
    requires Lexical(a, b) && |a| > l && Common(a, b) >= l
    ensures |b| > l
  {
  }

  lemma LaterCommon(lists: seq<seq<nat>>, hashes: seq<nat>, i: nat, previous: seq<nat>)
    requires Sorted(lists + [hashes]) && i < |lists| && previous == lists[|lists| - 1]
    ensures Common(lists[i], hashes) <= Common(previous, hashes)
    ensures Common(lists[i], hashes) <= Common(lists[i], previous)
    ensures Lexical(lists[i], previous)
  {
    hide Lexical;
    var longer, n := lists + [hashes], |lists| - 1;
    assert longer[n] == previous && longer[n + 1] == hashes && longer[i] == lists[i];
    assert Lexical(longer[n], longer[n + 1]);
    if i < n {
      assert Lexical(longer[i], longer[n]);
      OuterCommon(lists[i], previous, hashes);
    } else {
      LexicalSelf(previous);
    }
  }

  lemma LexicalSelf(a: seq<nat>)
    ensures Lexical(a, a) && Common(a, a) == |a|
  {
    CommonUnique(a, a, |a|);
  }

  /** In order, an edge that differs from the predecessor's is new. */
  lemma NewEdge(lists: seq<seq<nat>>, hashes: seq<nat>, previous: seq<nat>, l: nat)
    requires Sorted(lists + [hashes]) && l < |hashes| && Common(previous, hashes) <= l
    requires if lists == [] then previous == [] else previous == lists[|lists| - 1]
    ensures hashes[l] !in Siblings(lists, hashes[..l])
  {
    if lists != [] && hashes[l] in Siblings(lists, hashes[..l]) {
      SiblingMeans(lists, hashes, previous, l, hashes[l]);
      assert false;
    }
  }

  /** Below the point of departure nobody has been before. */
  lemma NoEdges(lists: seq<seq<nat>>, hashes: seq<nat>, previous: seq<nat>, l: nat)
    requires Sorted(lists + [hashes]) && l < |hashes|
    requires if lists == [] then previous == [] else previous == lists[|lists| - 1]
    requires var common := Common(previous, hashes); common < l || (common == l && l == |previous|)
    ensures Siblings(lists, hashes[..l]) == {}
  {
    if edge :| edge in Siblings(lists, hashes[..l]) {
      SiblingMeans(lists, hashes, previous, l, edge);
      assert false;
    }
  }
}
