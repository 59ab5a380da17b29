/** Lists of half-open intervals: merging, subtracting, and what is missing from a range. */
module Intervals {
  datatype Interval = Interval(lo: nat, hi: nat)
  {
    predicate Has(x: nat)
    {
      lo <= x < hi
    }
  }

  ghost predicate In(intervals: seq<Interval>, x: nat)
  {
    exists i :: 0 <= i < |intervals| && intervals[i].Has(x)
  }

  /** Sorted, without empty intervals, and with a gap between neighbours. */
  ghost predicate Normal(intervals: seq<Interval>)
  {
    && (forall i :: 0 <= i < |intervals| ==> intervals[i].lo < intervals[i].hi)
    && (forall i, j :: 0 <= i < j < |intervals| ==> intervals[i].hi < intervals[j].lo)
  }

  ghost predicate Sorted(intervals: seq<Interval>)
  {
    forall i, j :: 0 <= i < j < |intervals| ==> intervals[i].lo <= intervals[j].lo
  }

  lemma InAppend(a: seq<Interval>, b: seq<Interval>, x: nat)
    ensures In(a + b, x) <==> In(a, x) || In(b, x)
  {
    var c := a + b;
    if In(c, x) {
      var i :| 0 <= i < |c| && c[i].Has(x);
      if i < |a| {
        assert a[i].Has(x);
      } else {
        assert b[i - |a|].Has(x);
      }
    }
    if In(a, x) {
      var i :| 0 <= i < |a| && a[i].Has(x);
      assert c[i].Has(x);
    }
    if In(b, x) {
      var i :| 0 <= i < |b| && b[i].Has(x);
      assert c[|a| + i].Has(x);
    }
  }

  lemma InOne(interval: Interval, x: nat)
    ensures In([interval], x) <==> interval.Has(x)
  {
    assert [interval][0] == interval;
  }

  lemma InAll(a: seq<Interval>, b: seq<Interval>)
    ensures forall x: nat :: In(a + b, x) <==> In(a, x) || In(b, x)
  {
    forall x: nat ensures In(a + b, x) <==> In(a, x) || In(b, x) {
      InAppend(a, b, x);
    }
  }

  // -------------------------------------------------------------------- sorting

  method Insert(sorted: seq<Interval>, extra: Interval) returns (longer: seq<Interval>)
    requires Sorted(sorted)
    ensures Sorted(longer) && forall x: nat :: In(longer, x) <==> In(sorted, x) || extra.Has(x)
  {
    var at := |sorted|;
    while at > 0 && sorted[at - 1].lo > extra.lo
      invariant 0 <= at <= |sorted| && forall k :: at <= k < |sorted| ==> extra.lo <= sorted[k].lo
    {
      at := at - 1;
    }
    longer := sorted[..at] + [extra] + sorted[at..];
    InsertedIn(sorted, extra, at);
  }

  lemma InsertedIn(sorted: seq<Interval>, extra: Interval, at: nat)
    requires at <= |sorted|
    ensures forall x: nat :: In(sorted[..at] + [extra] + sorted[at..], x) <==> In(sorted, x) || extra.Has(x)
  {
    hide In, Interval.Has;
    var front, back := sorted[..at], sorted[at..];
    assert sorted == front + back;
    InAll(front, back);
    InAll(front + [extra], back);
    InAll(front, [extra]);
    SingleMeans(extra);
  }

  method SortIntervals(intervals: seq<Interval>) returns (sorted: seq<Interval>)
    ensures Sorted(sorted) && forall x: nat :: In(sorted, x) <==> In(intervals, x)
  {
    sorted := [];
    for i := 0 to |intervals|
      invariant Sorted(sorted) && forall x: nat :: In(sorted, x) <==> In(intervals[..i], x)
    {
      ghost var before := intervals[..i];
      assert intervals[..i + 1] == before + [intervals[i]];
      InAll(before, [intervals[i]]);
      SingleMeans(intervals[i]);
      sorted := Insert(sorted, intervals[i]);
    }
    assert intervals[..|intervals|] == intervals;
  }

  lemma SingleMeans(interval: Interval)
    ensures forall x: nat :: In([interval], x) <==> interval.Has(x)
  {
    forall x: nat ensures In([interval], x) <==> interval.Has(x) {
      InOne(interval, x);
    }
  }

  // -------------------------------------------------------------------- merging

  /** The same numbers in normal form. */
  method Merge(intervals: seq<Interval>) returns (result: seq<Interval>)
    ensures Normal(result) && forall x: nat :: In(result, x) <==> In(intervals, x)
  {
    hide Normal, Sorted;
    var sorted := SortIntervals(intervals);
    result := [];
    Nothing();
    for i := 0 to |sorted|
      invariant Fused(sorted, i, result)
    {
      var next := sorted[i];
      FusedNext(sorted, i, result);
      if next.lo >= next.hi {
      } else if result != [] && next.lo <= result[|result| - 1].hi {
        var last := result[|result| - 1];
        result := result[|result| - 1 := Interval(last.lo, if last.hi < next.hi then next.hi else last.hi)];
      } else {
        result := result + [next];
      }
    }
    assert sorted[..|sorted|] == sorted;
  }

  lemma Nothing()
    ensures Normal([]) && forall x: nat :: !In([], x)
  {
  }

  ghost predicate Fused(sorted: seq<Interval>, i: nat, result: seq<Interval>)
  {
    && i <= |sorted| && Sorted(sorted) && Normal(result)
    && (forall x: nat :: In(result, x) <==> In(sorted[..i], x))
    && (result != [] && i < |sorted| ==> result[|result| - 1].lo <= sorted[i].lo)
  }

  lemma FusedNext(sorted: seq<Interval>, i: nat, result: seq<Interval>)
    requires Fused(sorted, i, result) && i < |sorted|
    ensures var next := sorted[i];
      Fused(sorted, i + 1,
            if next.lo >= next.hi then result
            else if result != [] && next.lo <= result[|result| - 1].hi then
              result[|result| - 1 := Interval(result[|result| - 1].lo, if result[|result| - 1].hi < next.hi then next.hi else result[|result| - 1].hi)]
            else result + [next])
  {
    var next := sorted[i];
    assert sorted[..i + 1] == sorted[..i] + [next];
    InAll(sorted[..i], [next]);
    SingleMeans(next);
    if next.lo >= next.hi {
    } else if result != [] && next.lo <= result[|result| - 1].hi {
      FuseOn(result, next);
    } else {
      FuseNew(result, next);
    }
  }

  lemma FuseOn(result: seq<Interval>, next: Interval)
    requires Normal(result) && result != [] && next.lo < next.hi
    requires result[|result| - 1].lo <= next.lo <= result[|result| - 1].hi
    ensures var last := result[|result| - 1];
      var after := result[|result| - 1 := Interval(last.lo, if last.hi < next.hi then next.hi else last.hi)];
      Normal(after) && forall x: nat :: In(after, x) <==> In(result, x) || next.Has(x)
  {
    var n := |result| - 1;
    var front, last := result[..n], result[n];
    var wider := Interval(last.lo, if last.hi < next.hi then next.hi else last.hi);
    var after := result[n := wider];
    assert result == front + [last] && after == front + [wider];
    InAll(front, [last]);
    InAll(front, [wider]);
    SingleMeans(last);
    SingleMeans(wider);
  }

  lemma FuseNew(result: seq<Interval>, next: Interval)
    requires Normal(result) && next.lo < next.hi && (result == [] || result[|result| - 1].hi < next.lo)
    ensures Normal(result + [next]) && forall x: nat :: In(result + [next], x) <==> In(result, x) || next.Has(x)
  {
    InAll(result, [next]);
    SingleMeans(next);
    forall i | 0 <= i < |result| ensures result[i].hi < next.lo {
      if i < |result| - 1 {
        assert result[i].hi < result[|result| - 1].lo;
      }
    }
  }

  // ---------------------------------------------------------------- subtraction

  /** Cuts a range out of every interval. */
  method Subtract(intervals: seq<Interval>, begin: nat, end: nat) returns (result: seq<Interval>)
    ensures forall x: nat :: In(result, x) <==> In(intervals, x) && !(begin <= x < end)
  {
    result := [];
    Nothing();
    for i := 0 to |intervals|
      invariant forall x: nat :: In(result, x) <==> In(intervals[..i], x) && !(begin <= x < end)
    {
      var next := intervals[i];
      assert intervals[..i + 1] == intervals[..i] + [next];
      InAll(intervals[..i], [next]);
      SingleMeans(next);
      var cut := Cut(next, begin, end);
      InAll(result, cut);
      result := result + cut;
    }
    assert intervals[..|intervals|] == intervals;
  }

  method Cut(next: Interval, begin: nat, end: nat) returns (cut: seq<Interval>)
    ensures forall x: nat :: In(cut, x) <==> next.Has(x) && !(begin <= x < end)
  {
    var left, right := Interval(next.lo, begin), Interval(end, next.hi);
    SingleMeans(next);
    SingleMeans(left);
    SingleMeans(right);
    Nothing();
    if next.hi <= begin || next.lo >= end {
      return [next];
    }
    var front := if next.lo < begin then [left] else [];
    var back := if next.hi > end then [right] else [];
    InAll(front, back);
    cut := front + back;
  }

  /** The parts of a range that no interval has. */
  method Missing(intervals: seq<Interval>, begin: nat, end: nat) returns (result: seq<Interval>)
    ensures forall x: nat :: In(result, x) <==> begin <= x < end && !In(intervals, x)
  {
    result := [Interval(begin, end)];
    SingleMeans(Interval(begin, end));
    Nothing();
    for i := 0 to |intervals|
      invariant forall x: nat :: In(result, x) <==> begin <= x < end && !In(intervals[..i], x)
    {
      var next := intervals[i];
      assert intervals[..i + 1] == intervals[..i] + [next];
      InAll(intervals[..i], [next]);
      SingleMeans(next);
      result := Subtract(result, next.lo, next.hi);
    }
    assert intervals[..|intervals|] == intervals;
  }

  // ------------------------------------------------------------------- contents

  /** What byte x of a place holds. */
  type Content = (nat, nat) -> nat

  ghost function Stored(content: Content, place: nat, lo: nat, hi: nat, from: nat -> nat): Content
  {
    (s: nat, x: nat) => if s == place && lo <= x < hi then from(x) else content(s, x)
  }

  ghost function Row(content: Content, place: nat): nat -> nat
  {
    (x: nat) => content(place, x)
  }
}
