/** Division with remainder, and how often a residue is hit by consecutive numbers. */
module Modular {
  lemma MultiplesOrdered(a: nat, b: nat, d: nat)
    ensures a < b ==> a * d + d <= b * d
    ensures a <= b ==> a * d <= b * d
  {
    if a < b {
      assert (a + 1) * d <= b * d;
    }
  }

  lemma DivModUnique(x: nat, m: nat, q: nat, r: nat)
    requires m > 0 && x == q * m + r && r < m
    ensures x / m == q && x % m == r
  {
    assert x == (x / m) * m + x % m;
    MultiplesOrdered(x / m, q, m);
    MultiplesOrdered(q, x / m, m);
  }

  lemma ModAdd(x: nat, y: nat, m: nat)
    requires m > 0
    ensures (x % m + y) % m == (x + y) % m
  {
    var s := x % m + y;
    var q := s / m;
    var r := s % m;
    assert s == q * m + r;
    assert x + y == (x / m) * m + s;
    assert x + y == (x / m + q) * m + r;
    DivModUnique(x + y, m, x / m + q, r);
  }

  lemma ModMultiple(x: nat, k: nat, m: nat)
    requires m > 0
    ensures (x + k * m) % m == x % m && (x + k * m) / m == x / m + k
  {
    assert x + k * m == (x / m + k) * m + x % m;
    DivModUnique(x + k * m, m, x / m + k, x % m);
  }

  lemma DivDiv(x: nat, a: nat, b: nat)
    requires a > 0 && b > 0
    ensures a * b > 0 && (x / a) / b == x / (a * b)
  {
    var q, r := x / a, x % a;
    var p, s := q / b, q % b;
    Regroup(p, s, r, a, b);
    MultiplesOrdered(s, b, a);
    assert x == p * (a * b) + (s * a + r);
    DivModUnique(x, a * b, p, s * a + r);
  }

  lemma Regroup(p: nat, s: nat, r: nat, a: nat, b: nat)
    ensures (p * b + s) * a + r == p * (a * b) + (s * a + r)
    ensures a > 0 && b > 0 ==> a * b > 0
  {
    assert (p * b + s) * a == (p * b) * a + s * a;
    assert (p * b) * a == p * (a * b);
  }

  /** How many of n numbers from base on leave remainder s. */
  ghost function Hits(base: nat, n: nat, s: nat, m: nat): (hits: nat)
    requires m > 0
    ensures hits <= n
  {
    if n == 0 then 0 else Hits(base, n - 1, s, m) + (if (base + n - 1) % m == s then 1 else 0)
  }

  lemma {:induction false} HitsSplit(base: nat, a: nat, b: nat, s: nat, m: nat)
    requires m > 0
    ensures Hits(base, a + b, s, m) == Hits(base, a, s, m) + Hits(base + a, b, s, m)
  {
    if b > 0 {
      HitsSplit(base, a, b - 1, s, m);
    }
  }

  lemma {:induction false} HitsLow(n: nat, s: nat, m: nat)
    requires n <= m && s < m
    ensures Hits(0, n, s, m) == if s < n then 1 else 0
  {
    if n > 0 {
      HitsLow(n - 1, s, m);
      DivModUnique(n - 1, m, 0, n - 1);
    }
  }

  /** Any m consecutive numbers hit every remainder exactly once. */
  lemma {:induction false} HitsRound(base: nat, s: nat, m: nat)
    requires s < m
    ensures Hits(base, m, s, m) == 1
  {
    if base == 0 {
      HitsLow(m, s, m);
    } else {
      HitsRound(base - 1, s, m);
      HitsSplit(base - 1, 1, m, s, m);
      ModMultiple(base - 1, 1, m);
    }
  }

  lemma {:induction false} HitsShift(base: nat, n: nat, s: nat, m: nat)
    requires m > 0
    ensures Hits(base + m, n, s, m) == Hits(base, n, s, m)
  {
    if n > 0 {
      HitsShift(base, n - 1, s, m);
      ModMultiple(base + n - 1, 1, m);
    }
  }

  lemma {:induction false} HitsFull(base: nat, full: nat, rem: nat, s: nat, m: nat)
    requires s < m
    ensures Hits(base, full * m + rem, s, m) == full + Hits(base, rem, s, m)
    decreases full
  {
    hide Hits;
    if full > 0 {
      var rest := (full - 1) * m + rem;
      assert full * m == (full - 1) * m + m;
      HitsSplit(base, m, rest, s, m);
      HitsRound(base, s, m);
      HitsFull(base + m, full - 1, rem, s, m);
      HitsShift(base, rem, s, m);
    }
  }

  /** Fewer than m consecutive numbers hit a remainder at most once. */
  lemma HitsOnce(base: nat, n: nat, s: nat, m: nat)
    requires n <= m && s < m
    ensures Hits(base, n, s, m) <= 1
  {
    HitsRound(base, s, m);
    HitsSplit(base, n, m - n, s, m);
  }

  /** A remainder is hit when some number in the run leaves it. */
  lemma {:induction false} HitsWitness(base: nat, n: nat, s: nat, m: nat)
    requires m > 0
    ensures Hits(base, n, s, m) > 0 <==> exists j :: 0 <= j < n && Leaves(base, j, s, m)
  {
    if n > 0 {
      HitsWitness(base, n - 1, s, m);
      if (base + n - 1) % m == s {
        assert Leaves(base, n - 1, s, m);
      }
    }
  }

  ghost predicate Leaves(base: nat, j: nat, s: nat, m: nat)
    requires m > 0
  {
    (base + j) % m == s
  }

  predicate Whole(x: nat, unit: nat)
    requires unit > 0
  {
    x % unit == 0
  }

  function RoundDown(x: nat, unit: nat): (y: nat)
    requires unit > 0
    ensures y <= x < y + unit && Whole(y, unit)
  {
    var k := x / unit;
    DivModUnique(k * unit, unit, k, 0);
    k * unit
  }

  function RoundUp(x: nat, unit: nat): (y: nat)
    requires unit > 0
    ensures x <= y < x + unit && Whole(y, unit)
  {
    RoundDown(x + unit - 1, unit)
  }
}
