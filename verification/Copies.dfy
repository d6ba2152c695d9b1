/**
 Percentiles of data repeated a number of times. From seven copies on, a reported percentile of the
 copies is `Steady`: it stays or falls as copies are added, and from thirteen copies on it is fixed.
 */
module Copies {
  import opened Sequences
  import opened Percentiles

  /** `data` is `m` copies of `base`, in some order. */
  ghost predicate IsCopies(data: seq<nat>, base: seq<nat>, m: nat) {
    forall x: nat :: multiset(data)[x] == m * multiset(base)[x]
  }

  function Constant(v: nat, m: nat): (s: seq<nat>)
    ensures |s| == m && forall i :: 0 <= i < m ==> s[i] == v
  {
    seq(m, _ => v)
  }

  lemma {:induction false} ConstantCount(v: nat, m: nat, x: nat)
    ensures multiset(Constant(v, m))[x] == if x == v then m else 0
  {
    if m > 0 {
      ConstantCount(v, m - 1, x);
      var s: seq<nat> := Constant(v, m);
      LastCounted(s, x);
      assert s[..m-1] == Constant(v, m - 1);
    } else {
      assert Constant(v, m) == [];
    }
  }

  lemma LastCounted(s: seq<nat>, x: nat)
    requires s != []
    ensures multiset(s)[x] == multiset(s[..|s|-1])[x] + if s[|s|-1] == x then 1 else 0
  {
    assert s == s[..|s|-1] + [s[|s|-1]];
  }

  lemma AppendCounted(a: seq<nat>, b: seq<nat>, x: nat)
    ensures multiset(a + b)[x] == multiset(a)[x] + multiset(b)[x]
  {
  }

  /** Every element `m` times, in place: the sorted listing of `m` copies. */
  function Stretch(s: seq<nat>, m: nat): seq<nat> {
    if s == [] then [] else Stretch(s[..|s|-1], m) + Constant(s[|s|-1], m)
  }

  lemma OneMoreTimes(n: nat, m: nat)
    requires n > 0
    ensures n * m == (n - 1) * m + m
  {
  }

  lemma {:induction false} StretchAt(s: seq<nat>, m: nat, i: nat, j: nat)
    requires i < |s| && j < m
    ensures |Stretch(s, m)| == |s| * m && i * m + j < |s| * m
    ensures Stretch(s, m)[i * m + j] == s[i]
  {
    var n := |s| - 1;
    OneMoreTimes(|s|, m);
    StretchSize(s[..n], m);
    if i < n {
      StretchAt(s[..n], m, i, j);
    }
  }

  lemma {:induction false} StretchSize(s: seq<nat>, m: nat)
    ensures |Stretch(s, m)| == |s| * m
  {
    if s != [] {
      OneMoreTimes(|s|, m);
      StretchSize(s[..|s|-1], m);
    }
  }

  lemma {:induction false} StretchIsCopies(s: seq<nat>, m: nat, x: nat)
    ensures multiset(Stretch(s, m))[x] == m * multiset(s)[x]
  {
    if s != [] {
      var n := |s| - 1;
      StretchIsCopies(s[..n], m, x);
      ConstantCount(s[n], m, x);
      AppendCounted(Stretch(s[..n], m), Constant(s[n], m), x);
      LastCounted(s, x);
      Distribute(m, multiset(s[..n])[x], if s[n] == x then 1 else 0);
    } else {
      assert multiset(s)[x] == 0;
    }
  }

  lemma Distribute(m: nat, a: nat, b: nat)
    ensures m * (a + b) == m * a + m * b
  {
  }

  lemma Scales(a: nat, b: nat, c: nat)
    requires b <= c
    ensures a * b <= a * c && b * a <= c * a
  {
    assert a * c == a * b + a * (c - b);
  }

  lemma {:induction false} StretchSorted(s: seq<nat>, m: nat)
    requires Sorted(s)
    ensures Sorted(Stretch(s, m))
    ensures forall x :: x in Stretch(s, m) ==> x in s
  {
    if s != [] {
      var n := |s| - 1;
      StretchSorted(s[..n], m);
      var front := Stretch(s[..n], m);
      forall i | 0 <= i < |front| ensures front[i] <= s[n] {
        assert front[i] in s[..n];
      }
    }
  }

  lemma SortedCopies(data: seq<nat>, base: seq<nat>, m: nat)
    requires IsCopies(data, base, m)
    ensures Sort(data) == Stretch(Sort(base), m)
  {
    var s: seq<nat> := Stretch(Sort(base), m);
    StretchSorted(Sort(base), m);
    forall x: nat ensures multiset(data)[x] == multiset(s)[x] {
      StretchIsCopies(Sort(base), m, x);
    }
    assert multiset(data) == multiset(s);
    SortedUnique(Sort(data), s);
  }

  // ---------------------------------------------------------------- the percentile of many copies

  predicate Interior(p: nat) {
    p == 25 || p == 50 || p == 75 || p == 95
  }

  /** The position of a percentile in one copy: whole elements, and three-hundredths of the next. */
  function Element(n: nat, p: nat): nat {
    3 * n * p / 300
  }

  function Rest(n: nat, p: nat): nat {
    3 * n * p % 300
  }

  /** Seven copies put the position past the start of its element; thirteen keep it from the next. */
  predicate Settles(f: nat, c: nat) {
    f < 300 && c < 300 && (f > 0 ==> 7 * f + c >= 300 && 13 * (300 - f) >= c)
  }

  lemma ElementSettles(n: nat, p: nat)
    requires n > 0 && Interior(p)
    ensures Element(n, p) < n && (Rest(n, p) == 0 ==> Element(n, p) > 0)
    ensures Settles(Rest(n, p), p + 100)
  {
    if p == 25 {
      Quarter(n, Element(n, p), Rest(n, p));
    } else if p == 50 {
      Half(n, Element(n, p), Rest(n, p));
    } else if p == 75 {
      ThreeQuarters(n, Element(n, p), Rest(n, p));
    } else {
      NineteenTwentieths(n, Element(n, p), Rest(n, p));
    }
  }

  lemma Quarter(n: nat, e: nat, f: nat)
    requires n > 0 && 75 * n == 300 * e + f && f < 300
    ensures e < n && (f == 0 ==> e > 0) && Settles(f, 125)
  {
    assert f == 75 * (n - 4 * e);
  }

  lemma Half(n: nat, e: nat, f: nat)
    requires n > 0 && 150 * n == 300 * e + f && f < 300
    ensures e < n && (f == 0 ==> e > 0) && Settles(f, 150)
  {
    assert f == 150 * (n - 2 * e);
  }

  lemma ThreeQuarters(n: nat, e: nat, f: nat)
    requires n > 0 && 225 * n == 300 * e + f && f < 300
    ensures e < n && (f == 0 ==> e > 0) && Settles(f, 175)
  {
    assert f == 75 * (3 * n - 4 * e);
  }

  lemma NineteenTwentieths(n: nat, e: nat, f: nat)
    requires n > 0 && 285 * n == 300 * e + f && f < 300
    ensures e < n && (f == 0 ==> e > 0) && Settles(f, 195)
  {
    assert f == 15 * (19 * n - 20 * e);
  }

  /** How far beyond the end of its element the position of `m` copies still lies. */
  function Excess(f: nat, c: nat, m: nat): nat
    requires f < 300
  {
    var room := (300 - f) * m;
    if room <= c then c - room else 0
  }

  function Between(lo: int, hi: int, r: int): int {
    300 * lo + r * (hi - lo)
  }

  function Next(s: seq<nat>, e: nat): nat
    requires e < |s|
  {
    if e + 1 < |s| then s[e+1] else s[e]
  }

  /** Three hundred times the percentile of `m` copies, for seven copies or more. */
  function Steady(s: seq<nat>, e: nat, f: nat, c: nat, m: nat): int
    requires e < |s| && f < 300 && (f == 0 ==> e > 0)
  {
    if f == 0 then Between(s[e-1], s[e], c) else Between(s[e], Next(s, e), Excess(f, c, m))
  }

  lemma PositionOfCopies(n: nat, p: nat, m: nat)
    ensures Position(n * m, p) == 300 * (Element(n, p) * m) + Rest(n, p) * m + p + 100
  {
    var e, f, v := Element(n, p), Rest(n, p), 3 * n * p;
    assert v == 300 * e + f;
    assert (3 * (n * m) + 1) * p == v * m + p;
    assert (300 * e + f) * m == 300 * (e * m) + f * m;
  }

  lemma Quotient(k: nat, r: nat, v: nat)
    requires v == 300 * k + r && r < 300
    ensures v / 300 == k && v % 300 == r
  {
  }

  /** The percentile at a known position. */
  lemma ScaledFrom(t: seq<nat>, p: nat, k: nat, r: nat)
    requires t != [] && 0 < p < 100 && k > 0 && r < 300 && Position(|t|, p) == 300 * k + r
    ensures Scaled(t, p) == if k >= |t| then 300 * t[|t|-1] else Between(t[k-1], t[k], r)
  {
    Quotient(k, r, Position(|t|, p));
  }

  lemma OnBoundary(s: seq<nat>, p: nat, m: nat, e: nat, c: nat)
    requires 0 < e < |s| && m > 0 && 0 < p < 100 && c < 300
    requires Position(|s| * m, p) == 300 * (e * m) + c
    ensures Stretch(s, m) != [] && Scaled(Stretch(s, m), p) == Between(s[e-1], s[e], c)
  {
    OneMoreTimes(e, m);
    StretchAt(s, m, e - 1, m - 1);
    StretchAt(s, m, e, 0);
    ScaledFrom(Stretch(s, m), p, e * m, c);
  }

  lemma InElement(s: seq<nat>, p: nat, m: nat, e: nat, v: nat)
    requires e < |s| && 0 < p < 100 && 300 <= v < 300 * m
    requires Position(|s| * m, p) == 300 * (e * m) + v
    ensures Stretch(s, m) != [] && Scaled(Stretch(s, m), p) == 300 * s[e]
  {
    StretchAt(s, m, e, v / 300 - 1);
    StretchAt(s, m, e, v / 300);
    ScaledFrom(Stretch(s, m), p, e * m + v / 300, v % 300);
  }

  lemma PastElement(s: seq<nat>, p: nat, m: nat, e: nat, r: nat)
    requires e < |s| && m > 0 && 0 < p < 100 && r < 300
    requires Position(|s| * m, p) == 300 * (e * m + m) + r
    ensures Stretch(s, m) != [] && Scaled(Stretch(s, m), p) == Between(s[e], Next(s, e), r)
  {
    OneMoreTimes(e + 1, m);
    if e + 1 < |s| {
      OnBoundary(s, p, m, e + 1, r);
    } else {
      LastElement(s, p, m, r);
    }
  }

  lemma LastElement(s: seq<nat>, p: nat, m: nat, r: nat)
    requires s != [] && m > 0 && 0 < p < 100 && r < 300
    requires Position(|s| * m, p) == 300 * (|s| * m) + r
    ensures Stretch(s, m) != [] && Scaled(Stretch(s, m), p) == 300 * s[|s|-1]
  {
    StretchAt(s, m, |s| - 1, m - 1);
    OneMoreTimes(|s|, m);
    ScaledFrom(Stretch(s, m), p, |s| * m, r);
  }

  lemma SteadyScaled(s: seq<nat>, p: nat, m: nat, e: nat, f: nat)
    requires e < |s| && 0 < p < 100 && m >= 7 && Settles(f, p + 100) && (f == 0 ==> e > 0)
    requires Position(|s| * m, p) == 300 * (e * m) + f * m + p + 100
    ensures Stretch(s, m) != [] && Scaled(Stretch(s, m), p) == Steady(s, e, f, p + 100, m)
  {
    var c := p + 100;
    var v := f * m + c;
    assert (300 - f) * m == 300 * m - f * m;
    if f == 0 {
      OnBoundary(s, p, m, e, c);
    } else {
      Scales(f, 7, m);
      if v < 300 * m {
        InElement(s, p, m, e, v);
      } else {
        Scales(300, f * m, 300 * m);
        PastElement(s, p, m, e, v - 300 * m);
      }
    }
  }

  // ---------------------------------------------------------------- more or fewer copies

  /** Whether `n` copies can stand in for `m` without lowering any reported percentile of any data. */
  predicate Enough(m: nat, n: nat) {
    m == n || 7 <= n < m || 13 <= m < n
  }

  lemma ExcessFalls(f: nat, c: nat, m: nat, more: nat)
    requires f < 300 && m <= more
    ensures Excess(f, c, more) <= Excess(f, c, m)
  {
    Scales(300 - f, m, more);
  }

  lemma NoExcess(f: nat, c: nat, m: nat)
    requires 0 < f && Settles(f, c) && m >= 13
    ensures Excess(f, c, m) == 0
  {
    Scales(300 - f, 13, m);
  }

  lemma SteadyOrdered(s: seq<nat>, e: nat, f: nat, c: nat, m: nat, n: nat)
    requires e < |s| && Sorted(s) && Settles(f, c) && (f == 0 ==> e > 0) && Enough(m, n)
    ensures Steady(s, e, f, c, m) <= Steady(s, e, f, c, n)
  {
    if f > 0 && m != n {
      if m < n {
        NoExcess(f, c, m);
        NoExcess(f, c, n);
      } else {
        ExcessFalls(f, c, n, m);
        Scales(Next(s, e) - s[e], Excess(f, c, m), Excess(f, c, n));
      }
    }
  }

  lemma InteriorOfCopies(s: seq<nat>, p: nat, m: nat, n: nat)
    requires s != [] && Sorted(s) && Interior(p) && m >= 7 && n >= 7 && Enough(m, n)
    ensures Stretch(s, m) != [] && Stretch(s, n) != [] && Scaled(Stretch(s, m), p) <= Scaled(Stretch(s, n), p)
  {
    var e, f := Element(|s|, p), Rest(|s|, p);
    ElementSettles(|s|, p);
    PositionOfCopies(|s|, p, m);
    PositionOfCopies(|s|, p, n);
    SteadyScaled(s, p, m, e, f);
    SteadyScaled(s, p, n, e, f);
    SteadyOrdered(s, e, f, p + 100, m, n);
  }

  lemma EndOfCopies(s: seq<nat>, m: nat, p: nat)
    requires s != [] && m > 0 && (p == 0 || p == 100)
    ensures Stretch(s, m) != [] && Scaled(Stretch(s, m), p) == 300 * if p == 0 then s[0] else s[|s|-1]
  {
    StretchAt(s, m, 0, 0);
    StretchAt(s, m, |s| - 1, m - 1);
    OneMoreTimes(|s|, m);
    EndOfSorted(Stretch(s, m));
  }

  lemma EndOfSorted(t: seq<nat>)
    requires t != []
    ensures Scaled(t, 0) == 300 * t[0] && Scaled(t, 100) == 300 * t[|t|-1]
  {
    assert Position(|t|, 100) == 300 * |t| + 200;
    Quotient(|t|, 200, Position(|t|, 100));
  }

  lemma StretchKeepsPercentile(s: seq<nat>, p: nat, m: nat, n: nat)
    requires s != [] && Sorted(s) && (Interior(p) || p == 0 || p == 100) && Enough(m, n) && m > 0
    ensures Stretch(s, m) != [] && Stretch(s, n) != [] && Scaled(Stretch(s, m), p) <= Scaled(Stretch(s, n), p)
  {
    if Interior(p) && m != n {
      InteriorOfCopies(s, p, m, n);
    } else if Interior(p) {
      StretchAt(s, m, 0, 0);
    } else {
      EndOfCopies(s, m, p);
      EndOfCopies(s, n, p);
    }
  }

  lemma CopiesPercentile(a: seq<nat>, base: seq<nat>, m: nat, p: nat)
    requires IsCopies(a, base, m) && p <= 100
    ensures a == [] <==> base == [] || m == 0
    ensures a == [] <==> Stretch(Sort(base), m) == []
    ensures a != [] ==> Percentile(a, p).value == Round(Scaled(Stretch(Sort(base), m), p))
  {
    SortedCopies(a, base, m);
    SortNonEmpty(a);
    SortNonEmpty(base);
    StretchSize(Sort(base), m);
    NoProduct(|base|, m);
  }

  lemma SortedCopiesPercentile(a: seq<nat>, s: seq<nat>, m: nat, p: nat)
    requires IsCopies(a, s, m) && Sorted(s) && s != [] && m > 0 && p <= 100
    ensures a != [] && Stretch(s, m) != [] && Percentile(a, p).value == Round(Scaled(Stretch(s, m), p))
  {
    CopiesPercentile(a, s, m, p);
    SortedUnique(Sort(s), s);
  }

  lemma NoProduct(a: nat, b: nat)
    ensures a * b == 0 <==> a == 0 || b == 0
  {
  }

  /** With enough copies no percentile a level uses is lower than with the copies there were. */
  lemma EnoughKeepsPercentile(a: seq<nat>, b: seq<nat>, base: seq<nat>, m: nat, n: nat, level: PriorityLevel)
    requires a != [] && IsCopies(a, base, m) && IsCopies(b, base, n) && Enough(m, n)
    ensures b != [] && Percentile(a, ToPercentile(level)).value <= Percentile(b, ToPercentile(level)).value
  {
    var p := ToPercentile(level);
    CopiesPercentile(a, base, m, p);
    CopiesPercentile(b, base, n, p);
    SortNonEmpty(base);
    StretchKeepsPercentile(Sort(base), p, m, n);
  }
}
