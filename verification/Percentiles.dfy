/**
 Percentiles and the six-level estimate. A percentile of `n` fees interpolates between two
 neighbouring order statistics; with fees whole numbers it is a multiple of 1/300, so it is
 computed here as `Scaled`, three hundred times its value. `Definition8` is the same quantity in
 real arithmetic, as the statistics library writes it.
 */
module Percentiles {
  import opened Options
  import opened Sequences

  datatype PriorityLevel = Min | Low | Medium | High | VeryHigh | UnsafeMax | Default

  /** Only the two extreme levels are exact order statistics. */
  function ToPercentile(level: PriorityLevel): (p: nat)
    ensures p <= 100 && (p == 0 <==> level.Min?) && (p == 100 <==> level.UnsafeMax?)
    ensures level.Default? ==> p == 50
  {
    match level
    case Min => 0
    case Low => 25
    case Medium => 50
    case High => 75
    case VeryHigh => 95
    case UnsafeMax => 100
    case Default => 50
  }

  /** Hyndman and Fan's definition 8, clamped to the extreme values at both ends. */
  ghost function Definition8(sorted: seq<nat>, p: nat): real
    requires sorted != [] && p <= 100
  {
    QuantileAt(sorted, p as real / 100.0, Height(|sorted|, p))
  }

  ghost function Height(n: nat, p: nat): real {
    (n as real + 1.0 / 3.0) * (p as real / 100.0) + 1.0 / 3.0
  }

  ghost function QuantileAt(sorted: seq<nat>, tau: real, h: real): real
    requires sorted != []
  {
    var n, hf := |sorted|, h.Floor;
    if hf <= 0 || tau == 0.0 then sorted[0] as real
    else if hf >= n || tau == 1.0 then sorted[n-1] as real
    else sorted[hf-1] as real + (h - hf as real) * (sorted[hf] as real - sorted[hf-1] as real)
  }

  function Position(n: nat, p: nat): nat {
    (3 * n + 1) * p + 100
  }

  function Scaled(sorted: seq<nat>, p: nat): int
    requires sorted != [] && p <= 100
  {
    var n := |sorted|;
    var k, r := Position(n, p) / 300, Position(n, p) % 300;
    if k == 0 || p == 0 then 300 * sorted[0]
    else if k >= n || p == 100 then 300 * sorted[n-1]
    else
      var lo: int, hi: int := sorted[k-1], sorted[k];
      300 * lo + r * (hi - lo)
  }

  /** Half away from zero, which on non-negative values is half up. */
  function Round(scaled: int): int {
    (scaled + 150) / 300
  }

  function Max(a: nat, b: nat): nat {
    if a >= b then a else b
  }

  /** The rounded percentile of unsorted data; no data has none (NaN in the source). */
  function Percentile(data: seq<nat>, p: nat): (r: Option<nat>)
    requires p <= 100
    ensures r == None <==> data == []
  {
    if data == [] then None
    else
      SortNonEmpty(data);
      ScaledWithin(Sort(data), p);
      Some(Round(Scaled(Sort(data), p)))
  }

  lemma SortNonEmpty(data: seq<nat>)
    ensures |Sort(data)| == |data|
  {
    SameSize(data, Sort(data));
  }

  lemma PositionAsReal(n: nat, p: nat)
    ensures Height(n, p) == Position(n, p) as real / 300.0
  {
    var np := n * p;
    assert (3 * n + 1) * p == 3 * np + p;
    assert (n as real) * (p as real) == np as real;
    assert (n as real + 1.0 / 3.0) * (p as real / 100.0) == (n as real) * (p as real) / 100.0 + (p as real) / 300.0;
  }

  lemma FloorOfScaled(v: int)
    ensures (v as real / 300.0).Floor == v / 300
    ensures v as real / 300.0 - (v / 300) as real == (v % 300) as real / 300.0
    ensures (v as real / 300.0 + 0.5).Floor == Round(v)
  {
    assert v == 300 * (v / 300) + v % 300;
    assert v + 150 == 300 * Round(v) + (v + 150) % 300;
  }

  lemma InterpolationAsReal(lo: int, hi: int, r: int, f: real)
    requires f == r as real / 300.0
    ensures (300 * lo + r * (hi - lo)) as real == 300.0 * (lo as real + f * (hi as real - lo as real))
  {
    var d := hi - lo;
    assert d as real == hi as real - lo as real;
    assert (r * d) as real == (r as real) * (d as real);
    assert 300.0 * (f * (d as real)) == (r as real) * (d as real);
  }

  lemma QuantileAsScaled(sorted: seq<nat>, p: nat, h: real)
    requires sorted != [] && p <= 100 && h == Position(|sorted|, p) as real / 300.0
    ensures Scaled(sorted, p) as real == 300.0 * QuantileAt(sorted, p as real / 100.0, h)
  {
    var n, v, tau := |sorted|, Position(|sorted|, p), p as real / 100.0;
    FloorOfScaled(v);
    var k := v / 300;
    assert (tau == 0.0 <==> p == 0) && (tau == 1.0 <==> p == 100);
    if 0 < p < 100 && 0 < k < n {
      InterpolationAsReal(sorted[k-1], sorted[k], v % 300, h - k as real);
    }
  }

  /** The integer form is the library's formula: three hundred times it, and rounded alike. */
  lemma ScaledIsDefinition8(sorted: seq<nat>, p: nat)
    requires sorted != [] && p <= 100
    ensures Scaled(sorted, p) as real == 300.0 * Definition8(sorted, p)
    ensures Round(Scaled(sorted, p)) == (Definition8(sorted, p) + 0.5).Floor
  {
    PositionAsReal(|sorted|, p);
    QuantileAsScaled(sorted, p, Height(|sorted|, p));
    FloorOfScaled(Scaled(sorted, p));
  }

  // ---------------------------------------------------------------- order

  lemma Interpolates(lo: nat, hi: nat, r: nat, r': nat)
    requires lo <= hi && r <= r' <= 300
    ensures 300 * lo <= 300 * lo + r * (hi - lo) <= 300 * lo + r' * (hi - lo) <= 300 * hi
  {
    var d := hi - lo;
    assert r * d <= r' * d <= 300 * d;
  }

  /** The library's positions stay in range, and every percentile lies between the neighbours it interpolates. */
  lemma ScaledBetween(sorted: seq<nat>, p: nat)
    requires sorted != [] && Sorted(sorted) && 0 < p < 100 && 0 < Position(|sorted|, p) / 300 < |sorted|
    ensures var k := Position(|sorted|, p) / 300; 300 * sorted[k-1] <= Scaled(sorted, p) <= 300 * sorted[k]
  {
    var k, r := Position(|sorted|, p) / 300, Position(|sorted|, p) % 300;
    Interpolates(sorted[k-1], sorted[k], r, r);
  }

  lemma ScaledWithin(sorted: seq<nat>, p: nat)
    requires sorted != [] && Sorted(sorted) && p <= 100
    ensures 300 * sorted[0] <= Scaled(sorted, p) <= 300 * sorted[|sorted|-1]
  {
    if 0 < p < 100 && 0 < Position(|sorted|, p) / 300 < |sorted| {
      ScaledBetween(sorted, p);
    }
  }

  lemma PositionMonotone(n: nat, p: nat, q: nat)
    requires p <= q
    ensures Position(n, p) <= Position(n, q)
    ensures Position(n, p) / 300 <= Position(n, q) / 300
  {
    assert (3 * n + 1) * (q - p) >= 0;
    assert (3 * n + 1) * q == (3 * n + 1) * p + (3 * n + 1) * (q - p);
  }

  /** A higher percentile of the same data is never lower, across every change of interpolation interval. */
  lemma ScaledMonotone(sorted: seq<nat>, p: nat, q: nat)
    requires sorted != [] && Sorted(sorted) && p <= q <= 100
    ensures Scaled(sorted, p) <= Scaled(sorted, q)
  {
    var n := |sorted|;
    PositionMonotone(n, p, q);
    ScaledWithin(sorted, p);
    ScaledWithin(sorted, q);
    var j, k := Position(n, p) / 300, Position(n, q) / 300;
    if 0 < p && q < 100 && 0 < j && k < n {
      ScaledBetween(sorted, p);
      ScaledBetween(sorted, q);
      if j == k {
        Interpolates(sorted[k-1], sorted[k], Position(n, p) % 300, Position(n, q) % 300);
      } else {
        assert sorted[j] <= sorted[k-1];
      }
    }
  }

  lemma PercentileMonotone(data: seq<nat>, p: nat, q: nat)
    requires data != [] && p <= q <= 100
    ensures Percentile(data, p).value <= Percentile(data, q).value
  {
    SortNonEmpty(data);
    ScaledMonotone(Sort(data), p, q);
  }

  lemma PercentilePermuted(a: seq<nat>, b: seq<nat>, p: nat)
    requires multiset(a) == multiset(b) && p <= 100
    ensures Percentile(a, p) == Percentile(b, p)
  {
    SameSize(a, b);
    SortPermuted(a, b);
  }

  /**
   What a percentile is, in the real formula: with the fees in order, position
   (n + 1/3) p + 1/3 between neighbours, the ends beyond it, rounded half up.
   */
  lemma PercentileIs(data: seq<nat>, sorted: seq<nat>, p: nat)
    requires data != [] && p <= 100 && Sorted(sorted) && multiset(sorted) == multiset(data)
    ensures |sorted| == |data|
    ensures var n, h := |sorted|, (|sorted| as real + 1.0 / 3.0) * (p as real / 100.0) + 1.0 / 3.0;
      var k := h.Floor;
      var x: real :=
        if k <= 0 || p == 0 then sorted[0] as real
        else if k >= n || p == 100 then sorted[n-1] as real
        else sorted[k-1] as real + (h - k as real) * (sorted[k] as real - sorted[k-1] as real);
      Percentile(data, p) == Some((x + 0.5).Floor)
  {
    SameSize(data, sorted);
    PercentileOfSorted(data, sorted, p);
    RoundedDefinition8(sorted, p);
    Definition8Is(sorted, p);
  }

  lemma RoundedDefinition8(sorted: seq<nat>, p: nat)
    requires sorted != [] && p <= 100
    ensures Round(Scaled(sorted, p)) == (Definition8(sorted, p) + 0.5).Floor
  {
    ScaledIsDefinition8(sorted, p);
  }

  lemma Definition8Is(sorted: seq<nat>, p: nat)
    requires sorted != [] && p <= 100
    ensures var n, h := |sorted|, (|sorted| as real + 1.0 / 3.0) * (p as real / 100.0) + 1.0 / 3.0;
      var k := h.Floor;
      Definition8(sorted, p) ==
        if k <= 0 || p == 0 then sorted[0] as real
        else if k >= n || p == 100 then sorted[n-1] as real
        else sorted[k-1] as real + (h - k as real) * (sorted[k] as real - sorted[k-1] as real)
  {
    FractionEnds(p);
  }

  lemma FractionEnds(p: nat)
    ensures p as real / 100.0 == 0.0 <==> p == 0
    ensures p as real / 100.0 == 1.0 <==> p == 100
  {
  }

  /** A percentile can be read off any sorted listing of the data. */
  lemma PercentileOfSorted(data: seq<nat>, sorted: seq<nat>, p: nat)
    requires data != [] && p <= 100 && Sorted(sorted) && multiset(sorted) == multiset(data)
    ensures sorted != [] && Percentile(data, p) == Some(Round(Scaled(sorted, p)))
  {
    SameSize(data, sorted);
    SortedUnique(Sort(data), sorted);
  }

  ghost predicate IsMinimum(m: nat, data: seq<nat>) {
    m in data && forall x :: x in data ==> m <= x
  }

  ghost predicate IsMaximum(m: nat, data: seq<nat>) {
    m in data && forall x :: x in data ==> x <= m
  }

  /** The extreme levels are exact: the 0th percentile is the least fee and the 100th the greatest. */
  lemma ExtremePercentiles(data: seq<nat>)
    requires data != []
    ensures IsMinimum(Percentile(data, 0).value, data)
    ensures IsMaximum(Percentile(data, 100).value, data)
  {
    var s := Sort(data);
    SameSize(data, s);
    var n := |s|;
    assert Position(n, 0) == 100;
    assert Position(n, 100) == 300 * n + 200;
    assert Position(n, 100) / 300 == n;
    forall x | x in data ensures s[0] <= x <= s[n-1] {
      assert x in s;
    }
    assert s[0] in s && s[n-1] in s;
  }

  // ---------------------------------------------------------------- the six levels

  datatype Estimates = Estimates(min: nat, low: nat, medium: nat, high: nat, veryHigh: nat, unsafeMax: nat) {
    function At(level: PriorityLevel): nat {
      match level
      case Min => min
      case Low => low
      case Medium => medium
      case High => high
      case VeryHigh => veryHigh
      case UnsafeMax => unsafeMax
      case Default => medium
    }
  }

  const Zero := Estimates(0, 0, 0, 0, 0, 0)

  /** A missing percentile leaves the estimate as it was. */
  function RaiseTo(estimate: nat, percentile: Option<nat>): nat {
    match percentile
    case None => estimate
    case Some(v) => Max(v, estimate)
  }

  function Raise(data: seq<nat>, e: Estimates): Estimates {
    Estimates(
      RaiseTo(e.min, Percentile(data, ToPercentile(Min))),
      RaiseTo(e.low, Percentile(data, ToPercentile(Low))),
      RaiseTo(e.medium, Percentile(data, ToPercentile(Medium))),
      RaiseTo(e.high, Percentile(data, ToPercentile(High))),
      RaiseTo(e.veryHigh, Percentile(data, ToPercentile(VeryHigh))),
      RaiseTo(e.unsafeMax, Percentile(data, ToPercentile(UnsafeMax))))
  }

  lemma RaiseAt(data: seq<nat>, e: Estimates, level: PriorityLevel)
    ensures Raise(data, e).At(level) == RaiseTo(e.At(level), Percentile(data, ToPercentile(level)))
  {
  }

  /** The library's percentile selects in place: it may leave the buffer in any other order. */
  method PercentileInPlace(buffer: array<nat>, p: nat) returns (r: Option<nat>)
    requires p <= 100
    modifies buffer
    ensures multiset(buffer[..]) == multiset(old(buffer[..]))
    ensures r == Percentile(old(buffer[..]), p)
  {
    r := Percentile(buffer[..], p);
    var order: seq<nat> :| multiset(order) == multiset(buffer[..]);
    SameSize(order, buffer[..]);
    forall i | 0 <= i < buffer.Length {
      buffer[i] := order[i];
    }
    assert buffer[..] == order;
  }

  /** Six selections on one buffer; none disturbs the next, whatever order it leaves behind. */
  method EstimateMaxValues(fees: array<nat>, start: Estimates) returns (estimates: Estimates)
    modifies fees
    ensures multiset(fees[..]) == multiset(old(fees[..]))
    ensures estimates == Raise(old(fees[..]), start)
  {
    estimates := start;
    ghost var data := fees[..];
    var v := PercentileInPlace(fees, ToPercentile(Min));
    estimates := estimates.(min := RaiseTo(estimates.min, v));
    PercentilePermuted(fees[..], data, 25);
    v := PercentileInPlace(fees, ToPercentile(Low));
    estimates := estimates.(low := RaiseTo(estimates.low, v));
    PercentilePermuted(fees[..], data, 50);
    v := PercentileInPlace(fees, ToPercentile(Medium));
    estimates := estimates.(medium := RaiseTo(estimates.medium, v));
    PercentilePermuted(fees[..], data, 75);
    v := PercentileInPlace(fees, ToPercentile(High));
    estimates := estimates.(high := RaiseTo(estimates.high, v));
    PercentilePermuted(fees[..], data, 95);
    v := PercentileInPlace(fees, ToPercentile(VeryHigh));
    estimates := estimates.(veryHigh := RaiseTo(estimates.veryHigh, v));
    PercentilePermuted(fees[..], data, 100);
    v := PercentileInPlace(fees, ToPercentile(UnsafeMax));
    estimates := estimates.(unsafeMax := RaiseTo(estimates.unsafeMax, v));
  }
}
