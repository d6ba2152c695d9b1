/**
 Concrete values: the percentiles of the fees 0 to 100.
 */
module FeeWitnesses {
  import opened Options
  import opened Percentiles

  predicate Ramp(data: seq<nat>) {
    |data| == 101 && forall i :: 0 <= i < 101 ==> data[i] == i
  }

  lemma RampScaled(data: seq<nat>, p: nat)
    requires Ramp(data) && p <= 100
    ensures Scaled(data, p) == RampAt(p)
  {
    assert Position(101, p) == 304 * p + 100;
    if 0 < p < 100 {
      var k, r := Position(101, p) / 300, Position(101, p) % 300;
      assert 0 < k < 101 && 304 * p + 100 == 300 * k + r;
      assert data[k-1] == k - 1 && data[k] == k;
    }
  }

  function RampAt(p: nat): int {
    if p == 0 then 0 else if p == 100 then 30_000 else 304 * p - 200
  }

  lemma RampPercentile(data: seq<nat>, p: nat, v: nat)
    requires Ramp(data) && p <= 100 && v == Round(RampAt(p))
    ensures Percentile(data, p) == Some(v)
  {
    RampScaled(data, p);
    PercentileOfSorted(data, data, p);
  }

  /** The levels of the fees 0, 1, ..., 100. */
  lemma PinnedLevels(data: seq<nat>)
    requires Ramp(data)
    ensures Percentile(data, ToPercentile(Min)) == Some(0) && Percentile(data, ToPercentile(Low)) == Some(25)
    ensures Percentile(data, ToPercentile(Medium)) == Some(50) && Percentile(data, ToPercentile(High)) == Some(75)
    ensures Percentile(data, ToPercentile(VeryHigh)) == Some(96) && Percentile(data, ToPercentile(UnsafeMax)) == Some(100)
    ensures Percentile(data, 99) == Some(100)
  {
    RampPercentile(data, 0, 0);
    RampPercentile(data, 25, 25);
    RampPercentile(data, 50, 50);
    RampPercentile(data, 75, 75);
    RampPercentile(data, 95, 96);
    RampPercentile(data, 99, 100);
    RampPercentile(data, 100, 100);
  }
}
