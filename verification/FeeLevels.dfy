/**
 The fold of the groups into six levels. The groups come out of a hash map in no particular
 order; `IsLevel` says what a level is without any order, and the fold meets it for every order.
 */
module FeeLevels {
  import opened Options
  import opened Sequences
  import opened FeeTracker
  import opened FeeCalculation
  import opened Percentiles

  type GroupMap = map<DataType, seq<nat>>

  /** The estimates of the groups visited so far, in the order they come. */
  function Fold(order: seq<DataType>, groups: GroupMap): Estimates
    requires forall d :: d in order ==> d in groups
  {
    if order == [] then Zero
    else
      var n := |order| - 1;
      assert order[n] in order;
      assert forall d :: d in order[..n] ==> d in order;
      Raise(groups[order[n]], Fold(order[..n], groups))
  }

  ghost predicate Bounds(v: nat, groups: GroupMap, keys: set<DataType>, p: nat)
    requires p <= 100 && keys <= groups.Keys
  {
    forall d :: d in keys && groups[d] != [] ==> Percentile(groups[d], p).value <= v
  }

  ghost predicate Attained(v: nat, groups: GroupMap, keys: set<DataType>, p: nat)
    requires p <= 100 && keys <= groups.Keys
  {
    exists d :: d in keys && groups[d] != [] && Percentile(groups[d], p).value == v
  }

  /** The largest percentile of any group, or zero when no group has data. */
  ghost predicate IsLevel(v: nat, groups: GroupMap, keys: set<DataType>, p: nat)
    requires p <= 100 && keys <= groups.Keys
  {
    Bounds(v, groups, keys, p) && (v == 0 || Attained(v, groups, keys, p))
  }

  lemma {:induction false} FoldIsLevel(order: seq<DataType>, groups: GroupMap, level: PriorityLevel)
    requires Elements(order) <= groups.Keys
    ensures forall d :: d in order ==> d in groups
    ensures IsLevel(Fold(order, groups).At(level), groups, Elements(order), ToPercentile(level))
  {
    forall d | d in order ensures d in groups { assert d in Elements(order); }
    if order != [] {
      var n, p := |order| - 1, ToPercentile(level);
      var last, rest := order[n], order[..n];
      assert Elements(order) == Elements(rest) + {last};
      FoldIsLevel(rest, groups, level);
      RaiseAt(groups[last], Fold(rest, groups), level);
      LevelOneMore(Fold(rest, groups).At(level), groups, Elements(rest), last, p);
    }
  }

  lemma LevelOneMore(v: nat, groups: GroupMap, keys: set<DataType>, last: DataType, p: nat)
    requires p <= 100 && keys + {last} <= groups.Keys && IsLevel(v, groups, keys, p)
    ensures IsLevel(RaiseTo(v, Percentile(groups[last], p)), groups, keys + {last}, p)
  {
    var w := RaiseTo(v, Percentile(groups[last], p));
    assert w >= v && (w == v || (groups[last] != [] && w == Percentile(groups[last], p).value));
    assert Bounds(w, groups, keys + {last}, p);
    if w == v && v != 0 {
      var d :| d in keys && groups[d] != [] && Percentile(groups[d], p).value == v;
      assert d in keys + {last};
    } else if w != 0 {
      assert last in keys + {last} && Percentile(groups[last], p).value == w;
    }
  }

  lemma LevelUnique(v: nat, w: nat, groups: GroupMap, keys: set<DataType>, p: nat)
    requires p <= 100 && keys <= groups.Keys
    requires IsLevel(v, groups, keys, p) && IsLevel(w, groups, keys, p)
    ensures v == w
  {
  }

  /** The six levels of a set of groups. */
  ghost function Levels(groups: GroupMap): Estimates {
    var order := Listing(groups.Keys);
    assert forall d :: d in order ==> d in Elements(order);
    Fold(order, groups)
  }

  /** What each level is: the pointwise maximum of zero and the groups' percentiles. */
  lemma LevelsAre(groups: GroupMap, level: PriorityLevel)
    ensures IsLevel(Levels(groups).At(level), groups, groups.Keys, ToPercentile(level))
  {
    FoldIsLevel(Listing(groups.Keys), groups, level);
  }

  lemma GroupBelowLevel(groups: GroupMap, d: DataType, level: PriorityLevel)
    requires d in groups && groups[d] != []
    ensures Percentile(groups[d], ToPercentile(level)).value <= Levels(groups).At(level)
  {
    LevelsAre(groups, level);
  }

  lemma LevelAtMost(groups: GroupMap, level: PriorityLevel, v: nat)
    requires forall d :: d in groups && groups[d] != [] ==> Percentile(groups[d], ToPercentile(level)).value <= v
    ensures Levels(groups).At(level) <= v
  {
    LevelsAre(groups, level);
  }

  /** Whatever order the map yields its groups in, the fold ends in the same estimates. */
  lemma FoldOrderIndependent(order: seq<DataType>, groups: GroupMap)
    requires Elements(order) == groups.Keys
    ensures forall d :: d in order ==> d in groups
    ensures Fold(order, groups) == Levels(groups)
  {
    forall level: PriorityLevel
      ensures (forall d :: d in order ==> d in groups) && Fold(order, groups).At(level) == Levels(groups).At(level)
    {
      FoldIsLevel(order, groups, level);
      LevelsAre(groups, level);
      LevelUnique(Fold(order, groups).At(level), Levels(groups).At(level), groups, groups.Keys, ToPercentile(level));
    }
    SameLevels(Fold(order, groups), Levels(groups));
  }

  lemma SameLevels(a: Estimates, b: Estimates)
    requires forall level: PriorityLevel :: a.At(level) == b.At(level)
    ensures a == b
  {
    assert a.At(Min) == b.At(Min) && a.At(Low) == b.At(Low) && a.At(Medium) == b.At(Medium);
    assert a.At(High) == b.At(High) && a.At(VeryHigh) == b.At(VeryHigh) && a.At(UnsafeMax) == b.At(UnsafeMax);
  }

  // ---------------------------------------------------------------- comparing queries

  /** Every group of `small` is, up to the order of its fees, a group of `large`. */
  ghost predicate GroupsWithin(small: GroupMap, large: GroupMap) {
    forall d :: d in small ==> d in large && multiset(small[d]) == multiset(large[d])
  }

  lemma MoreGroupsRaise(small: GroupMap, large: GroupMap, level: PriorityLevel)
    requires GroupsWithin(small, large)
    ensures Levels(small).At(level) <= Levels(large).At(level)
  {
    LevelsAre(small, level);
    LevelsAre(large, level);
    var v, p := Levels(small).At(level), ToPercentile(level);
    if v != 0 {
      var d :| d in small.Keys && small[d] != [] && Percentile(small[d], p).value == v;
      SameSize(small[d], large[d]);
      PercentilePermuted(small[d], large[d], p);
    }
  }

  lemma SameGroupsSameLevels(a: GroupMap, b: GroupMap)
    requires GroupsWithin(a, b) && GroupsWithin(b, a)
    ensures Levels(a) == Levels(b)
  {
    forall level: PriorityLevel ensures Levels(a).At(level) == Levels(b).At(level) {
      MoreGroupsRaise(a, b, level);
      MoreGroupsRaise(b, a, level);
    }
    SameLevels(Levels(a), Levels(b));
  }

  /** A level of a higher percentile is never lower, over any groups, some of which may be empty. */
  lemma LevelsMonotone(groups: GroupMap, lower: PriorityLevel, higher: PriorityLevel)
    requires ToPercentile(lower) <= ToPercentile(higher)
    ensures Levels(groups).At(lower) <= Levels(groups).At(higher)
  {
    LevelsAre(groups, lower);
    LevelsAre(groups, higher);
    var v, p := Levels(groups).At(lower), ToPercentile(lower);
    if v != 0 {
      var d :| d in groups.Keys && groups[d] != [] && Percentile(groups[d], p).value == v;
      PercentileMonotone(groups[d], p, ToPercentile(higher));
    }
  }

  // ---------------------------------------------------------------- the calculations

  datatype GroupDetails = GroupDetails(estimates: Estimates, count: nat)

  ghost function Details(groups: GroupMap): map<DataType, GroupDetails> {
    map d | d in groups :: DetailOf(groups[d])
  }

  function DetailOf(data: seq<nat>): GroupDetails {
    GroupDetails(Raise(data, Zero), |data|)
  }

  /** The estimate is the pointwise maximum of zero and the details reported beside it. */
  lemma DetailsAgree(groups: GroupMap, level: PriorityLevel)
    ensures forall d :: d in Details(groups) ==> Details(groups)[d].estimates.At(level) <= Levels(groups).At(level)
    ensures Levels(groups).At(level) == 0 || exists d :: d in Details(groups) && Details(groups)[d].estimates.At(level) == Levels(groups).At(level)
  {
    LevelsAre(groups, level);
    var v, p := Levels(groups).At(level), ToPercentile(level);
    forall d | d in groups ensures Details(groups)[d].estimates.At(level) == RaiseTo(0, Percentile(groups[d], p)) <= v {
      RaiseAt(groups[d], Zero, level);
    }
    if v != 0 {
      var d :| d in groups.Keys && groups[d] != [] && Percentile(groups[d], p).value == v;
      assert d in Details(groups);
    }
  }

  /** Each detail is its own group's percentiles and size; a group without data reports zeros. */
  lemma DetailsAre(groups: GroupMap, d: DataType, level: PriorityLevel)
    ensures Details(groups).Keys == groups.Keys
    ensures d in groups ==> Details(groups)[d].count == |groups[d]|
    ensures d in groups && groups[d] != [] ==>
      Percentile(groups[d], ToPercentile(level)) == Some(Details(groups)[d].estimates.At(level))
    ensures d in groups && groups[d] == [] ==> Details(groups)[d].estimates.At(level) == 0
  {
    if d in groups {
      DetailIs(groups[d], level);
    }
  }

  lemma DetailIs(data: seq<nat>, level: PriorityLevel)
    ensures DetailOf(data).count == |data|
    ensures data != [] ==> Percentile(data, ToPercentile(level)) == Some(DetailOf(data).estimates.At(level))
    ensures data == [] ==> DetailOf(data).estimates.At(level) == 0
  {
    RaiseAt(data, Zero, level);
  }

  method GetGroups(tracker: PriorityFeeTracker, algorithm: Algorithm, q: Query) returns (data: GroupMap)
    requires tracker.Keyed()
    ensures data == Groups(algorithm, old(tracker.Views()), q)
  {
    match algorithm {
      case Calculation1 => data := GetV1(tracker, q);
      case Calculation2 => data := GetV2(tracker, q);
    }
  }

  /** The six percentiles run on a buffer of their own. */
  method RaiseBuffer(data: seq<nat>, start: Estimates) returns (estimates: Estimates)
    ensures estimates == Raise(data, start)
  {
    var buffer := new nat[|data|](i requires 0 <= i < |data| => data[i]);
    assert buffer[..] == data;
    estimates := EstimateMaxValues(buffer, start);
  }

  method DetailBuffer(data: seq<nat>) returns (detail: GroupDetails)
    ensures detail == DetailOf(data)
  {
    var estimates := RaiseBuffer(data, Zero);
    detail := GroupDetails(estimates, |data|);
  }

  method FoldGroups(data: GroupMap) returns (estimates: Estimates)
    ensures estimates == Levels(data)
  {
    estimates := Zero;
    var rest := data.Keys;
    ghost var order: seq<DataType> := [];
    while rest != {}
      invariant rest <= data.Keys
      invariant Elements(order) == data.Keys - rest
      invariant (forall d :: d in order ==> d in data) && estimates == Fold(order, data)
      decreases rest
    {
      var d :| d in rest;
      estimates := RaiseBuffer(data[d], estimates);
      rest := rest - {d};
      assert (order + [d])[..|order|] == order;
      assert Elements(order + [d]) == Elements(order) + {d};
      order := order + [d];
    }
    FoldOrderIndependent(order, data);
  }

  method CalculatePriorityFee(tracker: PriorityFeeTracker, algorithm: Algorithm, q: Query) returns (estimates: Estimates)
    requires tracker.Keyed()
    ensures estimates == Levels(Groups(algorithm, old(tracker.Views()), q))
  {
    var data := GetGroups(tracker, algorithm, q);
    estimates := FoldGroups(data);
  }

  method CalculatePriorityFeeDetails(tracker: PriorityFeeTracker, algorithm: Algorithm, q: Query)
    returns (estimates: Estimates, details: map<DataType, GroupDetails>)
    requires tracker.Keyed()
    ensures estimates == Levels(Groups(algorithm, old(tracker.Views()), q))
    ensures details == Details(Groups(algorithm, old(tracker.Views()), q))
  {
    var data := GetGroups(tracker, algorithm, q);
    estimates := FoldGroups(data);
    details := DetailGroups(data);
  }

  method DetailGroups(data: GroupMap) returns (details: map<DataType, GroupDetails>)
    ensures details == Details(data)
  {
    details := map[];
    ghost var all := Details(data);
    assert all.Keys == data.Keys;
    var rest := data.Keys;
    while rest != {}
      invariant rest <= all.Keys == data.Keys
      invariant details.Keys == all.Keys - rest
      invariant forall d :: d in details ==> details[d] == all[d]
      decreases rest
    {
      var d :| d in rest;
      assert all[d] == DetailOf(data[d]);
      var detail := DetailBuffer(data[d]);
      details := details[d := detail];
      rest := rest - {d};
    }
    assert details.Keys == all.Keys;
  }
}
