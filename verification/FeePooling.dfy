/**
 The two algorithms compared fee by fee: what the per-account groups hold together against the
 one pooled group, the min level of both, and the per-version report against Global.
 */
module FeePooling {
  import opened Options
  import opened Sequences
  import opened SlotWindow
  import opened FeeModel
  import opened FeeTracker
  import opened FeeCalculation
  import opened Percentiles
  import opened FeeLevels
  import opened FeeQueries

  // ---------------------------------------------------------------- the min level

  lemma PooledInAccount(index: Index, q: Query, walk: seq<Slot>, x: nat) returns (a: Pubkey)
    requires !q.includeEmptySlots && x in Data(index, q, walk, AllAccounts)
    ensures a in q.accounts && x in Data(index, q, walk, Account(a))
  {
    GatherMember(walk, PooledChunk(index, q), x);
    var s :| s in walk && x in PooledChunk(index, q)(s);
    a := PooledFrom(index, q, s, x);
    GatherMember(walk, AccountChunk(index, q, a), x);
  }

  lemma PooledFrom(index: Index, q: Query, s: Slot, x: nat) returns (a: Pubkey)
    requires !q.includeEmptySlots && x in PooledChunk(index, q)(s)
    ensures a in q.accounts && x in AccountChunk(index, q, a)(s)
  {
    assert x in PooledHits(index, q)(s) || x in PooledZero(index, q)(s);
    GatherMember(q.accounts, Hit(index, q, s), x);
    a :| a in q.accounts && x in Hit(index, q, s)(a);
    CountPositive(q.accounts, a);
    RepeatMember(Part(index, q, s)(a), Count(q.accounts, a), x);
  }

  lemma AccountInPooled(index: Index, q: Query, walk: seq<Slot>, a: Pubkey, x: nat)
    requires !q.includeEmptySlots && a in q.accounts && x in Data(index, q, walk, Account(a))
    ensures x in Data(index, q, walk, AllAccounts)
  {
    GatherMember(walk, AccountChunk(index, q, a), x);
    var s :| s in walk && x in AccountChunk(index, q, a)(s);
    RepeatMember(Part(index, q, s)(a), Count(q.accounts, a), x);
    PooledHolds(index, q, s, a, x);
    GatherMember(walk, PooledChunk(index, q), x);
  }

  lemma PooledHolds(index: Index, q: Query, s: Slot, a: Pubkey, x: nat)
    requires a in q.accounts && !q.includeEmptySlots && x in Part(index, q, s)(a)
    ensures x in PooledChunk(index, q)(s)
  {
    assert x in Hit(index, q, s)(a);
    GatherMember(q.accounts, Hit(index, q, s), x);
    assert x in PooledHits(index, q)(s);
  }

  /** The least pooled fee is at most the least fee of some account that has any. */
  lemma SomeAccountMin(index: Index, q: Query, walk: seq<Slot>) returns (a: Pubkey)
    requires !q.includeEmptySlots && Data(index, q, walk, AllAccounts) != []
    ensures a in q.accounts && Data(index, q, walk, Account(a)) != []
    ensures Percentile(Data(index, q, walk, AllAccounts), 0).value <= Percentile(Data(index, q, walk, Account(a)), 0).value
  {
    var pooled := Data(index, q, walk, AllAccounts);
    a := PooledInAccount(index, q, walk, pooled[0]);
    var mine := Data(index, q, walk, Account(a));
    ExtremePercentiles(mine);
    ExtremePercentiles(pooled);
    AccountInPooled(index, q, walk, a, Percentile(mine, 0).value);
  }

  /** Without filling, grouping per account never lowers the min level, and naming accounts never does. */
  lemma MinLevels(index: Index, q: Query)
    requires !q.includeEmptySlots
    ensures Levels(Groups(Calculation2, index, GlobalOnly(q))).min
         <= Levels(Groups(Calculation1, index, q)).min
         <= Levels(Groups(Calculation2, index, q)).min
  {
    AtLeastGlobal(index, Calculation1, q, Min);
    var one, two, walk := Groups(Calculation1, index, q), Groups(Calculation2, index, q), Window(index, q.lookback);
    LevelsAre(one, Min);
    var v := Levels(one).At(Min);
    if v != 0 {
      var d :| d in one.Keys && one[d] != [] && Percentile(one[d], 0).value == v;
      GroupIsData(index, Calculation1, q, d);
      if d == Global {
        GroupIsData(index, Calculation2, q, Global);
        GroupBelowLevel(two, Global, Min);
      } else {
        var a := SomeAccountMin(index, q, walk);
        GroupIsData(index, Calculation2, q, Account(a));
        GroupBelowLevel(two, Account(a), Min);
      }
    }
  }

  // ---------------------------------------------------------------- pooling

  function Zeros(n: nat): multiset<nat> {
    multiset{}[0 := n]
  }

  function Misses(index: Index, accounts: seq<Pubkey>, s: Slot): nat {
    if accounts == [] then 0
    else Misses(index, accounts[..|accounts|-1], s) + (if Has(index, s, accounts[|accounts|-1]) then 0 else 1)
  }

  /** The (slot, requested account) pairs without an entry. */
  function TotalMisses(index: Index, accounts: seq<Pubkey>, walk: seq<Slot>): nat {
    if walk == [] then 0
    else TotalMisses(index, accounts, walk[..|walk|-1]) + Misses(index, accounts, walk[|walk|-1])
  }

  /** The slots that none of the requested accounts touched; none when nothing is requested. */
  function BlankSlots(index: Index, accounts: seq<Pubkey>, walk: seq<Slot>): nat {
    if walk == [] then 0
    else
      var blank := accounts != [] && AllMissed(index, accounts, walk[|walk|-1]);
      BlankSlots(index, accounts, walk[..|walk|-1]) + (if blank then 1 else 0)
  }

  function AccountDataOf(index: Index, q: Query, walk: seq<Slot>): Pubkey -> seq<nat> {
    a => Data(index, q, walk, Account(a))
  }

  function SlotDataOf(index: Index, q: Query, s: Slot): Pubkey -> seq<nat> {
    a => AccountChunk(index, q, a)(s)
  }

  /** All the account groups of the second algorithm, one after the other. */
  function AllGroups(index: Index, q: Query, walk: seq<Slot>, order: seq<Pubkey>): seq<nat> {
    Gather(order, AccountDataOf(index, q, walk))
  }

  function OnlyAt(x: Pubkey, f: Pubkey -> seq<nat>): Pubkey -> seq<nat> {
    a => if a == x then f(x) else []
  }

  function Occurrences(accounts: seq<Pubkey>, f: Pubkey -> seq<nat>): Pubkey -> seq<nat> {
    a => Repeat(f(a), Count(accounts, a))
  }

  lemma {:induction false} GatherOnly(order: seq<Pubkey>, x: Pubkey, f: Pubkey -> seq<nat>)
    requires NoDuplicates(order)
    ensures Gather(order, OnlyAt(x, f)) == if x in order then f(x) else []
  {
    if order != [] {
      var n := |order| - 1;
      GatherOnly(order[..n], x, f);
      assert order == order[..n] + [order[n]];
    }
  }

  /** Walking the distinct accounts, each as often as it is named, is walking the request. */
  lemma {:induction false} ByOccurrence(order: seq<Pubkey>, accounts: seq<Pubkey>, f: Pubkey -> seq<nat>)
    requires NoDuplicates(order) && Elements(accounts) <= Elements(order)
    ensures multiset(Gather(order, Occurrences(accounts, f))) == multiset(Gather(accounts, f))
  {
    if accounts == [] {
      NothingGathered(order, Occurrences(accounts, f));
    } else {
      var n := |accounts| - 1;
      var front, x := accounts[..n], accounts[n];
      assert x in Elements(accounts);
      assert Elements(front) <= Elements(accounts);
      ByOccurrence(order, front, f);
      forall a | a in order
        ensures multiset(Occurrences(accounts, f)(a)) == multiset(Occurrences(front, f)(a)) + multiset(OnlyAt(x, f)(a))
      {
        if a == x {
          assert Repeat(f(a), Count(accounts, a)) == Repeat(f(a), Count(front, a)) + f(a);
        }
      }
      GatherSplit(order, Occurrences(accounts, f), Occurrences(front, f), OnlyAt(x, f));
      GatherOnly(order, x, f);
    }
  }

  lemma {:induction false} PartsAreHitsAndZeros(index: Index, q: Query, accounts: seq<Pubkey>, s: Slot)
    requires s in index
    ensures multiset(Gather(accounts, Part(index, q, s)))
         == multiset(Gather(accounts, Hit(index, q, s))) + Zeros(if q.includeEmptySlots then Misses(index, accounts, s) else 0)
  {
    if accounts != [] {
      PartsAreHitsAndZeros(index, q, accounts[..|accounts|-1], s);
    }
  }

  lemma {:induction false} AllMissedAreMisses(index: Index, accounts: seq<Pubkey>, s: Slot)
    ensures Misses(index, accounts, s) <= |accounts|
    ensures AllMissed(index, accounts, s) <==> Misses(index, accounts, s) == |accounts|
  {
    if accounts != [] {
      var n := |accounts| - 1;
      AllMissedAreMisses(index, accounts[..n], s);
      assert accounts == accounts[..n] + [accounts[n]];
    }
  }

  /** Zeros the per-account groups hold beyond the pooled group's, for one slot. */
  function ExtraZeros(index: Index, q: Query, s: Slot): int {
    if q.includeEmptySlots then Misses(index, q.accounts, s) - |PooledZero(index, q)(s)| else 0
  }

  lemma ZerosAdd(a: nat, b: nat)
    ensures Zeros(a) + Zeros(b) == Zeros(a + b)
  {
  }

  lemma ShiftZeros(hits: multiset<nat>, z: nat, extra: nat)
    ensures hits + Zeros(z + extra) == hits + Zeros(z) + Zeros(extra)
  {
    ZerosAdd(z, extra);
  }

  lemma SlotPools(index: Index, q: Query, s: Slot, order: seq<Pubkey>)
    requires s in index && Lists(order, Elements(q.accounts))
    ensures ExtraZeros(index, q, s) >= 0
    ensures multiset(Gather(order, SlotDataOf(index, q, s))) == multiset(PooledChunk(index, q)(s)) + Zeros(ExtraZeros(index, q, s))
  {
    SlotByOccurrence(index, q, s, order);
    PartsAreHitsAndZeros(index, q, q.accounts, s);
    ExtraIs(index, q, s);
    ShiftZeros(multiset(PooledHits(index, q)(s)), |PooledZero(index, q)(s)|, ExtraZeros(index, q, s));
  }

  lemma ExtraIs(index: Index, q: Query, s: Slot)
    requires s in index
    ensures ExtraZeros(index, q, s) >= 0
    ensures |PooledZero(index, q)(s)| + ExtraZeros(index, q, s) == if q.includeEmptySlots then Misses(index, q.accounts, s) else 0
    ensures multiset(PooledChunk(index, q)(s)) == multiset(PooledHits(index, q)(s)) + Zeros(|PooledZero(index, q)(s)|)
  {
    AllMissedAreMisses(index, q.accounts, s);
    assert multiset(PooledZero(index, q)(s)) == Zeros(|PooledZero(index, q)(s)|);
  }

  lemma SlotByOccurrence(index: Index, q: Query, s: Slot, order: seq<Pubkey>)
    requires Lists(order, Elements(q.accounts))
    ensures multiset(Gather(order, SlotDataOf(index, q, s))) == multiset(Gather(q.accounts, Part(index, q, s)))
  {
    ByOccurrence(order, q.accounts, Part(index, q, s));
    forall a | a in order ensures SlotDataOf(index, q, s)(a) == Occurrences(q.accounts, Part(index, q, s))(a) {
      assert AccountChunk(index, q, a)(s) == Repeat(Part(index, q, s)(a), Count(q.accounts, a));
    }
    GatherSame(order, SlotDataOf(index, q, s), Occurrences(q.accounts, Part(index, q, s)));
  }

  /** The zeros the second algorithm's account groups hold beyond the pooled group's. */
  function Surplus(index: Index, q: Query, walk: seq<Slot>): int {
    if q.includeEmptySlots then TotalMisses(index, q.accounts, walk) - BlankSlots(index, q.accounts, walk) else 0
  }

  lemma {:induction false} BlanksAreMisses(index: Index, accounts: seq<Pubkey>, walk: seq<Slot>)
    ensures BlankSlots(index, accounts, walk) <= TotalMisses(index, accounts, walk)
  {
    if walk != [] {
      BlanksAreMisses(index, accounts, walk[..|walk|-1]);
      AllMissedAreMisses(index, accounts, walk[|walk|-1]);
    }
  }

  lemma SurplusOneMore(index: Index, q: Query, walk: seq<Slot>)
    requires walk != [] && walk[|walk|-1] in index
    ensures Surplus(index, q, walk) == Surplus(index, q, walk[..|walk|-1]) + ExtraZeros(index, q, walk[|walk|-1])
  {
  }

  /**
   The pooling law: the per-account groups together hold the pooled group's fees and, with
   filling, one zero for every missed (slot, account) pair in place of one per blank slot.
   */
  lemma {:induction false} PoolingLaw(index: Index, q: Query, walk: seq<Slot>, order: seq<Pubkey>)
    requires Elements(walk) <= index.Keys && Lists(order, Elements(q.accounts))
    ensures Surplus(index, q, walk) >= 0
    ensures multiset(AllGroups(index, q, walk, order)) == multiset(Data(index, q, walk, AllAccounts)) + Zeros(Surplus(index, q, walk))
  {
    BlanksAreMisses(index, q.accounts, walk);
    if walk == [] {
      NothingGathered(order, AccountDataOf(index, q, walk));
    } else {
      var n := |walk| - 1;
      var front, s := walk[..n], walk[n];
      assert s in Elements(walk) && Elements(front) <= Elements(walk);
      PoolingLaw(index, q, front, order);
      AllGroupsOneMore(index, q, walk, order);
      SlotPools(index, q, s, order);
      SurplusOneMore(index, q, walk);
      ZerosAdd(Surplus(index, q, front), ExtraZeros(index, q, s));
      PooledOneMore(index, q, walk);
    }
  }

  lemma PooledOneMore(index: Index, q: Query, walk: seq<Slot>)
    requires walk != []
    ensures multiset(Data(index, q, walk, AllAccounts))
         == multiset(Data(index, q, walk[..|walk|-1], AllAccounts)) + multiset(PooledChunk(index, q)(walk[|walk|-1]))
  {
  }

  lemma AllGroupsOneMore(index: Index, q: Query, walk: seq<Slot>, order: seq<Pubkey>)
    requires walk != []
    ensures var n := |walk| - 1;
      multiset(AllGroups(index, q, walk, order))
        == multiset(AllGroups(index, q, walk[..n], order)) + multiset(Gather(order, SlotDataOf(index, q, walk[n])))
  {
    var n := |walk| - 1;
    forall a | a in order
      ensures multiset(AccountDataOf(index, q, walk)(a))
           == multiset(AccountDataOf(index, q, walk[..n])(a)) + multiset(SlotDataOf(index, q, walk[n])(a))
    {
    }
    GatherSplit(order, AccountDataOf(index, q, walk), AccountDataOf(index, q, walk[..n]), SlotDataOf(index, q, walk[n]));
  }

  /** The same for the groups a query returns. */
  lemma PoolingOfQuery(index: Index, q: Query, order: seq<Pubkey>)
    requires Lists(order, Elements(q.accounts))
    ensures var walk := Window(index, q.lookback);
      && Surplus(index, q, walk) >= 0
      && multiset(AllGroups(index, q, walk, order)) == multiset(Groups(Calculation1, index, q)[AllAccounts]) + Zeros(Surplus(index, q, walk))
    ensures Window(index, q.lookback) != [] ==> forall a :: a in q.accounts ==>
      Held(Groups(Calculation2, index, q), Account(a)) == AccountDataOf(index, q, Window(index, q.lookback))(a)
  {
    WindowIsNewest(index, q.lookback);
    PoolingLaw(index, q, Window(index, q.lookback), order);
    GroupIsData(index, Calculation1, q, AllAccounts);
    forall a | a in q.accounts && Window(index, q.lookback) != []
      ensures Held(Groups(Calculation2, index, q), Account(a)) == AccountDataOf(index, q, Window(index, q.lookback))(a)
    {
      GroupIsData(index, Calculation2, q, Account(a));
    }
  }

  // ---------------------------------------------------------------- the per-version report

  function VersionChunk(index: Index, v: Version): Slot -> seq<nat> {
    s => if s in index then index[s].OfVersion(v).nonVote else []
  }

  /** The population of one version's report, listed in some order of the slots. */
  ghost function VersionData(index: Index, v: Version): seq<nat> {
    Gather(Listing(index.Keys), VersionChunk(index, v))
  }

  lemma {:induction false} VersionsSplit(index: Index, walk: seq<Slot>, q: Query)
    requires AllGood(index) && !q.includeVote
    ensures multiset(Data(index, q, walk, Global))
         == multiset(Gather(walk, VersionChunk(index, LegacyV0))) + multiset(Gather(walk, VersionChunk(index, V1)))
  {
    forall s | s in walk
      ensures multiset(GlobalChunk(index, false)(s)) == multiset(VersionChunk(index, LegacyV0)(s)) + multiset(VersionChunk(index, V1)(s))
    {
      if s in index {
        var f := index[s];
        assert VersionsPartition(f);
        assert multiset(f.fees.Kind(false)) == multiset(f.OfVersion(LegacyV0).Kind(false)) + multiset(f.OfVersion(V1).Kind(false));
        assert f.fees.Collect(false) == f.fees.Kind(false);
      }
    }
    GatherSplit(walk, GlobalChunk(index, false), VersionChunk(index, LegacyV0), VersionChunk(index, V1));
  }

  /** In every reachable state the two version populations are, together, Global's non-vote data without lookback. */
  lemma VersionReportPartitions(capacity: nat, log: seq<Sample>, q: Query)
    requires capacity >= 1 && !q.includeVote && q.lookback == None
    ensures var index := Run(capacity, log).index;
      var global := Data(index, q, Window(index, None), Global);
      && multiset(global) == multiset(VersionData(index, LegacyV0)) + multiset(VersionData(index, V1))
      && |global| == |VersionData(index, LegacyV0)| + |VersionData(index, V1)|
  {
    RunGood(capacity, log);
    var index := Run(capacity, log).index;
    VersionReportOver(index, q);
  }

  lemma VersionReportOver(index: Index, q: Query)
    requires AllGood(index) && !q.includeVote
    ensures var global := Data(index, q, Window(index, None), Global);
      && multiset(global) == multiset(VersionData(index, LegacyV0)) + multiset(VersionData(index, V1))
      && |global| == |VersionData(index, LegacyV0)| + |VersionData(index, V1)|
  {
    var walk, listing := Window(index, None), Listing(index.Keys);
    VersionsSplit(index, walk, q);
    WindowListing(index);
    GatherPermuted(walk, listing, VersionChunk(index, LegacyV0));
    GatherPermuted(walk, listing, VersionChunk(index, V1));
    SizeOfSum(Data(index, q, walk, Global), VersionData(index, LegacyV0), VersionData(index, V1));
  }

  lemma WindowListing(index: Index)
    ensures multiset(Window(index, None)) == multiset(Listing(index.Keys))
  {
    assert Window(index, None) == Descending(index.Keys);
    ListingsPermuted(Descending(index.Keys), Listing(index.Keys));
  }

  lemma SizeOfSum(a: seq<nat>, b: seq<nat>, c: seq<nat>)
    requires multiset(a) == multiset(b) + multiset(c)
    ensures |a| == |b| + |c|
  {
    assert |multiset(a)| == |a| && |multiset(b)| == |b| && |multiset(c)| == |c|;
  }

  lemma RaisePermuted(a: seq<nat>, b: seq<nat>)
    requires multiset(a) == multiset(b)
    ensures Raise(a, Zero) == Raise(b, Zero)
  {
    PercentilePermuted(a, b, 0);
    PercentilePermuted(a, b, 25);
    PercentilePermuted(a, b, 50);
    PercentilePermuted(a, b, 75);
    PercentilePermuted(a, b, 95);
    PercentilePermuted(a, b, 100);
  }

  datatype VersionReport = VersionReport(estimates: Estimates, count: nat)

  ghost function ReportOn(data: seq<nat>): Option<VersionReport> {
    if data == [] then None else Some(VersionReport(Raise(data, Zero), |data|))
  }

  lemma ReportPermuted(a: seq<nat>, b: seq<nat>)
    requires multiset(a) == multiset(b)
    ensures ReportOn(a) == ReportOn(b)
  {
    SameSize(a, b);
    RaisePermuted(a, b);
  }

  /** What a report on some fees says: nothing exactly without fees, else their percentiles and their number. */
  lemma ReportIs(data: seq<nat>, level: PriorityLevel)
    ensures ReportOn(data) == None <==> data == []
    ensures data != [] ==>
      var e := ReportOn(data).value.estimates;
      && Percentile(data, ToPercentile(level)) == Some(e.At(level))
      && e.min <= e.low <= e.medium <= e.high <= e.veryHigh <= e.unsafeMax
      && IsMinimum(e.min, data) && IsMaximum(e.unsafeMax, data)
      && ReportOn(data).value.count == |data|
  {
    RaiseAt(data, Zero, level);
    if data != [] {
      ReportOrdered(data);
      ExtremePercentiles(data);
    }
  }

  lemma ReportOrdered(data: seq<nat>)
    requires data != []
    ensures var e := Raise(data, Zero); e.min <= e.low <= e.medium <= e.high <= e.veryHigh <= e.unsafeMax
  {
    PercentileMonotone(data, 0, 25);
    PercentileMonotone(data, 25, 50);
    PercentileMonotone(data, 50, 75);
    PercentileMonotone(data, 75, 95);
    PercentileMonotone(data, 95, 100);
  }

  lemma VersionDataEmpty(index: Index, v: Version)
    ensures VersionData(index, v) == [] <==> forall s :: s in index ==> index[s].OfVersion(v).nonVote == []
  {
    forall s | s in index ensures s in Listing(index.Keys) { assert s in Elements(Listing(index.Keys)); }
    if forall s :: s in index ==> index[s].OfVersion(v).nonVote == [] {
      NothingGathered(Listing(index.Keys), VersionChunk(index, v));
    }
    if s :| s in index && index[s].OfVersion(v).nonVote != [] {
      GatherMember(Listing(index.Keys), VersionChunk(index, v), index[s].OfVersion(v).nonVote[0]);
    }
  }

  /** The report is absent exactly when no live slot has a non-vote fee of the version. */
  method CalculateVersionPriorityFee(tracker: PriorityFeeTracker, version: Version) returns (report: Option<VersionReport>)
    ensures report == None <==> forall s :: s in old(tracker.Views()) ==> old(tracker.Views())[s].OfVersion(version).nonVote == []
    ensures Reports(report, VersionData(old(tracker.Views()), version))
  {
    ghost var data := VersionData(tracker.Views(), version);
    var fees := CollectVersion(tracker, version);
    ReportPermuted(fees, data);
    VersionDataEmpty(tracker.Views(), version);
    ReportsOn(data);
    report := Report(fees);
  }

  /** `report` gives the six percentiles of `data` and its size, or is absent for no data. */
  ghost predicate Reports(report: Option<VersionReport>, data: seq<nat>) {
    && (report == None <==> data == [])
    && CountOf(report) == |data|
    && forall level: PriorityLevel :: report.Some? ==> Percentile(data, ToPercentile(level)) == Some(report.value.estimates.At(level))
  }

  lemma ReportsOn(data: seq<nat>)
    ensures Reports(ReportOn(data), data)
  {
    forall level: PriorityLevel | data != []
      ensures Percentile(data, ToPercentile(level)) == Some(ReportOn(data).value.estimates.At(level))
    {
      ReportIs(data, level);
    }
    ReportIs(data, Min);
  }

  /** The six percentiles and the size say everything a report says. */
  lemma ReportsAlike(a: Option<VersionReport>, b: Option<VersionReport>, data: seq<nat>)
    requires Reports(a, data) && Reports(b, data)
    ensures a == b
  {
    if a.Some? {
      forall level: PriorityLevel ensures a.value.estimates.At(level) == b.value.estimates.At(level) {
        assert Percentile(data, ToPercentile(level)) == Some(a.value.estimates.At(level));
      }
      SameLevels(a.value.estimates, b.value.estimates);
    }
  }

  /** Both versions' reports: together they count every non-vote fee of the index. */
  method RecordVersionFees(tracker: PriorityFeeTracker, ghost q: Query) returns (legacy: Option<VersionReport>, v1: Option<VersionReport>)
    requires tracker.Consistent() && !q.includeVote && q.lookback == None
    ensures CountOf(legacy) + CountOf(v1) == |Held(Groups(Calculation2, old(tracker.Views()), q), Global)|
  {
    ghost var index := tracker.Views();
    ConsistentIsGood(tracker);
    legacy := CalculateVersionPriorityFee(tracker, LegacyV0);
    assert tracker.Views() == index;
    v1 := CalculateVersionPriorityFee(tracker, V1);
    CountsOfReports(index, q, legacy, v1);
  }

  lemma CountsOfReports(index: Index, q: Query, legacy: Option<VersionReport>, v1: Option<VersionReport>)
    requires AllGood(index) && !q.includeVote && q.lookback == None
    requires CountOf(legacy) == |VersionData(index, LegacyV0)| && CountOf(v1) == |VersionData(index, V1)|
    ensures CountOf(legacy) + CountOf(v1) == |Held(Groups(Calculation2, index, q), Global)|
  {
    VersionReportOver(index, q);
    HeldGlobal(index, q);
  }

  lemma HeldGlobal(index: Index, q: Query)
    ensures Held(Groups(Calculation2, index, q), Global) == Data(index, q, Window(index, q.lookback), Global)
  {
    GroupIsData(index, Calculation2, q, Global);
  }

  function CountOf(report: Option<VersionReport>): nat {
    if report == None then 0 else report.value.count
  }

  method Report(fees: seq<nat>) returns (report: Option<VersionReport>)
    ensures report == ReportOn(fees)
  {
    var count := |fees|;
    if count == 0 {
      return None;
    }
    var estimates := RaiseBuffer(fees, Zero);
    report := Some(VersionReport(estimates, count));
  }

  /** One version's non-vote fees, slot by slot in whatever order the map yields the slots. */
  method CollectVersion(tracker: PriorityFeeTracker, version: Version) returns (fees: seq<nat>)
    ensures multiset(fees) == multiset(VersionData(tracker.Views(), version))
  {
    ghost var index := tracker.Views();
    fees := [];
    var rest := tracker.priorityFees.Keys;
    ghost var order: seq<Slot> := [];
    while rest != {}
      invariant rest <= index.Keys
      invariant Lists(order, index.Keys - rest)
      invariant fees == Gather(order, VersionChunk(index, version))
      decreases rest
    {
      var s :| s in rest;
      var part := VersionPart(tracker, version, s);
      GatherOne(order, s, VersionChunk(index, version));
      ListsFewer(order, index.Keys, rest, s);
      fees := fees + part;
      order := order + [s];
      rest := rest - {s};
    }
    ListedAll(order, index, version);
  }

  method VersionPart(tracker: PriorityFeeTracker, version: Version, s: Slot) returns (part: seq<nat>)
    requires s in tracker.priorityFees
    ensures part == VersionChunk(tracker.Views(), version)(s)
  {
    var entry := tracker.priorityFees[s];
    part := if version in entry.versionFees then entry.versionFees[version].nonVote else [];
  }

  lemma ListedAll(order: seq<Slot>, index: Index, version: Version)
    requires Lists(order, index.Keys - {})
    ensures multiset(Gather(order, VersionChunk(index, version))) == multiset(VersionData(index, version))
  {
    assert index.Keys - {} == index.Keys;
    ListingsPermuted(order, Listing(index.Keys));
    GatherPermuted(order, Listing(index.Keys), VersionChunk(index, version));
  }

  // ---------------------------------------------------------------- no empty slots

  lemma {:induction false} GlobalCovers(index: Index, q: Query, walk: seq<Slot>)
    requires AllGood(index) && q.includeVote && Elements(walk) <= index.Keys
    ensures |Data(index, q, walk, Global)| >= |walk|
  {
    if walk != [] {
      var n := |walk| - 1;
      assert walk[n] in Elements(walk) && Elements(walk[..n]) <= Elements(walk);
      GlobalCovers(index, q, walk[..n]);
      assert GoodEntry(index[walk[n]]);
    }
  }

  /** Every slot looked at has at least one fee: with votes, Global is no shorter than the window. */
  lemma GlobalNotShorter(capacity: nat, log: seq<Sample>, q: Query)
    requires capacity >= 1 && q.includeVote
    ensures var index := Run(capacity, log).index;
      |Data(index, q, Window(index, q.lookback), Global)| >= |Window(index, q.lookback)| == LookbackSize(q.lookback, |index|)
  {
    RunGood(capacity, log);
    var index := Run(capacity, log).index;
    WindowIsNewest(index, q.lookback);
    GlobalCovers(index, q, Window(index, q.lookback));
  }
}
