/**
 Laws of the queries: lookback, unsafeMax, the order of the levels, and what more or other accounts
 do to them. They hold in every state the tracker can reach; where a law needs nothing of the state
 it is stated for every index.
 */
module FeeQueries {
  import opened Options
  import opened Sequences
  import opened SlotWindow
  import opened FeeModel
  import opened FeeTracker
  import opened FeeCalculation
  import opened Percentiles
  import opened FeeLevels

  // ---------------------------------------------------------------- lookback

  /** The window is the newest slots by number, strictly descending, at most `lookback` of them. */
  lemma WindowIsNewest(index: Index, lookback: Option<nat>)
    ensures var w := Window(index, lookback);
      && StrictlyDescending(w) && Elements(w) <= index.Keys
      && |w| == LookbackSize(lookback, |index|)
      && forall s, u :: s in w && u in index && u !in w ==> u < s
  {
    var d := Descending(index.Keys);
    var n := LookbackSize(lookback, |d|);
    assert |index.Keys| == |index|;
    WindowWithin(index, lookback);
    forall s, u | s in d[..n] && u in index && u !in d[..n] ensures u < s {
      assert u in Elements(d);
      PrefixAbove(d, n, s, u);
    }
  }

  lemma PrefixAbove(d: seq<nat>, n: nat, s: nat, u: nat)
    requires StrictlyDescending(d) && n <= |d| && s in d[..n] && u in d && u !in d[..n]
    ensures u < s
  {
    var i :| 0 <= i < n && d[..n][i] == s;
    var j :| 0 <= j < |d| && d[j] == u;
    assert forall m :: 0 <= m < n ==> d[..n][m] in d[..n] && d[..n][m] == d[m];
    assert d[i] > d[j];
  }

  lemma WindowPrefix(index: Index, j: nat, k: nat)
    requires j <= k
    ensures Window(index, Some(j)) <= Window(index, Some(k)) <= Window(index, None)
  {
    TakesNest(Descending(index.Keys), LookbackSize(Some(j), |Descending(index.Keys)|), LookbackSize(Some(k), |Descending(index.Keys)|));
  }

  lemma TakesNest(s: seq<Slot>, i: nat, j: nat)
    requires i <= j <= |s|
    ensures s[..i] <= s[..j] <= s && s[..|s|] == s
  {
  }

  lemma DataPrefix(index: Index, q: Query, short: seq<Slot>, long: seq<Slot>, d: DataType)
    requires short <= long
    ensures Data(index, q, short, d) <= Data(index, q, long, d)
  {
    assert short == long[..|short|];
    GatherPrefix(long, |short|, ChunkOf(index, q, d));
  }

  /** A longer lookback only appends, to every group's data. */
  lemma LookbackPrefix(index: Index, q: Query, j: nat, k: nat, d: DataType)
    requires j <= k
    ensures Window(index, Some(j)) <= Window(index, Some(k)) <= Window(index, None)
    ensures Data(index, q, Window(index, Some(j)), d) <= Data(index, q, Window(index, Some(k)), d)
    ensures Data(index, q, Window(index, Some(k)), d) <= Data(index, q, Window(index, None), d)
  {
    WindowPrefix(index, j, k);
    DataPrefix(index, q, Window(index, Some(j)), Window(index, Some(k)), d);
    DataPrefix(index, q, Window(index, Some(k)), Window(index, None), d);
  }

  /** A lookback looks at everything exactly when it reaches the number of live slots. */
  lemma LookbackSaturates(index: Index, k: nat)
    ensures Window(index, Some(k)) == Window(index, None) <==> k >= |index|
  {
    var all := Descending(index.Keys);
    assert |index.Keys| == |index|;
    TakesNest(all, LookbackSize(Some(k), |all|), |all|);
  }

  // ---------------------------------------------------------------- one account in a slot

  ghost predicate AllGood(index: Index) {
    forall s :: s in index ==> GoodEntry(index[s])
  }

  lemma AccountFeeInSlot(index: Index, q: Query, s: Slot, a: Pubkey, x: nat)
    requires AllGood(index) && Has(index, s, a)
    requires x in index[s].accounts[a].Collect(q.includeVote)
    ensures x in index[s].fees.Collect(q.includeVote)
  {
    var f := index[s].Account(a);
    assert GoodEntry(index[s]);
    if q.includeVote && x in f.vote {
      assert x in f.Kind(true);
      assert x in index[s].fees.Kind(true);
    } else {
      assert x in f.Kind(false);
      assert x in index[s].fees.Kind(false);
    }
  }

  /** Whatever a group holds is in Global, except the zeros that fill missed slots. */
  lemma GroupWithinGlobal(index: Index, q: Query, walk: seq<Slot>, d: DataType, x: nat)
    requires AllGood(index) && x in Data(index, q, walk, d)
    ensures x == 0 || x in Data(index, q, walk, Global)
  {
    GatherMember(walk, ChunkOf(index, q, d), x);
    GatherMember(walk, ChunkOf(index, q, Global), x);
    var s :| s in walk && x in ChunkOf(index, q, d)(s);
    if x != 0 {
      match d {
        case Global =>
        case AllAccounts => PooledFeeInSlot(index, q, s, x);
        case Account(a) =>
          RepeatMember(Part(index, q, s)(a), Count(q.accounts, a), x);
          AccountFeeInSlot(index, q, s, a, x);
      }
      assert x in ChunkOf(index, q, Global)(s);
    }
  }

  lemma PooledFeeInSlot(index: Index, q: Query, s: Slot, x: nat)
    requires AllGood(index) && x != 0 && x in PooledChunk(index, q)(s)
    ensures s in index && x in index[s].fees.Collect(q.includeVote)
  {
    assert x !in PooledZero(index, q)(s);
    GatherMember(q.accounts, Hit(index, q, s), x);
    var a :| a in q.accounts && x in Hit(index, q, s)(a);
    AccountFeeInSlot(index, q, s, a, x);
  }

  // ---------------------------------------------------------------- unsafeMax

  /** The largest fee of `data`, or zero when there is none. */
  ghost predicate IsMaximumOrZero(m: nat, data: seq<nat>) {
    if data == [] then m == 0 else IsMaximum(m, data)
  }

  lemma V2GroupIs(index: Index, q: Query, walk: seq<Slot>, d: DataType)
    ensures d in V2Over(index, q, walk) <==> walk != [] && (d == Global || (d.Account? && d.key in q.accounts))
    ensures d in V2Over(index, q, walk) ==> V2Over(index, q, walk)[d] == Data(index, q, walk, d)
  {
    assert d in {Global} + AccountKeys(q.accounts) <==> d == Global || (d.Account? && d.key in q.accounts);
  }

  lemma V1GroupIs(index: Index, q: Query, walk: seq<Slot>, d: DataType)
    ensures d in V1Over(index, q, walk) <==> !d.Account?
    ensures d in V1Over(index, q, walk) ==> V1Over(index, q, walk)[d] == Data(index, q, walk, d)
  {
  }

  ghost predicate HasGroup(index: Index, algorithm: Algorithm, q: Query, d: DataType) {
    match algorithm
    case Calculation1 => !d.Account?
    case Calculation2 => Window(index, q.lookback) != [] && (d == Global || (d.Account? && d.key in q.accounts))
  }

  /** Which groups there are, and what each holds. */
  lemma GroupIsData(index: Index, algorithm: Algorithm, q: Query, d: DataType)
    ensures d in Groups(algorithm, index, q) <==> HasGroup(index, algorithm, q, d)
    ensures d in Groups(algorithm, index, q) ==> Groups(algorithm, index, q)[d] == Data(index, q, Window(index, q.lookback), d)
    ensures Window(index, q.lookback) == [] ==> Data(index, q, Window(index, q.lookback), d) == []
  {
    V1GroupIs(index, q, Window(index, q.lookback), d);
    V2GroupIs(index, q, Window(index, q.lookback), d);
  }

  /** The top level of any groups that add nothing but zeros to `global`. */
  lemma TopOfGroups(groups: GroupMap, global: seq<nat>)
    requires forall d, x :: d in groups && x in groups[d] ==> x == 0 || x in global
    requires global != [] ==> Global in groups && groups[Global] == global
    ensures IsMaximumOrZero(Levels(groups).unsafeMax, global)
  {
    var v := Levels(groups).At(UnsafeMax);
    LevelsAre(groups, UnsafeMax);
    assert v == 0 || v in global by {
      if v != 0 {
        var d :| d in groups.Keys && groups[d] != [] && Percentile(groups[d], 100).value == v;
        ExtremePercentiles(groups[d]);
      }
    }
    if global != [] {
      TopCovers(groups, Global);
      assert forall x :: x in global ==> x <= v;
      assert v in global by {
        if v == 0 { assert global[0] in global && global[0] <= 0; }
      }
    }
  }

  lemma TopCovers(groups: GroupMap, d: DataType)
    requires d in groups
    ensures forall x :: x in groups[d] ==> x <= Levels(groups).At(UnsafeMax)
  {
    LevelsAre(groups, UnsafeMax);
    if groups[d] != [] {
      ExtremePercentiles(groups[d]);
    }
  }

  lemma UnsafeMaxOver(index: Index, algorithm: Algorithm, q: Query)
    requires AllGood(index)
    ensures IsMaximumOrZero(Levels(Groups(algorithm, index, q)).unsafeMax, Data(index, q, Window(index, q.lookback), Global))
  {
    var groups, walk := Groups(algorithm, index, q), Window(index, q.lookback);
    forall d, x | d in groups && x in groups[d] ensures x == 0 || x in Data(index, q, walk, Global) {
      GroupIsData(index, algorithm, q, d);
      GroupWithinGlobal(index, q, walk, d, x);
    }
    GroupIsData(index, algorithm, q, Global);
    TopOfGroups(groups, Data(index, q, walk, Global));
  }

  lemma RunGood(capacity: nat, log: seq<Sample>)
    requires capacity >= 1
    ensures AllGood(Run(capacity, log).index)
  {
    RunValid(capacity, log);
  }

  /**
   The unsafeMax level does not depend on the algorithm, the accounts or the filling: it is the
   largest Global fee of the window.
   */
  lemma UnsafeMaxIsGlobal(capacity: nat, log: seq<Sample>, algorithm: Algorithm, q: Query)
    requires capacity >= 1
    ensures var index := Run(capacity, log).index;
      IsMaximumOrZero(Levels(Groups(algorithm, index, q)).unsafeMax, Data(index, q, Window(index, q.lookback), Global))
  {
    RunGood(capacity, log);
    UnsafeMaxOver(Run(capacity, log).index, algorithm, q);
  }

  /** The same, as an agreement: any two queries over the same window and vote flag. */
  lemma UnsafeMaxAgrees(capacity: nat, log: seq<Sample>, a: Algorithm, p: Query, b: Algorithm, q: Query)
    requires capacity >= 1
    requires p.lookback == q.lookback && p.includeVote == q.includeVote
    ensures var index := Run(capacity, log).index;
      Levels(Groups(a, index, p)).unsafeMax == Levels(Groups(b, index, q)).unsafeMax
  {
    UnsafeMaxIsGlobal(capacity, log, a, p);
    UnsafeMaxIsGlobal(capacity, log, b, q);
    var index := Run(capacity, log).index;
    assert ChunkOf(index, p, Global) == ChunkOf(index, q, Global);
  }

  // ---------------------------------------------------------------- level order

  lemma GroupsOrdered(g: GroupMap)
    ensures var e := Levels(g); e.min <= e.low <= e.medium <= e.high <= e.veryHigh <= e.unsafeMax
  {
    LevelsMonotone(g, Min, Low);
    LevelsMonotone(g, Low, Medium);
    LevelsMonotone(g, Medium, High);
    LevelsMonotone(g, High, VeryHigh);
    LevelsMonotone(g, VeryHigh, UnsafeMax);
  }

  /** The six levels of any query are in order. */
  lemma LevelsOrdered(index: Index, algorithm: Algorithm, q: Query)
    ensures var e := Levels(Groups(algorithm, index, q));
      e.min <= e.low <= e.medium <= e.high <= e.veryHigh <= e.unsafeMax
  {
    GroupsOrdered(Groups(algorithm, index, q));
  }

  // ---------------------------------------------------------------- a query on the tracker

  lemma ConsistentIsGood(tracker: PriorityFeeTracker)
    requires tracker.Consistent()
    ensures AllGood(tracker.Views())
  {
    forall s | s in tracker.Views() ensures GoodEntry(tracker.Views()[s]) {
      assert s in tracker.Abstract().index;
    }
  }

  /**
   A request against a consistent tracker, with details or without: the levels are those of the
   groups either way, in order, and the top one is the largest Global fee of the window.
   */
  method AnswerRequest(tracker: PriorityFeeTracker, algorithm: Algorithm, q: Query, includeDetails: bool)
    returns (estimates: Estimates, details: Option<map<DataType, GroupDetails>>)
    requires tracker.Consistent()
    ensures estimates == Levels(Groups(algorithm, old(tracker.Views()), q))
    ensures estimates.min <= estimates.low <= estimates.medium <= estimates.high <= estimates.veryHigh <= estimates.unsafeMax
    ensures IsMaximumOrZero(estimates.unsafeMax, Data(old(tracker.Views()), q, Window(old(tracker.Views()), q.lookback), Global))
    ensures details == if includeDetails then Some(Details(Groups(algorithm, old(tracker.Views()), q))) else None
  {
    tracker.ConsistentIsKeyed();
    ConsistentIsGood(tracker);
    UnsafeMaxOver(tracker.Views(), algorithm, q);
    LevelsOrdered(tracker.Views(), algorithm, q);
    if includeDetails {
      var full: map<DataType, GroupDetails>;
      estimates, full := CalculatePriorityFeeDetails(tracker, algorithm, q);
      details := Some(full);
    } else {
      estimates := CalculatePriorityFee(tracker, algorithm, q);
      details := None;
    }
  }

  // ---------------------------------------------------------------- more or other accounts

  function GlobalOnly(q: Query): Query {
    q.(accounts := [])
  }

  lemma SameGlobal(index: Index, p: Query, q: Query, walk: seq<Slot>)
    requires p.includeVote == q.includeVote
    ensures Data(index, p, walk, Global) == Data(index, q, walk, Global)
  {
    assert ChunkOf(index, p, Global) == ChunkOf(index, q, Global);
  }

  /** Naming accounts never lowers a level, in either algorithm. */
  lemma AtLeastGlobal(index: Index, algorithm: Algorithm, q: Query, level: PriorityLevel)
    ensures Levels(Groups(Calculation2, index, GlobalOnly(q))).At(level) <= Levels(Groups(algorithm, index, q)).At(level)
  {
    var small, large := Groups(Calculation2, index, GlobalOnly(q)), Groups(algorithm, index, q);
    SameGlobal(index, GlobalOnly(q), q, Window(index, q.lookback));
    forall d | d in small ensures d in large && multiset(small[d]) == multiset(large[d]) {
      GroupIsData(index, Calculation2, GlobalOnly(q), d);
      GroupIsData(index, algorithm, q, d);
    }
    MoreGroupsRaise(small, large, level);
  }

  /** With no accounts the two algorithms agree. */
  lemma GlobalOnlyAgrees(index: Index, q: Query)
    ensures Levels(Groups(Calculation1, index, GlobalOnly(q))) == Levels(Groups(Calculation2, index, GlobalOnly(q)))
  {
    var p := GlobalOnly(q);
    var one, two := Groups(Calculation1, index, p), Groups(Calculation2, index, p);
    PooledEmpty(index, p, Window(index, q.lookback));
    forall d | d in one && one[d] != [] ensures d in two && one[d] == two[d] {
      GroupIsData(index, Calculation1, p, d);
      GroupIsData(index, Calculation2, p, d);
    }
    forall level: PriorityLevel ensures Levels(one).At(level) == Levels(two).At(level) {
      AtLeastGlobal(index, Calculation1, p, level);
      FilledGroupsRaise(one, two, level);
    }
    SameLevels(Levels(one), Levels(two));
  }

  lemma FilledGroupsRaise(small: GroupMap, large: GroupMap, level: PriorityLevel)
    requires forall d :: d in small && small[d] != [] ==> d in large && small[d] == large[d]
    ensures Levels(small).At(level) <= Levels(large).At(level)
  {
    LevelsAre(small, level);
    LevelsAre(large, level);
  }

  lemma {:induction false} PooledEmpty(index: Index, q: Query, walk: seq<Slot>)
    requires q.accounts == []
    ensures Data(index, q, walk, AllAccounts) == []
  {
    if walk != [] {
      var n := |walk| - 1;
      PooledEmpty(index, q, walk[..n]);
      assert PooledHits(index, q)(walk[n]) == [] && PooledZero(index, q)(walk[n]) == [];
    }
  }

  /** An account's group depends only on how often the request names the account. */
  lemma SameAccountGroup(index: Index, p: Query, q: Query, walk: seq<Slot>, a: Pubkey)
    requires p.includeVote == q.includeVote && p.includeEmptySlots == q.includeEmptySlots
    requires Count(p.accounts, a) == Count(q.accounts, a)
    ensures Data(index, p, walk, Account(a)) == Data(index, q, walk, Account(a))
  {
    forall s | s in walk ensures AccountChunk(index, p, a)(s) == AccountChunk(index, q, a)(s) {
      assert Part(index, p, s)(a) == Part(index, q, s)(a);
    }
    GatherSame(walk, AccountChunk(index, p, a), AccountChunk(index, q, a));
  }

  /** Asking for more accounts never lowers a level of the per-account algorithm. */
  lemma MoreAccountsRaise(index: Index, p: Query, q: Query, level: PriorityLevel)
    requires p == q.(accounts := p.accounts)
    requires forall a :: a in p.accounts ==> Count(p.accounts, a) == Count(q.accounts, a)
    ensures Levels(Groups(Calculation2, index, p)).At(level) <= Levels(Groups(Calculation2, index, q)).At(level)
  {
    var small, large := Groups(Calculation2, index, p), Groups(Calculation2, index, q);
    forall d | d in small ensures d in large && multiset(small[d]) == multiset(large[d]) {
      SharedGroup(index, p, q, d);
    }
    MoreGroupsRaise(small, large, level);
  }

  lemma SharedGroup(index: Index, p: Query, q: Query, d: DataType)
    requires p == q.(accounts := p.accounts)
    requires forall a :: a in p.accounts ==> Count(p.accounts, a) == Count(q.accounts, a)
    requires d in Groups(Calculation2, index, p)
    ensures d in Groups(Calculation2, index, q) && Groups(Calculation2, index, p)[d] == Groups(Calculation2, index, q)[d]
  {
    GroupIsData(index, Calculation2, p, d);
    GroupIsData(index, Calculation2, q, d);
    if d == Global {
      SameGlobal(index, p, q, Window(index, q.lookback));
    } else {
      CountPositive(p.accounts, d.key);
      CountPositive(q.accounts, d.key);
      SameAccountGroup(index, p, q, Window(index, q.lookback), d.key);
    }
  }

  lemma DistinctAccountsRaise(index: Index, p: Query, q: Query, level: PriorityLevel)
    requires p == q.(accounts := p.accounts)
    requires NoDuplicates(p.accounts) && NoDuplicates(q.accounts) && Elements(p.accounts) <= Elements(q.accounts)
    ensures Levels(Groups(Calculation2, index, p)).At(level) <= Levels(Groups(Calculation2, index, q)).At(level)
  {
    forall a | a in p.accounts ensures Count(p.accounts, a) == Count(q.accounts, a) {
      CountIsMultiplicity(p.accounts, a);
      CountIsMultiplicity(q.accounts, a);
      CountOne(p.accounts, a);
      CountOne(q.accounts, a);
      assert a in Elements(q.accounts);
    }
    MoreAccountsRaise(index, p, q, level);
  }

  /** The order in which the accounts are listed does not matter to either algorithm. */
  lemma AccountOrderIrrelevant(index: Index, algorithm: Algorithm, p: Query, q: Query)
    requires p == q.(accounts := p.accounts) && multiset(p.accounts) == multiset(q.accounts)
    ensures Levels(Groups(algorithm, index, p)) == Levels(Groups(algorithm, index, q))
  {
    var a, b := Groups(algorithm, index, p), Groups(algorithm, index, q);
    SameSize(p.accounts, q.accounts);
    forall d | d in a || d in b ensures d in a && d in b && multiset(a[d]) == multiset(b[d]) {
      GroupIsData(index, algorithm, p, d);
      GroupIsData(index, algorithm, q, d);
      SameDataPermuted(index, p, q, Window(index, q.lookback), d);
    }
    SameGroupsSameLevels(a, b);
  }

  lemma SameDataPermuted(index: Index, p: Query, q: Query, walk: seq<Slot>, d: DataType)
    requires p == q.(accounts := p.accounts) && multiset(p.accounts) == multiset(q.accounts)
    ensures multiset(Data(index, p, walk, d)) == multiset(Data(index, q, walk, d))
  {
    match d {
      case Global => SameGlobal(index, p, q, walk);
      case AllAccounts => PooledPermuted(index, p, q, walk);
      case Account(k) =>
        CountIsMultiplicity(p.accounts, k);
        CountIsMultiplicity(q.accounts, k);
        SameAccountGroup(index, p, q, walk, k);
    }
  }

  lemma {:induction false} PooledPermuted(index: Index, p: Query, q: Query, walk: seq<Slot>)
    requires p == q.(accounts := p.accounts) && multiset(p.accounts) == multiset(q.accounts)
    ensures multiset(Data(index, p, walk, AllAccounts)) == multiset(Data(index, q, walk, AllAccounts))
  {
    if walk != [] {
      var n := |walk| - 1;
      var s := walk[n];
      PooledPermuted(index, p, q, walk[..n]);
      SameSize(p.accounts, q.accounts);
      GatherPermuted(p.accounts, q.accounts, Hit(index, p, s));
      GatherSame(q.accounts, Hit(index, p, s), Hit(index, q, s));
      assert PooledZero(index, p)(s) == PooledZero(index, q)(s);
      assert multiset(PooledChunk(index, p)(s)) == multiset(PooledChunk(index, q)(s));
    }
  }
}
