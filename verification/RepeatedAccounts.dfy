/**
 When one request to the second algorithm can stand in for another. Naming an account again
 repeats its fees, and that can lower a level; `RequestComparison` says exactly when it cannot.
 */
module RepeatedAccounts {
  import opened Options
  import opened Sequences
  import opened SlotWindow
  import opened FeeModel
  import opened FeeTracker
  import opened FeeCalculation
  import opened Percentiles
  import opened FeeLevels
  import opened FeeQueries
  import opened Copies

  // ---------------------------------------------------------------- an account's group is copies

  /** An account's fees over a walk, for one mention of it. */
  function PartOf(index: Index, q: Query, a: Pubkey): Slot -> seq<nat> {
    s => Part(index, q, s)(a)
  }

  function Mention(index: Index, q: Query, walk: seq<Slot>, a: Pubkey): seq<nat> {
    Gather(walk, PartOf(index, q, a))
  }

  lemma {:induction false} RepeatCounted(s: seq<nat>, n: nat, x: nat)
    ensures multiset(Repeat(s, n))[x] == n * multiset(s)[x]
  {
    if n > 0 {
      RepeatCounted(s, n - 1, x);
      AppendCounted(Repeat(s, n - 1), s, x);
      OneMoreTimes(n, multiset(s)[x]);
    } else {
      assert Repeat(s, n) == [];
    }
  }

  lemma {:induction false} GroupCounted(index: Index, q: Query, walk: seq<Slot>, a: Pubkey, x: nat)
    ensures multiset(Data(index, q, walk, Account(a)))[x] == Count(q.accounts, a) * multiset(Mention(index, q, walk, a))[x]
  {
    if walk != [] {
      var n := |walk| - 1;
      GroupCounted(index, q, walk[..n], a, x);
      CopiesAppend(Data(index, q, walk[..n], Account(a)), Mention(index, q, walk[..n], a), Part(index, q, walk[n])(a), Count(q.accounts, a), x);
    } else {
      EmptyWalk(index, q, walk, a);
    }
  }

  lemma CopiesAppend(data: seq<nat>, base: seq<nat>, part: seq<nat>, m: nat, x: nat)
    requires multiset(data)[x] == m * multiset(base)[x]
    ensures multiset(data + Repeat(part, m))[x] == m * multiset(base + part)[x]
  {
    RepeatCounted(part, m, x);
    AppendCounted(data, Repeat(part, m), x);
    AppendCounted(base, part, x);
    Distribute(m, multiset(base)[x], multiset(part)[x]);
  }

  lemma EmptyWalk(index: Index, q: Query, walk: seq<Slot>, a: Pubkey)
    requires walk == []
    ensures Data(index, q, walk, Account(a)) == [] && Mention(index, q, walk, a) == []
  {
  }

  /** An account's group holds its fees as many times as the request names it. */
  lemma GroupIsCopies(index: Index, q: Query, walk: seq<Slot>, a: Pubkey)
    ensures IsCopies(Data(index, q, walk, Account(a)), Mention(index, q, walk, a), Count(q.accounts, a))
  {
    forall x: nat ensures multiset(Data(index, q, walk, Account(a)))[x] == Count(q.accounts, a) * multiset(Mention(index, q, walk, a))[x] {
      GroupCounted(index, q, walk, a, x);
    }
  }

  lemma SameMention(index: Index, p: Query, q: Query, walk: seq<Slot>, a: Pubkey)
    requires p == q.(accounts := p.accounts)
    ensures Mention(index, p, walk, a) == Mention(index, q, walk, a)
  {
    forall s | s in walk ensures PartOf(index, p, a)(s) == PartOf(index, q, a)(s) {
      assert Part(index, p, s)(a) == Part(index, q, s)(a);
    }
    GatherSame(walk, PartOf(index, p, a), PartOf(index, q, a));
  }

  // ---------------------------------------------------------------- enough mentions lower nothing

  predicate AllEnough(p: Query, q: Query) {
    forall a :: a in p.accounts ==> Enough(Count(p.accounts, a), Count(q.accounts, a))
  }

  /** Every group with data has one in the larger map whose percentile is no lower. */
  ghost predicate Covered(small: GroupMap, large: GroupMap, level: PriorityLevel) {
    forall d :: d in small && small[d] != [] ==>
      && d in large && large[d] != []
      && Percentile(small[d], ToPercentile(level)).value <= Percentile(large[d], ToPercentile(level)).value
  }

  lemma CoveredIsLower(small: GroupMap, large: GroupMap, level: PriorityLevel)
    requires Covered(small, large, level)
    ensures Levels(small).At(level) <= Levels(large).At(level)
  {
    LevelsAre(small, level);
    LevelsAre(large, level);
    var v, p := Levels(small).At(level), ToPercentile(level);
    if v != 0 {
      var d :| d in small.Keys && small[d] != [] && Percentile(small[d], p).value == v;
      assert d in large.Keys && large[d] != [];
    }
  }

  lemma EnoughMentions(index: Index, p: Query, q: Query, level: PriorityLevel)
    requires p == q.(accounts := p.accounts) && AllEnough(p, q)
    ensures Levels(Groups(Calculation2, index, p)).At(level) <= Levels(Groups(Calculation2, index, q)).At(level)
  {
    var small, large := Groups(Calculation2, index, p), Groups(Calculation2, index, q);
    forall d | d in small && small[d] != []
      ensures d in large && large[d] != []
      ensures Percentile(small[d], ToPercentile(level)).value <= Percentile(large[d], ToPercentile(level)).value
    {
      GroupIsData(index, Calculation2, p, d);
      GroupIsData(index, Calculation2, q, d);
      GroupCovered(index, p, q, Window(index, q.lookback), d, level);
    }
    CoveredIsLower(small, large, level);
  }

  lemma GroupCovered(index: Index, p: Query, q: Query, walk: seq<Slot>, d: DataType, level: PriorityLevel)
    requires p == q.(accounts := p.accounts) && AllEnough(p, q)
    requires d == Global || (d.Account? && d.key in p.accounts)
    requires Data(index, p, walk, d) != []
    ensures d.Account? ==> d.key in q.accounts
    ensures Data(index, q, walk, d) != []
    ensures Percentile(Data(index, p, walk, d), ToPercentile(level)).value <= Percentile(Data(index, q, walk, d), ToPercentile(level)).value
  {
    if d == Global {
      SameGlobal(index, p, q, walk);
    } else {
      CountPositive(p.accounts, d.key);
      CountPositive(q.accounts, d.key);
      GroupIsCopies(index, p, walk, d.key);
      GroupIsCopies(index, q, walk, d.key);
      SameMention(index, p, q, walk, d.key);
      EnoughKeepsPercentile(Data(index, p, walk, d), Data(index, q, walk, d), Mention(index, q, walk, d.key),
                            Count(p.accounts, d.key), Count(q.accounts, d.key), level);
    }
  }

  // ---------------------------------------------------------------- too few or too many lower one

  const Top := 20

  /** A non-vote sample of slot 1 for the accounts given. */
  function Plain(accounts: seq<Pubkey>, fee: Fee): Sample {
    Sample(1, accounts, fee, false, LegacyV0)
  }

  function PlainTimes(accounts: seq<Pubkey>, fee: Fee, n: nat): seq<Sample> {
    seq(n, _ => Plain(accounts, fee))
  }

  /** One account with `zeros` fees of 0 and one of `Top`, in a slot with fourteen more fees of 0. */
  function Ladder(a: Pubkey, zeros: nat): seq<Sample> {
    PlainTimes([a], 0, zeros) + PlainTimes([a], Top, 1) + PlainTimes([], 0, 14)
  }

  /** Slot 1 alone is live; `mine` are the fees of account `a` and `all` those of the slot. */
  ghost predicate OneSlot(t: Tracker, a: Pubkey, mine: seq<nat>, all: seq<nat>) {
    && t.queue == [1] && t.index.Keys == {1}
    && t.index[1].fees == Fees(all, []) && t.index[1].accounts == map[a := Fees(mine, [])]
  }

  lemma AddOneAccount(m: map<Pubkey, Fees>, a: Pubkey, fee: Fee)
    ensures AddAccounts(m, [a], fee, false) == AddTo(m, a, fee, false)
    ensures AddAccounts(m, [], fee, false) == m
    ensures FreshAccounts([a], fee, false) == map[a := Fees([fee], [])]
  {
    assert [a][..0] == [];
    assert AddAccounts(m, [a][..0], fee, false) == m;
    assert FreshAccounts([a][..0], fee, false) == map[];
  }

  lemma FirstPush(t: Tracker, a: Pubkey, fee: Fee)
    requires t.capacity >= 1 && t == Empty(t.capacity)
    ensures OneSlot(Push(t, Plain([a], fee)), a, [fee], [fee])
  {
    AddOneAccount(map[], a, fee);
    assert Push(t, Plain([a], fee)).queue == [1];
    assert Push(t, Plain([a], fee)).index == map[1 := Fresh(Plain([a], fee))];
  }

  lemma NextPush(t: Tracker, a: Pubkey, mine: seq<nat>, all: seq<nat>, named: bool, fee: Fee)
    requires t.capacity >= 1 && OneSlot(t, a, mine, all)
    ensures OneSlot(Push(t, Plain(if named then [a] else [], fee)), a, if named then mine + [fee] else mine, all + [fee])
  {
    AddOneAccount(t.index[1].accounts, a, fee);
  }

  function Row(fees: seq<nat>, fee: Fee, n: nat): seq<nat> {
    fees + Constant(fee, n)
  }

  function RowIf(named: bool, fees: seq<nat>, fee: Fee, n: nat): seq<nat> {
    if named then Row(fees, fee, n) else fees
  }

  lemma RowMore(named: bool, fees: seq<nat>, fee: Fee, n: nat)
    ensures RowIf(named, fees, fee, 0) == fees
    ensures RowIf(named, fees, fee, n + 1) == RowIf(named, RowIf(named, fees, fee, n), fee, 1)
  {
    assert Constant(fee, 0) == [] && Constant(fee, n + 1) == Constant(fee, n) + Constant(fee, 1);
  }

  function Naming(named: bool, a: Pubkey): seq<Pubkey> {
    if named then [a] else []
  }

  lemma LogRowMore(log: seq<Sample>, accounts: seq<Pubkey>, fee: Fee, n: nat)
    ensures log + PlainTimes(accounts, fee, 0) == log
    ensures log + PlainTimes(accounts, fee, n + 1) == log + PlainTimes(accounts, fee, n) + [Plain(accounts, fee)]
  {
  }

  /** A row of equal samples appends a row of equal fees. */
  lemma {:induction false} RowPushed(capacity: nat, log: seq<Sample>, a: Pubkey, mine: seq<nat>, all: seq<nat>, named: bool, fee: Fee, n: nat)
    requires capacity >= 1 && OneSlot(Run(capacity, log), a, mine, all)
    ensures OneSlot(Run(capacity, log + PlainTimes(Naming(named, a), fee, n)), a, RowIf(named, mine, fee, n), RowIf(true, all, fee, n))
  {
    var accounts := Naming(named, a);
    if n == 0 {
      LogRowMore(log, accounts, fee, 0);
      RowMore(named, mine, fee, 0);
      RowMore(true, all, fee, 0);
    } else {
      RowPushed(capacity, log, a, mine, all, named, fee, n - 1);
      LogRowMore(log, accounts, fee, n - 1);
      RowMore(named, mine, fee, n - 1);
      RowMore(true, all, fee, n - 1);
      OnePushed(capacity, log + PlainTimes(accounts, fee, n - 1), a,
                RowIf(named, mine, fee, n - 1), RowIf(true, all, fee, n - 1), named, fee);
    }
  }

  lemma OnePushed(capacity: nat, log: seq<Sample>, a: Pubkey, mine: seq<nat>, all: seq<nat>, named: bool, fee: Fee)
    requires capacity >= 1 && OneSlot(Run(capacity, log), a, mine, all)
    ensures OneSlot(Run(capacity, log + [Plain(Naming(named, a), fee)]), a, RowIf(named, mine, fee, 1), RowIf(true, all, fee, 1))
  {
    RunLast(capacity, log, Plain(Naming(named, a), fee));
    NextPush(Run(capacity, log), a, mine, all, named, fee);
    assert Constant(fee, 1) == [fee];
  }

  lemma LadderRun(capacity: nat, a: Pubkey, zeros: nat)
    requires capacity >= 1 && zeros > 0
    ensures var mine := Constant(0, zeros) + Constant(Top, 1);
      OneSlot(Run(capacity, Ladder(a, zeros)), a, mine, mine + Constant(0, 14))
  {
    var first, row: seq<nat> := [Plain([a], 0)], Constant(0, zeros);
    assert first == [] + [Plain([a], 0)];
    RunLast(capacity, [], Plain([a], 0));
    FirstPush(Run(capacity, []), a, 0);
    RowPushed(capacity, first, a, [0], [0], true, 0, zeros - 1);
    assert first + PlainTimes([a], 0, zeros - 1) == PlainTimes([a], 0, zeros);
    assert RowIf(true, [0], 0, zeros - 1) == row;
    RowPushed(capacity, PlainTimes([a], 0, zeros), a, row, row, true, Top, 1);
    var mine := row + Constant(Top, 1);
    assert RowIf(true, row, Top, 1) == mine;
    RowPushed(capacity, PlainTimes([a], 0, zeros) + PlainTimes([a], Top, 1), a, mine, mine, false, 0, 14);
  }

  // What a query sees there.

  lemma OneSlotWindow(index: Index, lookback: Option<nat>)
    requires index.Keys == {1} && lookback != Some(0)
    ensures Window(index, lookback) == [1]
  {
    var d := Descending(index.Keys);
    assert |index.Keys| == 1;
    assert d[0] in Elements(d);
    assert d == [1];
  }

  lemma GatherSingle(s: Slot, chunk: Slot -> seq<nat>)
    ensures Gather([s], chunk) == chunk(s)
  {
    assert [s][..0] == [];
  }

  lemma OneSlotSeen(t: Tracker, a: Pubkey, mine: seq<nat>, all: seq<nat>, q: Query, b: Pubkey)
    requires OneSlot(t, a, mine, all)
    ensures Data(t.index, q, [1], Global) == all
    ensures Mention(t.index, q, [1], b) == if b == a then mine else if q.includeEmptySlots then [0] else []
  {
    GatherSingle(1, ChunkOf(t.index, q, Global));
    GatherSingle(1, PartOf(t.index, q, b));
    assert t.index[1].fees.Collect(q.includeVote) == all;
    assert PartOf(t.index, q, b)(1) == Part(t.index, q, 1)(b);
    if b == a {
      assert t.index[1].accounts[a].Collect(q.includeVote) == mine;
    } else {
      assert !Has(t.index, 1, b);
    }
  }

  function Steps(zeros: nat): seq<nat> {
    Constant(0, zeros) + Constant(Top, 1)
  }

  /** The veryHigh percentile of `m` copies of the account's fees. */
  function Rung(zeros: nat, m: nat): nat {
    if zeros == 20 then (if m <= 13 then 13 - m else 0) else (if m <= 7 then 13 + m else Top)
  }

  lemma FallingRung(m: nat)
    requires m > 0
    ensures Stretch(Steps(20), m) != [] && Round(Scaled(Stretch(Steps(20), m), 95)) == Rung(20, m)
  {
    FallingAt(Steps(20), m, 285 * m + 195);
  }

  lemma FallingAt(s: seq<nat>, m: nat, v: nat)
    requires m > 0 && v == 285 * m + 195 && |s| == 21 && s[19] == 0 && s[20] == Top
    ensures Stretch(s, m) != [] && Round(Scaled(Stretch(s, m), 95)) == Rung(20, m)
  {
    PositionOfCopies(21, 95, m);
    assert Element(21, 95) == 19 && Rest(21, 95) == 285;
    if m > 13 {
      InElement(s, 95, m, 19, v);
    } else {
      PastElement(s, 95, m, 19, v - 300 * m);
      assert Between(0, Top, v - 300 * m) == 20 * (195 - 15 * m);
    }
  }

  lemma RisingRung(m: nat)
    requires m > 0
    ensures Stretch(Steps(18), m) != [] && Round(Scaled(Stretch(Steps(18), m), 95)) == Rung(18, m)
  {
    var s := Steps(18);
    PositionOfCopies(19, 95, m);
    assert Element(19, 95) == 18 && Rest(19, 95) == 15;
    var v := 15 * m + 195;
    assert s[17] == 0 && s[18] == Top;
    if m < 7 {
      OnBoundary(s, 95, m, 18, v);
    } else {
      InElement(s, 95, m, 18, v);
    }
  }

  lemma RungOfCopies(data: seq<nat>, zeros: nat, m: nat)
    requires (zeros == 18 || zeros == 20) && m > 0 && IsCopies(data, Steps(zeros), m)
    ensures data != [] && Percentile(data, 95).value == Rung(zeros, m)
  {
    SortedCopiesPercentile(data, Steps(zeros), m, 95);
    if zeros == 18 {
      RisingRung(m);
    } else {
      FallingRung(m);
    }
  }

  lemma LowPercentile(sorted: seq<nat>, k: nat, r: nat)
    requires 0 < k < |sorted| && r < 300 && Position(|sorted|, 95) == 300 * k + r
    requires sorted[k-1] == 0 && (r == 0 || sorted[k] == 0)
    ensures Round(Scaled(sorted, 95)) == 0
  {
    ScaledFrom(sorted, 95, k, r);
  }

  /** In the whole slot the one high fee is beyond the 95th percentile. */
  lemma OneHighIsLow(data: seq<nat>, n: nat)
    requires (n == 32 || n == 34) && multiset(data) == multiset(Constant(0, n) + Constant(Top, 1))
    ensures data != [] && Percentile(data, 95).value == 0
  {
    var sorted: seq<nat> := Constant(0, n) + Constant(Top, 1);
    SameSize(data, sorted);
    if n == 32 {
      assert Position(33, 95) == 300 * 32 + 0;
      LowPercentile(sorted, 32, 0);
    } else {
      assert Position(35, 95) == 300 * 33 + 270;
      LowPercentile(sorted, 33, 270);
    }
    PercentileOfSorted(data, sorted, 95);
  }

  lemma GlobalIsLow(zeros: nat)
    requires zeros == 18 || zeros == 20
    ensures AtMost(Steps(zeros) + Constant(0, 14), 0)
  {
    assert Constant(0, zeros + 14) == Constant(0, zeros) + Constant(0, 14);
    OneHighIsLow(Steps(zeros) + Constant(0, 14), zeros + 14);
  }

  predicate AtMost(data: seq<nat>, v: nat) {
    data != [] ==> Percentile(data, 95).value <= v
  }

  predicate AtLeast(data: seq<nat>, v: nat) {
    data != [] && Percentile(data, 95).value >= v
  }

  lemma ZerosAtMost(data: seq<nat>, v: nat)
    requires forall x :: x in data ==> x == 0
    ensures AtMost(data, v)
  {
    if data != [] {
      var top := Percentile(data, 100).value;
      ExtremePercentiles(data);
      assert top in data;
      PercentileMonotone(data, 95, 100);
    }
  }

  lemma CopiesWithin(data: seq<nat>, base: seq<nat>, m: nat)
    requires IsCopies(data, base, m)
    ensures forall x :: x in data ==> x in base
  {
    forall x | x in data ensures x in base {
      assert multiset(data)[x] == m * multiset(base)[x];
      assert multiset(data)[x] > 0;
      NoProduct(m, multiset(base)[x]);
    }
  }

  lemma VeryHighBelow(index: Index, q: Query, walk: seq<Slot>, v: nat)
    requires Window(index, q.lookback) == walk
    requires forall d :: d == Global || (d.Account? && d.key in q.accounts) ==> AtMost(Data(index, q, walk, d), v)
    ensures Levels(Groups(Calculation2, index, q)).At(VeryHigh) <= v
  {
    var groups := Groups(Calculation2, index, q);
    forall d | d in groups ensures AtMost(groups[d], v) {
      var data := GroupData(index, q, walk, d);
    }
    VeryHighAtMost(groups, v);
  }

  lemma GroupData(index: Index, q: Query, walk: seq<Slot>, d: DataType) returns (data: seq<nat>)
    requires Window(index, q.lookback) == walk && d in Groups(Calculation2, index, q)
    ensures d == Global || (d.Account? && d.key in q.accounts)
    ensures Groups(Calculation2, index, q)[d] == data == Data(index, q, walk, d)
  {
    GroupIsData(index, Calculation2, q, d);
    data := Data(index, q, walk, d);
  }

  lemma VeryHighAtMost(groups: GroupMap, v: nat)
    requires forall d :: d in groups ==> AtMost(groups[d], v)
    ensures Levels(groups).At(VeryHigh) <= v
  {
    LevelAtMost(groups, VeryHigh, v);
  }

  lemma VeryHighAbove(index: Index, q: Query, walk: seq<Slot>, a: Pubkey, v: nat)
    requires Window(index, q.lookback) == walk && walk != [] && a in q.accounts
    requires AtLeast(Data(index, q, walk, Account(a)), v)
    ensures Levels(Groups(Calculation2, index, q)).At(VeryHigh) >= v
  {
    GroupIsData(index, Calculation2, q, Account(a));
    VeryHighAtLeast(Groups(Calculation2, index, q), Account(a), v);
  }

  lemma VeryHighAtLeast(groups: GroupMap, d: DataType, v: nat)
    requires d in groups && AtLeast(groups[d], v)
    ensures Levels(groups).At(VeryHigh) >= v
  {
    GroupBelowLevel(groups, d, VeryHigh);
  }

  /** What a query sees of the account of a ladder: the rung its mentions reach. */
  lemma MineSeen(index: Index, q: Query, a: Pubkey, zeros: nat)
    requires (zeros == 18 || zeros == 20) && Mention(index, q, [1], a) == Steps(zeros) && a in q.accounts
    ensures Data(index, q, [1], Account(a)) != []
    ensures Percentile(Data(index, q, [1], Account(a)), 95).value == Rung(zeros, Count(q.accounts, a))
  {
    GroupIsCopies(index, q, [1], a);
    CountPositive(q.accounts, a);
    RungOfCopies(Data(index, q, [1], Account(a)), zeros, Count(q.accounts, a));
  }

  lemma OthersSeen(index: Index, q: Query, b: Pubkey, v: nat)
    requires forall x :: x in Mention(index, q, [1], b) ==> x == 0
    ensures AtMost(Data(index, q, [1], Account(b)), v)
  {
    GroupIsCopies(index, q, [1], b);
    CopiesWithin(Data(index, q, [1], Account(b)), Mention(index, q, [1], b), Count(q.accounts, b));
    ZerosAtMost(Data(index, q, [1], Account(b)), v);
  }

  lemma LadderBelow(t: Tracker, a: Pubkey, zeros: nat, mine: seq<nat>, all: seq<nat>, q: Query)
    requires (zeros == 18 || zeros == 20) && OneSlot(t, a, mine, all) && q.lookback != Some(0)
    requires mine == Steps(zeros) && AtMost(all, 0)
    ensures Levels(Groups(Calculation2, t.index, q)).At(VeryHigh) <= if a in q.accounts then Rung(zeros, Count(q.accounts, a)) else 0
  {
    var v := if a in q.accounts then Rung(zeros, Count(q.accounts, a)) else 0;
    OneSlotWindow(t.index, q.lookback);
    OneSlotSeen(t, a, mine, all, q, a);
    forall b | b in q.accounts ensures AtMost(Data(t.index, q, [1], Account(b)), v) {
      OneSlotSeen(t, a, mine, all, q, b);
      if b == a {
        MineSeen(t.index, q, a, zeros);
      } else {
        OthersSeen(t.index, q, b, v);
      }
    }
    VeryHighBelow(t.index, q, [1], v);
  }

  lemma LadderAbove(t: Tracker, a: Pubkey, zeros: nat, mine: seq<nat>, all: seq<nat>, q: Query)
    requires (zeros == 18 || zeros == 20) && OneSlot(t, a, mine, all) && q.lookback != Some(0)
    requires mine == Steps(zeros) && a in q.accounts
    ensures Levels(Groups(Calculation2, t.index, q)).At(VeryHigh) >= Rung(zeros, Count(q.accounts, a))
  {
    OneSlotWindow(t.index, q.lookback);
    OneSlotSeen(t, a, mine, all, q, a);
    MineSeen(t.index, q, a, zeros);
    VeryHighAbove(t.index, q, [1], a, Rung(zeros, Count(q.accounts, a)));
  }

  /** The two requests after a ladder. */
  lemma LadderLevels(capacity: nat, p: Query, q: Query, a: Pubkey, zeros: nat)
    requires capacity >= 1 && p.lookback != Some(0) && q.lookback != Some(0)
    requires (zeros == 18 || zeros == 20) && a in p.accounts
    ensures var index := Run(capacity, Ladder(a, zeros)).index;
      && Levels(Groups(Calculation2, index, p)).At(VeryHigh) >= Rung(zeros, Count(p.accounts, a))
      && Levels(Groups(Calculation2, index, q)).At(VeryHigh) <= if a in q.accounts then Rung(zeros, Count(q.accounts, a)) else 0
  {
    var mine := Steps(zeros);
    var all := mine + Constant(0, 14);
    LadderRun(capacity, a, zeros);
    GlobalIsLow(zeros);
    LadderAbove(Run(capacity, Ladder(a, zeros)), a, zeros, mine, all, p);
    LadderBelow(Run(capacity, Ladder(a, zeros)), a, zeros, mine, all, q);
  }

  lemma RungsApart(m: nat, n: nat, zeros: nat)
    requires m > 0 && !Enough(m, n) && zeros == if m < n then 20 else 18
    ensures Rung(zeros, m) > if n > 0 then Rung(zeros, n) else 0
  {
  }

  /** An account named once too often, or not often enough, shows: a run after which veryHigh is lower. */
  lemma NotEnoughLowers(capacity: nat, p: Query, q: Query, a: Pubkey) returns (log: seq<Sample>)
    requires capacity >= 1 && p == q.(accounts := p.accounts) && q.lookback != Some(0)
    requires a in p.accounts && !Enough(Count(p.accounts, a), Count(q.accounts, a))
    ensures var index := Run(capacity, log).index;
      Levels(Groups(Calculation2, index, p)).At(VeryHigh) > Levels(Groups(Calculation2, index, q)).At(VeryHigh)
  {
    var m, n := Count(p.accounts, a), Count(q.accounts, a);
    var zeros: nat := if m < n then 20 else 18;
    log := Ladder(a, zeros);
    CountPositive(p.accounts, a);
    CountPositive(q.accounts, a);
    RungsApart(m, n, zeros);
    LadderLevels(capacity, p, q, a, zeros);
  }

  // ---------------------------------------------------------------- exactly when

  /** In no state the tracker can reach is a level of `q` lower than the same level of `p`. */
  ghost predicate NeverLowers(capacity: nat, p: Query, q: Query)
    requires capacity >= 1
  {
    forall log: seq<Sample>, level: PriorityLevel ::
      Levels(Groups(Calculation2, Run(capacity, log).index, p)).At(level)
        <= Levels(Groups(Calculation2, Run(capacity, log).index, q)).At(level)
  }

  lemma NothingSeen(index: Index, p: Query, q: Query)
    requires p.lookback == q.lookback == Some(0)
    ensures Groups(Calculation2, index, p) == Groups(Calculation2, index, q)
  {
    assert Window(index, Some(0)) == [];
  }

  /**
   `q` never gives a lower level than `p`, of the same flags and lookback, exactly when they look at
   nothing or `q` names every account of `p` as often as `p` does, or fewer times but at least
   seven, or more times where `p` has at least thirteen already.
   */
  lemma RequestComparison(capacity: nat, p: Query, q: Query)
    requires capacity >= 1 && p == q.(accounts := p.accounts)
    ensures NeverLowers(capacity, p, q) <==> q.lookback == Some(0) || AllEnough(p, q)
  {
    if q.lookback == Some(0) {
      forall log: seq<Sample>, level: PriorityLevel
        ensures Levels(Groups(Calculation2, Run(capacity, log).index, p)).At(level)
             <= Levels(Groups(Calculation2, Run(capacity, log).index, q)).At(level)
      {
        NothingSeen(Run(capacity, log).index, p, q);
      }
    } else if AllEnough(p, q) {
      forall log: seq<Sample>, level: PriorityLevel
        ensures Levels(Groups(Calculation2, Run(capacity, log).index, p)).At(level)
             <= Levels(Groups(Calculation2, Run(capacity, log).index, q)).At(level)
      {
        EnoughMentions(Run(capacity, log).index, p, q, level);
      }
    } else {
      var a :| a in p.accounts && !Enough(Count(p.accounts, a), Count(q.accounts, a));
      var log := NotEnoughLowers(capacity, p, q, a);
    }
  }

  /** For a request without repeats: exactly when the other names each of its accounts once. */
  lemma DistinctComparison(capacity: nat, p: Query, q: Query)
    requires capacity >= 1 && p == q.(accounts := p.accounts) && NoDuplicates(p.accounts)
    ensures NeverLowers(capacity, p, q) <==> q.lookback == Some(0) || forall a :: a in p.accounts ==> Count(q.accounts, a) == 1
  {
    RequestComparison(capacity, p, q);
    forall a | a in p.accounts ensures Count(p.accounts, a) == 1 {
      CountIsMultiplicity(p.accounts, a);
      CountOne(p.accounts, a);
    }
  }

  /** Naming an account twice instead of once lowers veryHigh from 12 or more to 11 or less. */
  lemma RepeatedAccountLowers(capacity: nat, p: Query, q: Query, a: Pubkey)
    requires capacity >= 1 && p == q.(accounts := p.accounts) && q.lookback != Some(0)
    requires p.accounts == [a] && q.accounts == [a, a]
    ensures var index := Run(capacity, Ladder(a, 20)).index;
      && Levels(Groups(Calculation2, index, p)).At(VeryHigh) >= 12
      && Levels(Groups(Calculation2, index, q)).At(VeryHigh) <= 11
  {
    assert [a][..0] == [] && [a, a][..1] == [a];
    assert Count([a][..0], a) == 0;
    assert Count([a], a) == 1;
    LadderLevels(capacity, p, q, a, 20);
  }
}
