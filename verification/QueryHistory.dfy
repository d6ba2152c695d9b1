/**
 What a query answers, from the log alone. `GlobalAnswer`, `PooledAnswer` and `AccountAnswer` say what
 the groups hold in terms of the samples pushed to each slot since its latest admission; the index
 does not occur in them.
 */
module QueryHistory {
  import opened Options
  import opened Sequences
  import opened SlotWindow
  import opened FeeModel
  import opened FeeTracker
  import opened FeeCalculation
  import opened FeeQueries
  import opened FeePooling
  import opened FeeHistory
  import opened Copies
  import opened RepeatedAccounts

  // ---------------------------------------------------------------- answers from the log

  /** Where the latest stay of a slot in the window began. */
  function Since(capacity: nat, log: seq<Sample>, s: Slot): nat {
    match LatestAdmission(capacity, log, s)
    case Some(n) => n
    case None => |log|
  }

  /** What was pushed to one list of a slot since then, the votes first, if they are wanted. */
  function Pushed(capacity: nat, log: seq<Sample>, s: Slot, part: ListName, includeVote: bool): seq<Fee> {
    (if includeVote then FeesSince(log, Since(capacity, log, s), s, part, true) else [])
      + FeesSince(log, Since(capacity, log, s), s, part, false)
  }

  ghost predicate NamedSince(capacity: nat, log: seq<Sample>, s: Slot, a: Pubkey) {
    Named(log, Since(capacity, log, s), s, a)
  }

  function GlobalAnswer(capacity: nat, log: seq<Sample>, includeVote: bool, walk: seq<Slot>): seq<Fee> {
    if walk == [] then []
    else
      var n := |walk| - 1;
      GlobalAnswer(capacity, log, includeVote, walk[..n]) + Pushed(capacity, log, walk[n], Whole, includeVote)
  }

  /** One account over a walk: what was pushed naming it, or with filling a zero for a slot where nothing was. */
  ghost function AccountAnswer(capacity: nat, log: seq<Sample>, q: Query, a: Pubkey, walk: seq<Slot>): seq<Fee> {
    if walk == [] then []
    else
      var n := |walk| - 1;
      AccountAnswer(capacity, log, q, a, walk[..n])
        + (if NamedSince(capacity, log, walk[n], a) then Pushed(capacity, log, walk[n], OfAccount(a), q.includeVote)
           else if q.includeEmptySlots then [0] else [])
  }

  /** All requested accounts in one slot, one after the other, each mention by itself. */
  function PooledSlot(capacity: nat, log: seq<Sample>, includeVote: bool, accounts: seq<Pubkey>, s: Slot): seq<Fee> {
    if accounts == [] then []
    else
      var n := |accounts| - 1;
      PooledSlot(capacity, log, includeVote, accounts[..n], s) + Pushed(capacity, log, s, OfAccount(accounts[n]), includeVote)
  }

  /** All requested accounts over a walk, with filling a zero for a slot where none of them was named. */
  ghost function PooledAnswer(capacity: nat, log: seq<Sample>, q: Query, walk: seq<Slot>): seq<Fee> {
    if walk == [] then []
    else
      var n := |walk| - 1;
      PooledAnswer(capacity, log, q, walk[..n])
        + PooledSlot(capacity, log, q.includeVote, q.accounts, walk[n])
        + (if q.accounts != [] && q.includeEmptySlots && forall a :: a in q.accounts ==> !NamedSince(capacity, log, walk[n], a) then [0] else [])
  }

  // ---------------------------------------------------------------- one slot

  lemma ListIsPushed(capacity: nat, log: seq<Sample>, s: Slot, part: ListName, includeVote: bool)
    requires capacity >= 1 && s in Run(capacity, log).index
    ensures ListOf(Run(capacity, log).index[s], part).Collect(includeVote) == Pushed(capacity, log, s, part, includeVote)
  {
    EntriesAreLog(capacity, log, s, part, true);
    EntriesAreLog(capacity, log, s, part, false);
  }

  lemma HasIfNamed(capacity: nat, log: seq<Sample>, s: Slot, a: Pubkey)
    requires capacity >= 1 && s in Run(capacity, log).index
    ensures Has(Run(capacity, log).index, s, a) <==> NamedSince(capacity, log, s, a)
  {
    EntryIfNamed(capacity, log, s, a);
  }

  lemma HitIsPushed(capacity: nat, log: seq<Sample>, q: Query, s: Slot, a: Pubkey)
    requires capacity >= 1 && s in Run(capacity, log).index
    ensures Hit(Run(capacity, log).index, q, s)(a) == Pushed(capacity, log, s, OfAccount(a), q.includeVote)
    ensures NamedSince(capacity, log, s, a) ==> Part(Run(capacity, log).index, q, s)(a) == Pushed(capacity, log, s, OfAccount(a), q.includeVote)
    ensures !NamedSince(capacity, log, s, a) ==> Part(Run(capacity, log).index, q, s)(a) == if q.includeEmptySlots then [0] else []
  {
    HasIfNamed(capacity, log, s, a);
    ListIsPushed(capacity, log, s, OfAccount(a), q.includeVote);
    assert NoFees.Collect(q.includeVote) == [];
  }

  lemma {:induction false} HitsArePushed(capacity: nat, log: seq<Sample>, q: Query, accounts: seq<Pubkey>, s: Slot)
    requires capacity >= 1 && s in Run(capacity, log).index
    ensures Gather(accounts, Hit(Run(capacity, log).index, q, s)) == PooledSlot(capacity, log, q.includeVote, accounts, s)
  {
    if accounts != [] {
      HitsArePushed(capacity, log, q, accounts[..|accounts|-1], s);
      HitIsPushed(capacity, log, q, s, accounts[|accounts|-1]);
    }
  }

  lemma ZeroIfNoneNamed(capacity: nat, log: seq<Sample>, q: Query, s: Slot)
    requires capacity >= 1 && s in Run(capacity, log).index
    ensures PooledZero(Run(capacity, log).index, q)(s)
         == if q.accounts != [] && q.includeEmptySlots && forall a :: a in q.accounts ==> !NamedSince(capacity, log, s, a) then [0] else []
  {
    forall a | a in q.accounts ensures Has(Run(capacity, log).index, s, a) <==> NamedSince(capacity, log, s, a) {
      HasIfNamed(capacity, log, s, a);
    }
  }

  // ---------------------------------------------------------------- whole walks

  lemma {:induction false} GlobalIsAnswer(capacity: nat, log: seq<Sample>, q: Query, walk: seq<Slot>)
    requires capacity >= 1 && forall s :: s in walk ==> s in Run(capacity, log).index
    ensures Data(Run(capacity, log).index, q, walk, Global) == GlobalAnswer(capacity, log, q.includeVote, walk)
  {
    if walk != [] {
      var n := |walk| - 1;
      assert walk[n] in walk;
      forall s | s in walk[..n] ensures s in walk {}
      GlobalIsAnswer(capacity, log, q, walk[..n]);
      ListIsPushed(capacity, log, walk[n], Whole, q.includeVote);
    }
  }

  lemma {:induction false} PooledIsAnswer(capacity: nat, log: seq<Sample>, q: Query, walk: seq<Slot>)
    requires capacity >= 1 && forall s :: s in walk ==> s in Run(capacity, log).index
    ensures Data(Run(capacity, log).index, q, walk, AllAccounts) == PooledAnswer(capacity, log, q, walk)
  {
    if walk != [] {
      var n, index := |walk| - 1, Run(capacity, log).index;
      assert walk[n] in walk;
      forall s | s in walk[..n] ensures s in walk {}
      PooledIsAnswer(capacity, log, q, walk[..n]);
      HitsArePushed(capacity, log, q, q.accounts, walk[n]);
      ZeroIfNoneNamed(capacity, log, q, walk[n]);
      PooledLast(index, q, walk);
    }
  }

  lemma PooledLast(index: Index, q: Query, walk: seq<Slot>)
    requires walk != []
    ensures var n := |walk| - 1;
      Data(index, q, walk, AllAccounts)
        == Data(index, q, walk[..n], AllAccounts) + Gather(q.accounts, Hit(index, q, walk[n])) + PooledZero(index, q)(walk[n])
  {
    var n := |walk| - 1;
    assert PooledChunk(index, q)(walk[n]) == Gather(q.accounts, Hit(index, q, walk[n])) + PooledZero(index, q)(walk[n]);
  }

  lemma {:induction false} MentionIsAnswer(capacity: nat, log: seq<Sample>, q: Query, a: Pubkey, walk: seq<Slot>)
    requires capacity >= 1 && forall s :: s in walk ==> s in Run(capacity, log).index
    ensures Mention(Run(capacity, log).index, q, walk, a) == AccountAnswer(capacity, log, q, a, walk)
  {
    if walk != [] {
      var n := |walk| - 1;
      assert walk[n] in walk;
      forall s | s in walk[..n] ensures s in walk {}
      MentionIsAnswer(capacity, log, q, a, walk[..n]);
      HitIsPushed(capacity, log, q, walk[n], a);
    }
  }

  // ---------------------------------------------------------------- the two algorithms

  /**
   The first algorithm, in every reachable state: always two groups, Global with every fee pushed to
   the slots looked at, AllAccounts with every fee pushed there naming a requested account.
   */
  lemma PooledQueryIsLog(capacity: nat, log: seq<Sample>, q: Query)
    requires capacity >= 1
    ensures var index := Run(capacity, log).index;
      var walk, groups := Window(index, q.lookback), Groups(Calculation1, index, q);
      && groups.Keys == {Global, AllAccounts}
      && groups[Global] == GlobalAnswer(capacity, log, q.includeVote, walk)
      && groups[AllAccounts] == PooledAnswer(capacity, log, q, walk)
  {
    var index := Run(capacity, log).index;
    var walk := Window(index, q.lookback);
    WindowWithin(index, q.lookback);
    GlobalIsAnswer(capacity, log, q, walk);
    PooledIsAnswer(capacity, log, q, walk);
  }

  /** The second algorithm: no group when there is no slot to look at, otherwise Global and one per requested account. */
  lemma GroupedQueryHas(capacity: nat, log: seq<Sample>, q: Query)
    requires capacity >= 1
    ensures var index := Run(capacity, log).index;
      var walk, groups := Window(index, q.lookback), Groups(Calculation2, index, q);
      && (walk == [] ==> groups == map[])
      && (walk != [] ==> Global in groups && groups[Global] == GlobalAnswer(capacity, log, q.includeVote, walk))
      && forall d :: d in groups ==> d == Global || (d.Account? && d.key in q.accounts)
  {
    var index := Run(capacity, log).index;
    var walk := Window(index, q.lookback);
    WindowWithin(index, q.lookback);
    GlobalIsAnswer(capacity, log, q, walk);
    GroupIsData(index, Calculation2, q, Global);
    forall d | d in Groups(Calculation2, index, q) ensures d == Global || (d.Account? && d.key in q.accounts) {
      GroupIsData(index, Calculation2, q, d);
    }
  }

  /** The fees of an account's group: those pushed naming it, or filling zeros, once per mention of the account. */
  lemma GroupedQueryIsLog(capacity: nat, log: seq<Sample>, q: Query, a: Pubkey)
    requires capacity >= 1 && a in q.accounts
    ensures var index := Run(capacity, log).index;
      var walk, groups := Window(index, q.lookback), Groups(Calculation2, index, q);
      walk != [] ==>
        Account(a) in groups && IsCopies(groups[Account(a)], AccountAnswer(capacity, log, q, a, walk), Count(q.accounts, a))
  {
    var index := Run(capacity, log).index;
    var walk := Window(index, q.lookback);
    WindowWithin(index, q.lookback);
    GroupIsData(index, Calculation2, q, Account(a));
    MentionIsAnswer(capacity, log, q, a, walk);
    GroupIsCopies(index, q, walk, a);
  }

  // ---------------------------------------------------------------- the per-version report

  /** One version's non-vote fees over a walk, as the log pushed them. */
  function VersionAnswer(capacity: nat, log: seq<Sample>, v: Version, walk: seq<Slot>): seq<Fee> {
    if walk == [] then []
    else
      var n := |walk| - 1;
      VersionAnswer(capacity, log, v, walk[..n]) + Pushed(capacity, log, walk[n], OfVersion(v), false)
  }

  lemma {:induction false} VersionIsAnswer(capacity: nat, log: seq<Sample>, v: Version, walk: seq<Slot>)
    requires capacity >= 1 && forall s :: s in walk ==> s in Run(capacity, log).index
    ensures Gather(walk, VersionChunk(Run(capacity, log).index, v)) == VersionAnswer(capacity, log, v, walk)
  {
    if walk != [] {
      var n := |walk| - 1;
      assert walk[n] in walk;
      forall s | s in walk[..n] ensures s in walk {}
      VersionIsAnswer(capacity, log, v, walk[..n]);
      ListIsPushed(capacity, log, walk[n], OfVersion(v), false);
      assert VersionChunk(Run(capacity, log).index, v)(walk[n]) == Pushed(capacity, log, walk[n], OfVersion(v), false);
    }
  }

  /** The population of a version's report: the non-vote fees of that version pushed to the live slots. */
  lemma VersionReportIsLog(capacity: nat, log: seq<Sample>, v: Version)
    requires capacity >= 1
    ensures var index := Run(capacity, log).index;
      multiset(VersionData(index, v)) == multiset(VersionAnswer(capacity, log, v, Window(index, None)))
  {
    var index := Run(capacity, log).index;
    WindowWithin(index, None);
    WindowListing(index);
    GatherPermuted(Listing(index.Keys), Window(index, None), VersionChunk(index, v));
    VersionIsAnswer(capacity, log, v, Window(index, None));
  }
}
