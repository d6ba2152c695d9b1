/**
 The two query algorithms. Both walk the newest slots of the index; the first pools the requested
 accounts into one group, the second keeps a group per account, and both add the Global group.
 The functions say which data every group holds; the methods are the loops that build it.
 */
module FeeCalculation {
  import opened Options
  import opened Sequences
  import opened SlotWindow
  import opened FeeModel
  import opened FeeTracker

  type Index = map<Slot, SlotFees>

  datatype DataType = Global | AllAccounts | Account(key: Pubkey)

  datatype Query = Query(accounts: seq<Pubkey>, includeVote: bool, includeEmptySlots: bool, lookback: Option<nat>)

  datatype Algorithm = Calculation1 | Calculation2

  /** As many slots as asked for, but no more than there are. */
  function LookbackSize(preferred: Option<nat>, available: nat): (n: nat)
    ensures n <= available && (preferred.Some? ==> n <= preferred.value)
    ensures n == available || preferred == Some(n)
  {
    match preferred
    case None => available
    case Some(v) => if v < available then v else available
  }

  /** The slots a query looks at: by slot number, newest first, whatever order they were admitted in. */
  ghost function Window(index: Index, lookback: Option<nat>): seq<Slot> {
    var slots := Descending(index.Keys);
    slots[..LookbackSize(lookback, |slots|)]
  }

  // ---------------------------------------------------------------- what one slot contributes

  function GlobalChunk(index: Index, includeVote: bool): Slot -> seq<nat> {
    s => if s in index then index[s].fees.Collect(includeVote) else []
  }

  predicate Has(index: Index, s: Slot, a: Pubkey) {
    s in index && a in index[s].accounts
  }

  function Hit(index: Index, q: Query, s: Slot): Pubkey -> seq<nat> {
    a => if Has(index, s, a) then index[s].accounts[a].Collect(q.includeVote) else []
  }

  predicate AllMissed(index: Index, accounts: seq<Pubkey>, s: Slot) {
    forall a :: a in accounts ==> !Has(index, s, a)
  }

  /** One zero stands for a slot that none of the requested accounts touched, if such slots are to be filled. */
  function PooledZero(index: Index, q: Query): Slot -> seq<nat> {
    s => if s in index && q.accounts != [] && q.includeEmptySlots && AllMissed(index, q.accounts, s) then [0] else []
  }

  function PooledHits(index: Index, q: Query): Slot -> seq<nat> {
    s => Gather(q.accounts, Hit(index, q, s))
  }

  function PooledChunk(index: Index, q: Query): Slot -> seq<nat> {
    s => PooledHits(index, q)(s) + PooledZero(index, q)(s)
  }

  /** One occurrence of an account in the request: its fees in the slot, or a zero for a missed slot if wanted. */
  function Part(index: Index, q: Query, s: Slot): Pubkey -> seq<nat> {
    a => if Has(index, s, a) then index[s].accounts[a].Collect(q.includeVote)
         else if s in index && q.includeEmptySlots then [0] else []
  }

  function AccountChunk(index: Index, q: Query, a: Pubkey): Slot -> seq<nat> {
    s => Repeat(Part(index, q, s)(a), Count(q.accounts, a))
  }

  function ChunkOf(index: Index, q: Query, d: DataType): Slot -> seq<nat> {
    match d
    case Global => GlobalChunk(index, q.includeVote)
    case AllAccounts => PooledChunk(index, q)
    case Account(a) => AccountChunk(index, q, a)
  }

  /** The data of one group over a walk of slots. */
  function Data(index: Index, q: Query, walk: seq<Slot>, d: DataType): seq<nat> {
    Gather(walk, ChunkOf(index, q, d))
  }

  function AccountKeys(accounts: seq<Pubkey>): (keys: set<DataType>)
    ensures forall d :: d in keys <==> d.Account? && d.key in accounts
  {
    set a | a in accounts :: Account(a)
  }

  function V1Over(index: Index, q: Query, walk: seq<Slot>): map<DataType, seq<nat>> {
    map[Global := Data(index, q, walk, Global), AllAccounts := Data(index, q, walk, AllAccounts)]
  }

  /** An empty walk makes no group at all, not even Global. */
  function V2Over(index: Index, q: Query, walk: seq<Slot>): map<DataType, seq<nat>> {
    if walk == [] then map[]
    else map d | d in {Global} + AccountKeys(q.accounts) :: Data(index, q, walk, d)
  }

  ghost function Groups(algorithm: Algorithm, index: Index, q: Query): map<DataType, seq<nat>> {
    match algorithm
    case Calculation1 => V1Over(index, q, Window(index, q.lookback))
    case Calculation2 => V2Over(index, q, Window(index, q.lookback))
  }

  // ---------------------------------------------------------------- the loops

  /** Collect the keys in whatever order the map yields them, sort, reverse. */
  method SlotsNewestFirst(tracker: PriorityFeeTracker) returns (slots: seq<Slot>)
    requires tracker.Keyed()
    ensures slots == Descending(tracker.Views().Keys)
  {
    slots := [];
    var keys := tracker.priorityFees.Keys;
    var rest := keys;
    while rest != {}
      invariant rest <= keys
      invariant Lists(slots, keys - rest)
      decreases rest
    {
      var k :| k in rest;
      ListsFewer(slots, keys, rest, k);
      slots := slots + [tracker.priorityFees[k].slot];
      rest := rest - {k};
    }
    assert keys - rest == keys;
    SortedReversedListing(slots, keys);
    slots := Reverse(Sort(slots));
  }

  method GetV1(tracker: PriorityFeeTracker, q: Query) returns (data: map<DataType, seq<nat>>)
    requires tracker.Keyed()
    ensures data == Groups(Calculation1, old(tracker.Views()), q)
  {
    var slots := SlotsNewestFirst(tracker);
    var lookback := LookbackSize(q.lookback, |slots|);
    data := WalkV1(tracker, q, slots[..lookback]);
  }

  /** A slot that has left the index since it was listed is passed over. */
  method WalkV1(tracker: PriorityFeeTracker, q: Query, walk: seq<Slot>) returns (data: map<DataType, seq<nat>>)
    ensures data == V1Over(tracker.Views(), q, walk)
  {
    ghost var index := tracker.Views();
    var globalFees: seq<nat>, accountFees: seq<nat> := [], [];
    for i := 0 to |walk|
      invariant globalFees == Data(index, q, walk[..i], Global)
      invariant accountFees == Data(index, q, walk[..i], AllAccounts)
    {
      var s := walk[i];
      DataOneMore(index, q, walk, i, Global);
      DataOneMore(index, q, walk, i, AllAccounts);
      if s in tracker.priorityFees {
        globalFees := AppendGlobal(tracker, q, s, globalFees);
        accountFees := AppendPooled(tracker, q, s, accountFees);
      } else {
        AbsentSlot(index, q, s, Global);
        AbsentSlot(index, q, s, AllAccounts);
      }
    }
    assert walk[..|walk|] == walk;
    data := map[Global := globalFees, AllAccounts := accountFees];
  }

  /** Nothing is pooled for a request without accounts. */
  method AppendPooled(tracker: PriorityFeeTracker, q: Query, s: Slot, before: seq<nat>) returns (fees: seq<nat>)
    requires s in tracker.priorityFees
    ensures fees == before + PooledChunk(tracker.Views(), q)(s)
  {
    fees := before;
    if 0 < |q.accounts| {
      var pooled := PoolSlot(tracker, q, s);
      fees := fees + pooled;
    } else {
      NothingPooled(tracker.Views(), q, s);
    }
  }

  /** A slot that is not there adds nothing to any group. */
  lemma AbsentSlot(index: Index, q: Query, s: Slot, d: DataType)
    requires s !in index
    ensures ChunkOf(index, q, d)(s) == []
  {
    match d {
      case Global =>
      case AllAccounts =>
        NothingGathered(q.accounts, Hit(index, q, s));
        assert PooledHits(index, q)(s) == [] && PooledZero(index, q)(s) == [];
      case Account(a) =>
        NothingRepeated(Count(q.accounts, a));
        assert Part(index, q, s)(a) == [];
    }
  }

  lemma {:induction false} NothingGathered<T>(walk: seq<T>, chunk: T -> seq<nat>)
    requires forall t :: t in walk ==> chunk(t) == []
    ensures Gather(walk, chunk) == []
  {
    if walk != [] {
      var n := |walk| - 1;
      forall t | t in walk[..n] ensures t in walk {}
      NothingGathered(walk[..n], chunk);
      assert walk[n] in walk;
    }
  }

  lemma {:induction false} NothingRepeated(n: nat)
    ensures Repeat([], n) == []
  {
    if n > 0 {
      NothingRepeated(n - 1);
    }
  }

  lemma NothingPooled(index: Index, q: Query, s: Slot)
    requires q.accounts == []
    ensures PooledChunk(index, q)(s) == []
  {
    assert Gather(q.accounts, Hit(index, q, s)) == [];
    assert PooledHits(index, q)(s) == [] && PooledZero(index, q)(s) == [];
  }

  /** A slot's own fees, the vote fees first if they are wanted. */
  method AppendGlobal(tracker: PriorityFeeTracker, q: Query, s: Slot, before: seq<nat>) returns (fees: seq<nat>)
    requires s in tracker.priorityFees
    ensures fees == before + GlobalChunk(tracker.Views(), q.includeVote)(s)
  {
    var entry := tracker.priorityFees[s];
    fees := before;
    if q.includeVote {
      fees := fees + entry.fees.vote;
    }
    fees := fees + entry.fees.nonVote;
    assert fees == before + entry.fees.Collect(q.includeVote);
  }

  lemma WindowWithin(index: Index, lookback: Option<nat>)
    ensures forall s :: s in Window(index, lookback) ==> s in index
  {
    forall s | s in Window(index, lookback) ensures s in index {
      assert s in Descending(index.Keys);
      assert s in Elements(Descending(index.Keys));
    }
  }

  lemma DataOneMore(index: Index, q: Query, slots: seq<Slot>, i: nat, d: DataType)
    requires i < |slots|
    ensures Data(index, q, slots[..i+1], d) == Data(index, q, slots[..i], d) + ChunkOf(index, q, d)(slots[i])
  {
    assert slots[..i+1] == slots[..i] + [slots[i]];
    GatherOne(slots[..i], slots[i], ChunkOf(index, q, d));
  }

  /** The requested accounts of one slot, and one zero if none of them has data and it is wanted. */
  method PoolSlot(tracker: PriorityFeeTracker, q: Query, s: Slot) returns (fees: seq<nat>)
    requires s in tracker.priorityFees && q.accounts != []
    ensures fees == PooledChunk(tracker.Views(), q)(s)
  {
    ghost var index := tracker.Views();
    var hasData: bool;
    fees, hasData := PoolHits(tracker, q, s);
    assert PooledZero(index, q)(s) == if !hasData && q.includeEmptySlots then [0] else [];
    if !hasData && q.includeEmptySlots {
      fees := fees + [0];
    } else {
      assert fees + [] == fees;
    }
  }

  method PoolHits(tracker: PriorityFeeTracker, q: Query, s: Slot) returns (fees: seq<nat>, hasData: bool)
    requires s in tracker.priorityFees
    ensures fees == PooledHits(tracker.Views(), q)(s)
    ensures hasData <==> !AllMissed(tracker.Views(), q.accounts, s)
  {
    ghost var index := tracker.Views();
    fees, hasData := [], false;
    for j := 0 to |q.accounts|
      invariant fees == Gather(q.accounts[..j], Hit(index, q, s))
      invariant hasData <==> !AllMissed(index, q.accounts[..j], s)
    {
      var a := q.accounts[j];
      assert q.accounts[..j+1] == q.accounts[..j] + [a];
      GatherOne(q.accounts[..j], a, Hit(index, q, s));
      var found: bool;
      fees, found := AppendHit(tracker, q, s, a, fees);
      if found {
        hasData := true;
      }
    }
    assert q.accounts[..|q.accounts|] == q.accounts;
  }

  method AppendHit(tracker: PriorityFeeTracker, q: Query, s: Slot, a: Pubkey, before: seq<nat>) returns (fees: seq<nat>, found: bool)
    requires s in tracker.priorityFees
    ensures fees == before + Hit(tracker.Views(), q, s)(a)
    ensures found <==> Has(tracker.Views(), s, a)
  {
    var entry := tracker.priorityFees[s];
    fees, found := before, a in entry.accountFees;
    if found {
      if q.includeVote {
        fees := fees + entry.accountFees[a].vote;
      }
      fees := fees + entry.accountFees[a].nonVote;
      assert fees == before + entry.accountFees[a].Collect(q.includeVote);
    } else {
      assert fees + [] == fees;
    }
  }

  method GetV2(tracker: PriorityFeeTracker, q: Query) returns (data: map<DataType, seq<nat>>)
    requires tracker.Keyed()
    ensures data == Groups(Calculation2, old(tracker.Views()), q)
  {
    var slots := SlotsNewestFirst(tracker);
    var lookback := LookbackSize(q.lookback, |slots|);
    WindowPresent(tracker.Views(), q.lookback);
    data := WalkV2(tracker, q, slots[..lookback]);
  }

  /** The slots of a walk that are still in the index. */
  function Present(index: Index, walk: seq<Slot>): seq<Slot> {
    if walk == [] then []
    else Present(index, walk[..|walk|-1]) + (if walk[|walk|-1] in index then [walk[|walk|-1]] else [])
  }

  lemma {:induction false} AllPresent(index: Index, walk: seq<Slot>)
    requires forall s :: s in walk ==> s in index
    ensures Present(index, walk) == walk
  {
    if walk != [] {
      var n := |walk| - 1;
      forall s | s in walk[..n] ensures s in index { assert s in walk; }
      AllPresent(index, walk[..n]);
      assert walk[n] in walk;
    }
  }

  lemma WindowPresent(index: Index, lookback: Option<nat>)
    ensures Present(index, Window(index, lookback)) == Window(index, lookback)
  {
    WindowWithin(index, lookback);
    AllPresent(index, Window(index, lookback));
  }

  /** Every group holds over a walk what it holds over the slots of the walk that are still there. */
  lemma {:induction false} DataOfPresent(index: Index, q: Query, walk: seq<Slot>, d: DataType)
    ensures Data(index, q, walk, d) == Data(index, q, Present(index, walk), d)
  {
    if walk != [] {
      var n := |walk| - 1;
      DataOfPresent(index, q, walk[..n], d);
      if walk[n] in index {
        GatherOne(Present(index, walk[..n]), walk[n], ChunkOf(index, q, d));
      } else {
        AbsentSlot(index, q, walk[n], d);
        assert Present(index, walk) == Present(index, walk[..n]);
        assert Data(index, q, walk, d) == Data(index, q, walk[..n], d) + [];
      }
    }
  }

  lemma PresentOneMore(index: Index, walk: seq<Slot>, i: nat)
    requires i < |walk|
    ensures Present(index, walk[..i+1]) == Present(index, walk[..i]) + (if walk[i] in index then [walk[i]] else [])
  {
    assert walk[..i+1][..i] == walk[..i];
  }

  /** A slot that has left the index since it was listed makes no group and adds to none. */
  method WalkV2(tracker: PriorityFeeTracker, q: Query, walk: seq<Slot>) returns (data: map<DataType, seq<nat>>)
    ensures data == V2Over(tracker.Views(), q, Present(tracker.Views(), walk))
  {
    ghost var index := tracker.Views();
    data := map[];
    for i := 0 to |walk|
      invariant data == V2Over(index, q, Present(index, walk[..i]))
    {
      var s := walk[i];
      PresentOneMore(index, walk, i);
      if s in tracker.priorityFees {
        ghost var before := data;
        data := ExtendSlot(tracker, q, s, data);
        V2OneMore(index, q, Present(index, walk[..i]), s, before, data);
      } else {
        assert Present(index, walk[..i+1]) == Present(index, walk[..i]);
      }
    }
    assert walk[..|walk|] == walk;
  }

  /** One slot's contribution to every group. */
  method ExtendSlot(tracker: PriorityFeeTracker, q: Query, s: Slot, start: map<DataType, seq<nat>>) returns (data: map<DataType, seq<nat>>)
    requires s in tracker.priorityFees
    ensures SlotAdded(tracker.Views(), q, s, start, data)
  {
    var extended := ExtendGlobal(tracker, q, s, start);
    data := ExtendAccounts(tracker, q, s, extended);
    SlotIsAdded(tracker.Views(), q, s, start, extended, data);
  }

  ghost predicate SlotAdded(index: Index, q: Query, s: Slot, start: map<DataType, seq<nat>>, data: map<DataType, seq<nat>>)
    requires s in index
  {
    && data.Keys == start.Keys + {Global} + AccountKeys(q.accounts)
    && data[Global] == Held(start, Global) + GlobalChunk(index, q.includeVote)(s)
    && forall a :: Account(a) in data ==> data[Account(a)] == Held(start, Account(a)) + AccountChunk(index, q, a)(s)
  }

  lemma SlotIsAdded(index: Index, q: Query, s: Slot, start: map<DataType, seq<nat>>, extended: map<DataType, seq<nat>>, data: map<DataType, seq<nat>>)
    requires s in index
    requires extended == start[Global := Held(start, Global) + GlobalChunk(index, q.includeVote)(s)]
    requires Extended(index, q, s, extended, data, |q.accounts|)
    ensures SlotAdded(index, q, s, start, data)
  {
    ExtendedAll(index, q, s, extended, data);
  }

  method ExtendGlobal(tracker: PriorityFeeTracker, q: Query, s: Slot, start: map<DataType, seq<nat>>) returns (data: map<DataType, seq<nat>>)
    requires s in tracker.priorityFees
    ensures data == start[Global := Held(start, Global) + GlobalChunk(tracker.Views(), q.includeVote)(s)]
  {
    var fees := AppendGlobal(tracker, q, s, Held(start, Global));
    data := start[Global := fees];
  }

  function Held(data: map<DataType, seq<nat>>, d: DataType): seq<nat> {
    if d in data then data[d] else []
  }

  lemma V2OneMore(index: Index, q: Query, walk: seq<Slot>, s: Slot, before: map<DataType, seq<nat>>, after: map<DataType, seq<nat>>)
    requires before == V2Over(index, q, walk)
    requires s in index && SlotAdded(index, q, s, before, after)
    ensures after == V2Over(index, q, walk + [s])
  {
    V2Keys(index, q, walk);
    forall d | d in after ensures after[d] == Data(index, q, walk + [s], d) {
      V2KeyOneMore(index, q, walk, s, d);
      ChunkAdded(index, q, s, before, after, d);
    }
    V2IsData(index, q, walk + [s]);
  }

  lemma ChunkAdded(index: Index, q: Query, s: Slot, before: map<DataType, seq<nat>>, after: map<DataType, seq<nat>>, d: DataType)
    requires d in after && d in {Global} + AccountKeys(q.accounts)
    requires d == Global ==> after[Global] == Held(before, Global) + GlobalChunk(index, q.includeVote)(s)
    requires d.Account? ==> after[Account(d.key)] == Held(before, Account(d.key)) + AccountChunk(index, q, d.key)(s)
    ensures after[d] == Held(before, d) + ChunkOf(index, q, d)(s)
  {
  }

  lemma V2Keys(index: Index, q: Query, walk: seq<Slot>)
    ensures V2Over(index, q, walk).Keys + {Global} + AccountKeys(q.accounts) == {Global} + AccountKeys(q.accounts)
  {
  }

  lemma V2IsData(index: Index, q: Query, walk: seq<Slot>)
    requires walk != []
    ensures var data := V2Over(index, q, walk);
      data.Keys == {Global} + AccountKeys(q.accounts) && forall d :: d in data ==> data[d] == Data(index, q, walk, d)
  {
  }

  lemma V2KeyOneMore(index: Index, q: Query, walk: seq<Slot>, s: Slot, d: DataType)
    requires d in {Global} + AccountKeys(q.accounts)
    ensures Data(index, q, walk + [s], d) == Held(V2Over(index, q, walk), d) + ChunkOf(index, q, d)(s)
  {
    GatherOne(walk, s, ChunkOf(index, q, d));
    HeldIsData(index, q, walk, d);
  }

  lemma HeldIsData(index: Index, q: Query, walk: seq<Slot>, d: DataType)
    requires d in {Global} + AccountKeys(q.accounts)
    ensures Held(V2Over(index, q, walk), d) == Data(index, q, walk, d)
  {
  }

  /** One slot's contribution to the account groups: an occurrence at a time, creating missing groups. */
  method ExtendAccounts(tracker: PriorityFeeTracker, q: Query, s: Slot, start: map<DataType, seq<nat>>) returns (data: map<DataType, seq<nat>>)
    requires s in tracker.priorityFees
    ensures Extended(tracker.Views(), q, s, start, data, |q.accounts|)
  {
    ghost var index := tracker.Views();
    data := start;
    ExtendedNone(index, q, s, start);
    for j := 0 to |q.accounts|
      invariant Extended(index, q, s, start, data, j)
    {
      data := ExtendAccount(tracker, q, s, start, data, j);
    }
  }

  lemma ExtendedNone(index: Index, q: Query, s: Slot, start: map<DataType, seq<nat>>)
    ensures Extended(index, q, s, start, start, 0)
  {
    assert AccountKeys(q.accounts[..0]) == {};
  }

  lemma ExtendedAll(index: Index, q: Query, s: Slot, start: map<DataType, seq<nat>>, data: map<DataType, seq<nat>>)
    requires Extended(index, q, s, start, data, |q.accounts|)
    ensures data.Keys == start.Keys + AccountKeys(q.accounts)
    ensures forall d :: d in start && !d.Account? ==> data[d] == start[d]
    ensures forall a :: Account(a) in data ==> data[Account(a)] == Held(start, Account(a)) + AccountChunk(index, q, a)(s)
  {
    assert q.accounts[..|q.accounts|] == q.accounts;
  }

  method ExtendAccount(tracker: PriorityFeeTracker, q: Query, s: Slot, ghost start: map<DataType, seq<nat>>, sofar: map<DataType, seq<nat>>, j: nat)
    returns (data: map<DataType, seq<nat>>)
    requires s in tracker.priorityFees && j < |q.accounts|
    requires Extended(tracker.Views(), q, s, start, sofar, j)
    ensures Extended(tracker.Views(), q, s, start, data, j + 1)
  {
    var a := q.accounts[j];
    var fees := AppendPart(tracker, q, s, a, Held(sofar, Account(a)));
    ExtendOne(tracker.Views(), q, s, start, sofar, j, fees);
    data := sofar[Account(a) := fees];
  }

  /** One occurrence of one account: its fees of the slot, or the filling zero, behind what is there. */
  method AppendPart(tracker: PriorityFeeTracker, q: Query, s: Slot, a: Pubkey, before: seq<nat>) returns (fees: seq<nat>)
    requires s in tracker.priorityFees
    ensures fees == before + Part(tracker.Views(), q, s)(a)
  {
    var entry := tracker.priorityFees[s];
    fees := before;
    if a in entry.accountFees {
      if q.includeVote {
        fees := fees + entry.accountFees[a].vote;
      }
      fees := fees + entry.accountFees[a].nonVote;
      assert fees == before + entry.accountFees[a].Collect(q.includeVote);
    } else if q.includeEmptySlots {
      fees := fees + [0];
    } else {
      assert fees + [] == fees;
    }
  }

  /** The account groups after the first `j` requested accounts of slot `s`. */
  ghost predicate Extended(index: Index, q: Query, s: Slot, start: map<DataType, seq<nat>>, data: map<DataType, seq<nat>>, j: nat)
    requires j <= |q.accounts|
  {
    && data.Keys == start.Keys + AccountKeys(q.accounts[..j])
    && (forall d :: d in start && !d.Account? ==> data[d] == start[d])
    && (forall a :: Account(a) in data ==>
          data[Account(a)] == Held(start, Account(a)) + Repeat(Part(index, q, s)(a), Count(q.accounts[..j], a)))
  }

  lemma ExtendOne(index: Index, q: Query, s: Slot, start: map<DataType, seq<nat>>, data: map<DataType, seq<nat>>, j: nat, fees: seq<nat>)
    requires j < |q.accounts| && Extended(index, q, s, start, data, j)
    requires fees == Held(data, Account(q.accounts[j])) + Part(index, q, s)(q.accounts[j])
    ensures Extended(index, q, s, start, data[Account(q.accounts[j]) := fees], j + 1)
  {
    var a := q.accounts[j];
    KeysOneMore(q.accounts, j);
    var next := data[Account(a) := fees];
    forall b | Account(b) in next
      ensures next[Account(b)] == Held(start, Account(b)) + Repeat(Part(index, q, s)(b), Count(q.accounts[..j+1], b))
    {
      if b == a {
        RepeatOneMore(index, q, s, start, data, j);
      } else {
        CountOneMore(q.accounts, j, b);
      }
    }
  }

  lemma KeysOneMore(accounts: seq<Pubkey>, j: nat)
    requires j < |accounts|
    ensures AccountKeys(accounts[..j+1]) == AccountKeys(accounts[..j]) + {Account(accounts[j])}
  {
    assert accounts[..j+1] == accounts[..j] + [accounts[j]];
  }

  lemma RepeatOneMore(index: Index, q: Query, s: Slot, start: map<DataType, seq<nat>>, data: map<DataType, seq<nat>>, j: nat)
    requires j < |q.accounts| && Extended(index, q, s, start, data, j)
    ensures var a := q.accounts[j];
      Held(data, Account(a)) + Part(index, q, s)(a) == Held(start, Account(a)) + Repeat(Part(index, q, s)(a), Count(q.accounts[..j+1], a))
  {
    var a := q.accounts[j];
    var part, n := Part(index, q, s)(a), Count(q.accounts[..j], a);
    CountOneMore(q.accounts, j, a);
    RepeatMore(Held(start, Account(a)), part, n);
    if Account(a) !in data {
      CountPositive(q.accounts[..j], a);
      assert Account(a) !in AccountKeys(q.accounts[..j]);
      assert Held(data, Account(a)) == [] == Held(start, Account(a)) + Repeat(part, n);
    }
  }

  lemma CountOneMore(accounts: seq<Pubkey>, j: nat, b: Pubkey)
    requires j < |accounts|
    ensures Count(accounts[..j+1], b) == Count(accounts[..j], b) + (if b == accounts[j] then 1 else 0)
  {
    assert accounts[..j+1][..j] == accounts[..j];
  }
}
