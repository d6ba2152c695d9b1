/**
 Queries while the writer is at work. A reader fetches its slots one at a time, each as some whole
 number of pushes left it, so what it puts together may be the index of no single moment; the laws
 of the queries hold of its answer all the same.
 */
module ConcurrentQueries {
  import opened Options
  import opened Sequences
  import opened SlotWindow
  import opened FeeModel
  import opened FeeTracker
  import opened FeeCalculation
  import opened FeeLevels
  import opened FeeQueries
  import opened FeePooling
  import opened ReadersAndWriter

  function FetchedSlots(fetched: seq<Fetched>): (slots: seq<Slot>)
    ensures |slots| == |fetched| && forall i :: 0 <= i < |fetched| ==> slots[i] == fetched[i].slot
  {
    seq(|fetched|, i requires 0 <= i < |fetched| => fetched[i].slot)
  }

  /** What the loops add to a group for one fetched slot. */
  function FetchedChunk(q: Query, d: DataType): Fetched -> seq<nat> {
    (f: Fetched) => ChunkOf(map[f.slot := f.entry], q, d)(f.slot)
  }

  function FetchedData(fetched: seq<Fetched>, q: Query, d: DataType): seq<nat> {
    Gather(fetched, FetchedChunk(q, d))
  }

  /** The groups a reader ends up with; `q.lookback` has already chosen what it fetched. */
  function GroupsSeen(algorithm: Algorithm, fetched: seq<Fetched>, q: Query): GroupMap {
    match algorithm
    case Calculation1 => map[Global := FetchedData(fetched, q, Global), AllAccounts := FetchedData(fetched, q, AllAccounts)]
    case Calculation2 =>
      if fetched == [] then map[]
      else map d | d in {Global} + AccountKeys(q.accounts) :: FetchedData(fetched, q, d)
  }

  /** The fetched slots put together, each as it was when it was fetched. */
  function Assembled(fetched: seq<Fetched>): Index {
    if fetched == [] then map[]
    else Assembled(fetched[..|fetched|-1])[fetched[|fetched|-1].slot := fetched[|fetched|-1].entry]
  }

  lemma {:induction false} AssembledIs(fetched: seq<Fetched>)
    ensures Assembled(fetched).Keys == Elements(FetchedSlots(fetched))
    ensures forall s :: s in Assembled(fetched) ==> exists f :: f in fetched && f.slot == s && f.entry == Assembled(fetched)[s]
  {
    if fetched != [] {
      var n := |fetched| - 1;
      AssembledIs(fetched[..n]);
      assert FetchedSlots(fetched) == FetchedSlots(fetched[..n]) + [fetched[n].slot];
      forall s | s in Assembled(fetched) ensures exists f :: f in fetched && f.slot == s && f.entry == Assembled(fetched)[s] {
        if s == fetched[n].slot {
          assert fetched[n] in fetched;
        } else {
          var f :| f in fetched[..n] && f.slot == s && f.entry == Assembled(fetched[..n])[s];
          assert f in fetched;
        }
      }
    }
  }

  /** What a slot contributes depends on that slot's entry alone. */
  lemma ChunkIsLocal(x: Index, y: Index, p: Query, q: Query, d: DataType, s: Slot)
    requires s in x && s in y && x[s] == y[s] && p == q.(lookback := p.lookback)
    ensures ChunkOf(x, p, d)(s) == ChunkOf(y, q, d)(s)
  {
    match d {
      case Global =>
      case AllAccounts =>
        GatherSame(p.accounts, Hit(x, p, s), Hit(y, q, s));
        assert AllMissed(x, p.accounts, s) <==> AllMissed(y, q.accounts, s);
        assert PooledHits(x, p)(s) == PooledHits(y, q)(s) && PooledZero(x, p)(s) == PooledZero(y, q)(s);
      case Account(a) =>
        assert Part(x, p, s)(a) == Part(y, q, s)(a);
    }
  }

  /** A walk that descends sees what the assembled index holds. */
  lemma {:induction false} FetchedIsData(fetched: seq<Fetched>, index: Index, p: Query, q: Query, d: DataType)
    requires p == q.(lookback := p.lookback)
    requires forall f :: f in fetched ==> f.slot in index && index[f.slot] == f.entry
    ensures FetchedData(fetched, q, d) == Data(index, p, FetchedSlots(fetched), d)
  {
    if fetched != [] {
      var n := |fetched| - 1;
      var f := fetched[n];
      assert f in fetched;
      forall g | g in fetched[..n] ensures g in fetched {}
      FetchedIsData(fetched[..n], index, p, q, d);
      assert FetchedSlots(fetched)[..n] == FetchedSlots(fetched[..n]);
      ChunkIsLocal(index, map[f.slot := f.entry], p, q, d, f.slot);
    }
  }

  /** Each slot of a descending walk is fetched once, so every copy is in the assembled index. */
  lemma {:induction false} EachFetchedKept(fetched: seq<Fetched>)
    requires NoDuplicates(FetchedSlots(fetched))
    ensures forall f :: f in fetched ==> f.slot in Assembled(fetched) && Assembled(fetched)[f.slot] == f.entry
  {
    if fetched != [] {
      var n := |fetched| - 1;
      assert FetchedSlots(fetched) == FetchedSlots(fetched[..n]) + [fetched[n].slot];
      assert NoDuplicates(FetchedSlots(fetched[..n]));
      EachFetchedKept(fetched[..n]);
      forall f | f in fetched ensures f.slot in Assembled(fetched) && Assembled(fetched)[f.slot] == f.entry {
        if f in fetched[..n] {
          var i :| 0 <= i < n && fetched[i] == f;
          assert FetchedSlots(fetched)[i] == f.slot && FetchedSlots(fetched)[n] == fetched[n].slot;
        } else {
          assert f == fetched[n];
        }
      }
    }
  }

  /** The reader's groups are those of a query on the assembled index, with nothing cut off. */
  lemma SeenIsQuery(algorithm: Algorithm, fetched: seq<Fetched>, q: Query)
    requires StrictlyDescending(FetchedSlots(fetched))
    ensures GroupsSeen(algorithm, fetched, q) == Groups(algorithm, Assembled(fetched), q.(lookback := None))
  {
    var index, p := Assembled(fetched), q.(lookback := None);
    AssembledIs(fetched);
    EachFetchedKept(fetched);
    DescendingUnique(FetchedSlots(fetched), Window(index, None));
    forall d ensures FetchedData(fetched, q, d) == Data(index, p, Window(index, None), d) {
      FetchedIsData(fetched, index, p, q, d);
    }
    SameGroups(algorithm, fetched, q, index, p);
  }

  lemma SameGroups(algorithm: Algorithm, fetched: seq<Fetched>, q: Query, index: Index, p: Query)
    requires p == q.(lookback := p.lookback) && Window(index, p.lookback) == FetchedSlots(fetched)
    requires forall d :: FetchedData(fetched, q, d) == Data(index, p, Window(index, p.lookback), d)
    ensures GroupsSeen(algorithm, fetched, q) == Groups(algorithm, index, p)
  {
    var seen, groups := GroupsSeen(algorithm, fetched, q), Groups(algorithm, index, p);
    forall d ensures (d in seen <==> d in groups) && (d in seen ==> seen[d] == groups[d]) {
      GroupIsData(index, algorithm, p, d);
    }
  }

  /** Every entry a reader can fetch is consistent in itself. */
  lemma AssembledGood(capacity: nat, schedule: seq<Action>, r: ReaderId)
    requires capacity >= 1 && Legal(Init(capacity), schedule) && r in Exec(Init(capacity), schedule).readers
    ensures AllGood(Assembled(Exec(Init(capacity), schedule).readers[r].fetched))
  {
    var state := Exec(Init(capacity), schedule);
    var fetched := state.readers[r].fetched;
    AssembledIs(fetched);
    forall s | s in Assembled(fetched) ensures GoodEntry(Assembled(fetched)[s]) {
      var f :| f in fetched && f.slot == s && f.entry == Assembled(fetched)[s];
      FetchesAreFaithful(capacity, schedule, r, f);
      RunValid(capacity, state.log[..f.at]);
    }
  }

  /**
   Whatever pushes ran between a reader's fetches, its levels are in order, unsafeMax is the
   largest Global fee it fetched whatever the algorithm, accounts and filling, and without filling
   the min levels compare as they do on a state at rest.
   */
  lemma ConcurrentLaws(capacity: nat, schedule: seq<Action>, r: ReaderId, algorithm: Algorithm, q: Query)
    requires capacity >= 1 && Legal(Init(capacity), schedule) && r in Exec(Init(capacity), schedule).readers
    requires StrictlyDescending(FetchedSlots(Exec(Init(capacity), schedule).readers[r].fetched))
    ensures var fetched := Exec(Init(capacity), schedule).readers[r].fetched;
      var e := Levels(GroupsSeen(algorithm, fetched, q));
      && e.min <= e.low <= e.medium <= e.high <= e.veryHigh <= e.unsafeMax
      && IsMaximumOrZero(e.unsafeMax, FetchedData(fetched, q, Global))
      && (!q.includeEmptySlots ==>
            Levels(GroupsSeen(Calculation2, fetched, GlobalOnly(q))).min
              <= Levels(GroupsSeen(Calculation1, fetched, q)).min
              <= Levels(GroupsSeen(Calculation2, fetched, q)).min)
  {
    var fetched := Exec(Init(capacity), schedule).readers[r].fetched;
    AssembledGood(capacity, schedule, r);
    GroupsOrdered(GroupsSeen(algorithm, fetched, q));
    TopSeen(fetched, algorithm, q);
    if !q.includeEmptySlots {
      MinSeen(fetched, q);
    }
  }

  lemma TopSeen(fetched: seq<Fetched>, algorithm: Algorithm, q: Query)
    requires StrictlyDescending(FetchedSlots(fetched)) && AllGood(Assembled(fetched))
    ensures IsMaximumOrZero(Levels(GroupsSeen(algorithm, fetched, q)).unsafeMax, FetchedData(fetched, q, Global))
  {
    var index, p := Assembled(fetched), q.(lookback := None);
    SeenIsQuery(algorithm, fetched, q);
    SeenIsQuery(Calculation1, fetched, q);
    GroupIsData(index, Calculation1, p, Global);
    UnsafeMaxOver(index, algorithm, p);
  }

  lemma MinSeen(fetched: seq<Fetched>, q: Query)
    requires StrictlyDescending(FetchedSlots(fetched)) && !q.includeEmptySlots
    ensures Levels(GroupsSeen(Calculation2, fetched, GlobalOnly(q))).min
         <= Levels(GroupsSeen(Calculation1, fetched, q)).min
         <= Levels(GroupsSeen(Calculation2, fetched, q)).min
  {
    SeenIsQuery(Calculation2, fetched, GlobalOnly(q));
    SeenIsQuery(Calculation1, fetched, q);
    SeenIsQuery(Calculation2, fetched, q);
    MinLevels(Assembled(fetched), q.(lookback := None));
  }

  // ---------------------------------------------------------------- a reader the writer leaves alone

  /** Reader `r` lists and fetches, other readers do what they like, the writer does nothing. */
  predicate Quiet(acts: seq<Action>, r: ReaderId) {
    forall a :: a in acts ==> (a.Open? && a.r != r) || a.ListKey? || a.Fetch?
  }

  /** The keys that `r` lists, and the slots it asks for, in order. */
  function Listed(acts: seq<Action>, r: ReaderId): seq<Slot> {
    if acts == [] then []
    else (if acts[0].ListKey? && acts[0].r == r then [acts[0].k] else []) + Listed(acts[1..], r)
  }

  function Asked(acts: seq<Action>, r: ReaderId): seq<Slot> {
    if acts == [] then []
    else (if acts[0].Fetch? && acts[0].r == r then [acts[0].k] else []) + Asked(acts[1..], r)
  }

  /** What `r` has listed is there, and what it has fetched is as it is now. */
  ghost predicate UpToDate(s: State, r: ReaderId) {
    && r in s.readers
    && (forall k :: k in s.readers[r].keys ==> k in s.index)
    && forall f :: f in s.readers[r].fetched ==> f.slot in s.index && s.index[f.slot] == f.entry
  }

  lemma {:induction false} QuietRun(s: State, acts: seq<Action>, r: ReaderId)
    requires s.capacity >= 1 && UpToDate(s, r) && Legal(s, acts) && Quiet(acts, r)
    ensures var s' := Exec(s, acts);
      && s'.index == s.index && UpToDate(s', r)
      && s'.readers[r].keys == s.readers[r].keys + Listed(acts, r)
      && FetchedSlots(s'.readers[r].fetched) == FetchedSlots(s.readers[r].fetched) + Asked(acts, r)
    decreases |acts|
  {
    if acts != [] {
      var a, s1 := acts[0], Apply(s, acts[0]);
      assert a in acts;
      QuietStep(s, a, r);
      QuietTail(acts, r);
      QuietRun(s1, acts[1..], r);
    }
  }

  lemma QuietTail(acts: seq<Action>, r: ReaderId)
    requires acts != [] && Quiet(acts, r)
    ensures Quiet(acts[1..], r)
  {
    forall b | b in acts[1..] ensures b in acts {}
  }

  lemma QuietStep(s: State, a: Action, r: ReaderId)
    requires s.capacity >= 1 && UpToDate(s, r) && Enabled(s, a) && ((a.Open? && a.r != r) || a.ListKey? || a.Fetch?)
    ensures var s' := Apply(s, a);
      && s'.index == s.index && s'.capacity == s.capacity && UpToDate(s', r)
      && s'.readers[r].keys == s.readers[r].keys + (if a.ListKey? && a.r == r then [a.k] else [])
      && FetchedSlots(s'.readers[r].fetched) == FetchedSlots(s.readers[r].fetched) + (if a.Fetch? && a.r == r then [a.k] else [])
  {
    ReaderActions(s, a);
  }

  /**
   A reader that lists every key, sorts and reverses them, cuts them to the lookback and fetches
   them in that order, with no step of the writer in between, gets the query's answer on that state.
   */
  lemma QuietReaderIsQuery(s: State, r: ReaderId, acts: seq<Action>, algorithm: Algorithm, q: Query)
    requires s.capacity >= 1 && Legal(s, [Open(r)] + acts) && Quiet(acts, r)
    requires Lists(Listed(acts, r), s.index.Keys)
    requires Asked(acts, r) == Reverse(Sort(Listed(acts, r)))[..LookbackSize(q.lookback, |Reverse(Sort(Listed(acts, r)))|)]
    ensures var s' := Exec(s, [Open(r)] + acts);
      && r in s'.readers && s'.index == s.index && s'.readers[r].keys == Listed(acts, r)
      && GroupsSeen(algorithm, s'.readers[r].fetched, q) == Groups(algorithm, s.index, q)
  {
    var s1 := Apply(s, Open(r));
    assert ([Open(r)] + acts)[1..] == acts;
    ReaderActions(s, Open(r));
    QuietRun(s1, acts, r);
    var fetched := Exec(s1, acts).readers[r].fetched;
    SortedReversedListing(Listed(acts, r), s.index.Keys);
    assert FetchedSlots(fetched) == Window(s.index, q.lookback);
    forall d ensures FetchedData(fetched, q, d) == Data(s.index, q, Window(s.index, q.lookback), d) {
      FetchedIsData(fetched, s.index, q, q, d);
    }
    SameGroups(algorithm, fetched, q, s.index, q);
  }

  /** The same between pushes, over a whole run: the answer is that of the atomic tracker after the same log. */
  lemma QuietReaderAtRest(capacity: nat, schedule: seq<Action>, r: ReaderId, acts: seq<Action>, algorithm: Algorithm, q: Query)
    requires capacity >= 1 && Legal(Init(capacity), schedule) && Exec(Init(capacity), schedule).phase.Idle?
    requires var s := Exec(Init(capacity), schedule);
      && s.capacity >= 1 && Legal(s, [Open(r)] + acts) && Quiet(acts, r)
      && Lists(Listed(acts, r), s.index.Keys)
      && Asked(acts, r) == Reverse(Sort(Listed(acts, r)))[..LookbackSize(q.lookback, |Reverse(Sort(Listed(acts, r)))|)]
    ensures var s := Exec(Init(capacity), schedule);
      var s' := Exec(s, [Open(r)] + acts);
      && r in s'.readers
      && GroupsSeen(algorithm, s'.readers[r].fetched, q) == Groups(algorithm, Run(capacity, s.log).index, q)
  {
    IdleIsAtomic(capacity, schedule);
    QuietReaderIsQuery(Exec(Init(capacity), schedule), r, acts, algorithm, q);
  }

  /** Listing every key and then fetching the slots of a walk, one after the other. */
  function ListAll(r: ReaderId, order: seq<Slot>): seq<Action> {
    seq(|order|, i requires 0 <= i < |order| => ListKey(r, order[i]))
  }

  function FetchAll(r: ReaderId, walk: seq<Slot>): seq<Action> {
    seq(|walk|, i requires 0 <= i < |walk| => Fetch(r, walk[i]))
  }

  lemma {:induction false} CanFetch(s: State, r: ReaderId, walk: seq<Slot>)
    requires s.capacity >= 1 && r in s.readers && forall k :: k in walk ==> k in s.readers[r].keys
    ensures var acts := FetchAll(r, walk);
      Legal(s, acts) && Quiet(acts, r) && Listed(acts, r) == [] && Asked(acts, r) == walk
    decreases |walk|
  {
    if walk != [] {
      var acts := FetchAll(r, walk);
      assert acts[0] == Fetch(r, walk[0]) && acts[1..] == FetchAll(r, walk[1..]);
      assert walk[0] in walk;
      ReaderActions(s, acts[0]);
      forall k | k in walk[1..] ensures k in walk {}
      CanFetch(Apply(s, acts[0]), r, walk[1..]);
      assert [walk[0]] + walk[1..] == walk;
    }
  }

  lemma {:induction false} CanList(s: State, r: ReaderId, order: seq<Slot>, walk: seq<Slot>)
    requires s.capacity >= 1 && r in s.readers && forall k :: k in order ==> k in s.index
    requires forall k :: k in walk ==> k in s.readers[r].keys || k in order
    ensures var acts := ListAll(r, order) + FetchAll(r, walk);
      Legal(s, acts) && Quiet(acts, r) && Listed(acts, r) == order && Asked(acts, r) == walk
    decreases |order|
  {
    var acts := ListAll(r, order) + FetchAll(r, walk);
    if order == [] {
      assert acts == FetchAll(r, walk);
      CanFetch(s, r, walk);
    } else {
      assert acts[0] == ListKey(r, order[0]) && acts[1..] == ListAll(r, order[1..]) + FetchAll(r, walk);
      assert order[0] in order;
      ReaderActions(s, acts[0]);
      assert order == [order[0]] + order[1..];
      CanList(Apply(s, acts[0]), r, order[1..], walk);
    }
  }

  /** Such a reader can always run: in every state, whatever order the keys come in. */
  lemma QuietReaderRuns(s: State, r: ReaderId, order: seq<Slot>, lookback: Option<nat>)
    requires s.capacity >= 1 && Lists(order, s.index.Keys)
    ensures var walk := Reverse(Sort(order))[..LookbackSize(lookback, |Reverse(Sort(order))|)];
      var acts := ListAll(r, order) + FetchAll(r, walk);
      Legal(s, [Open(r)] + acts) && Quiet(acts, r) && Listed(acts, r) == order && Asked(acts, r) == walk
  {
    var walk := Reverse(Sort(order))[..LookbackSize(lookback, |Reverse(Sort(order))|)];
    var acts := ListAll(r, order) + FetchAll(r, walk);
    ReaderActions(s, Open(r));
    SortedReversedListing(order, s.index.Keys);
    forall k | k in order ensures k in s.index { assert k in Elements(order); }
    forall k | k in walk ensures k in order {
      assert k in Reverse(Sort(order));
      assert k in Elements(Reverse(Sort(order)));
      assert k in Elements(order);
    }
    CanList(Apply(s, Open(r)), r, order, walk);
    RunOne(s, Open(r), acts);
  }
}
