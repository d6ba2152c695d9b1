/**
 One writer and any number of readers. A push is four steps (window, key check, store, remove);
 a reader lists keys one by one and fetches slots one by one; all of these interleave. The map is
 atomic per key, and the window's `push_pop` is atomic by module `PushPopProtocol`.
 */
module ReadersAndWriter {
  import opened Options
  import opened Sequences
  import opened SlotWindow
  import opened FeeModel
  import opened FeeTracker
  import opened FeeHistory

  type ReaderId = nat

  /** Where the writer is inside a push of `e`. */
  datatype Phase =
    | Idle
    | Windowed(e: Sample, evicted: Option<Slot>)                   // window updated
    | Checked(e: Sample, evicted: Option<Slot>, present: bool)     // key looked up
    | Stored(e: Sample, evicted: Option<Slot>)                     // entry inserted or modified

  /** A slot as a reader got it. `at` is history: the number of whole pushes the copy reflects. */
  datatype Fetched = Fetched(slot: Slot, entry: SlotFees, at: nat)

  /** A reader's keys and fetches; `started` is history: the pushes completed when it began. */
  datatype Reader = Reader(started: nat, keys: seq<Slot>, fetched: seq<Fetched>)

  /** `log` is history: the samples whose push has begun, in order. */
  datatype State = State(
    capacity: nat, queue: seq<Slot>, index: map<Slot, SlotFees>, phase: Phase, log: seq<Sample>, readers: map<ReaderId, Reader>)

  datatype Action =
    | Begin(e: Sample)
    | Check
    | Write
    | Finish
    | Open(r: ReaderId)
    | ListKey(r: ReaderId, k: Slot)
    | Fetch(r: ReaderId, k: Slot)

  function Init(capacity: nat): State {
    State(capacity, [], map[], Idle, [], map[])
  }

  predicate Enabled(s: State, a: Action) {
    match a
    case Begin(_) => s.phase.Idle?
    case Check => s.phase.Windowed?
    case Write => s.phase.Checked? && (s.phase.present ==> s.phase.e.slot in s.index)
    case Finish => s.phase.Stored?
    case Open(r) => true
    case ListKey(r, k) => r in s.readers && k in s.index
    case Fetch(r, k) => r in s.readers && k in s.readers[r].keys
  }

  function Completed(s: State): nat {
    if s.phase.Idle? || s.log == [] then |s.log| else |s.log| - 1
  }

  /** The number of whole pushes after which slot `k` is as it is now. */
  function Moment(s: State, k: Slot): nat {
    if s.phase.Stored? && s.phase.evicted != Some(k) then |s.log| else Completed(s)
  }

  function Apply(s: State, a: Action): State
    requires Enabled(s, a) && s.capacity >= 1
  {
    match a
    case Begin(e) =>
      var admission := Admit(s.capacity, s.queue, e.slot);
      s.(queue := admission.queue, phase := Windowed(e, admission.evicted), log := s.log + [e])
    case Check =>
      s.(phase := Checked(s.phase.e, s.phase.evicted, s.phase.e.slot in s.index))
    case Write =>
      var e := s.phase.e;
      s.(index := s.index[e.slot := if s.phase.present then Updated(s.index[e.slot], e) else Fresh(e)],
         phase := Stored(e, s.phase.evicted))
    case Finish =>
      s.(index := Evict(s.index, s.phase.evicted), phase := Idle)
    case Open(r) => s.(readers := s.readers[r := Reader(Completed(s), [], [])])
    case ListKey(r, k) =>
      var reader := s.readers[r];
      s.(readers := s.readers[r := reader.(keys := reader.keys + [k])])
    case Fetch(r, k) =>
      var reader := s.readers[r];
      if k in s.index
      then s.(readers := s.readers[r := reader.(fetched := reader.fetched + [Fetched(k, s.index[k], Moment(s, k))])])
      else s
  }

  // ---------------------------------------------------------------- the invariant

  /** The log before the push in progress. */
  function Before(s: State): seq<Sample>
    requires s.log != []
  {
    s.log[..|s.log|-1]
  }

  /** The writer's state against the atomic pushes of the log. */
  ghost predicate WriterInv(s: State) {
    && s.capacity >= 1
    && s.queue == Run(s.capacity, s.log).queue
    && (s.phase.Idle? ==> s.index == Run(s.capacity, s.log).index)
    && (!s.phase.Idle? ==>
          && s.log != [] && s.phase.e == s.log[|s.log|-1]
          && var base := Run(s.capacity, Before(s));
          && s.phase.evicted == Admit(s.capacity, base.queue, s.phase.e.slot).evicted
          && s.index == (if s.phase.Stored? then Store(base.index, s.phase.e) else base.index)
          && (s.phase.Checked? ==> (s.phase.present <==> s.phase.e.slot in base.index)))
  }

  /** A copy is the slot exactly as some whole number of pushes left it, none of them before the reader began. */
  ghost predicate Faithful(capacity: nat, log: seq<Sample>, started: nat, f: Fetched)
    requires capacity >= 1
  {
    && started <= f.at <= |log|
    && f.slot in Run(capacity, log[..f.at]).index
    && f.entry == Run(capacity, log[..f.at]).index[f.slot]
  }

  ghost predicate ReadersInv(s: State)
    requires s.capacity >= 1
  {
    forall r :: r in s.readers ==>
      && s.readers[r].started <= Completed(s)
      && forall f :: f in s.readers[r].fetched ==> Faithful(s.capacity, s.log, s.readers[r].started, f)
  }

  ghost predicate Inv(s: State) {
    WriterInv(s) && ReadersInv(s)
  }

  lemma WriterStep(s: State, a: Action)
    requires WriterInv(s) && Enabled(s, a)
    ensures WriterInv(Apply(s, a))
    ensures Completed(s) <= Completed(Apply(s, a))
    ensures s.log <= Apply(s, a).log
  {
    match a {
      case Begin(e) =>
        RunLast(s.capacity, s.log, e);
        assert Before(Apply(s, a)) == s.log;
      case Finish =>
        RunLast(s.capacity, Before(s), s.phase.e);
        assert Before(s) + [s.phase.e] == s.log;
      case _ =>
    }
  }

  /** What a fetch would get now is the slot as its moment left it. */
  lemma FetchNow(s: State, k: Slot)
    requires WriterInv(s) && k in s.index
    ensures Completed(s) <= Moment(s, k) <= |s.log|
    ensures k in Run(s.capacity, s.log[..Moment(s, k)]).index
    ensures s.index[k] == Run(s.capacity, s.log[..Moment(s, k)]).index[k]
  {
    assert s.log[..|s.log|] == s.log;
    if s.phase.Stored? {
      RunLast(s.capacity, Before(s), s.phase.e);
      assert Before(s) + [s.phase.e] == s.log;
      RunValid(s.capacity, Before(s));
      var base := Run(s.capacity, Before(s));
      AdmitKeepsWindow(s.capacity, base.queue, s.phase.e.slot);
    }
  }

  lemma FaithfulExtends(capacity: nat, log: seq<Sample>, longer: seq<Sample>, started: nat, f: Fetched)
    requires capacity >= 1 && log <= longer && Faithful(capacity, log, started, f)
    ensures Faithful(capacity, longer, started, f)
  {
    assert longer[..f.at] == log[..f.at];
  }

  lemma ReadersStep(s: State, a: Action)
    requires Inv(s) && Enabled(s, a)
    ensures ReadersInv(Apply(s, a))
  {
    var s' := Apply(s, a);
    WriterStep(s, a);
    forall r | r in s'.readers
      ensures s'.readers[r].started <= Completed(s')
      ensures forall f :: f in s'.readers[r].fetched ==> Faithful(s'.capacity, s'.log, s'.readers[r].started, f)
    {
      forall f | f in s'.readers[r].fetched ensures Faithful(s'.capacity, s'.log, s'.readers[r].started, f) {
        if r in s.readers && s'.readers[r].started == s.readers[r].started && f in s.readers[r].fetched {
          FaithfulExtends(s.capacity, s.log, s'.log, s.readers[r].started, f);
        } else {
          assert a.Fetch? && a.r == r && f == Fetched(a.k, s.index[a.k], Moment(s, a.k));
          FetchNow(s, a.k);
        }
      }
    }
  }

  /**
   What the readers' steps do: opening starts afresh and notes the pushes completed so far, listing
   appends the key, and a fetch appends exactly the entry the slot has now, or nothing when the slot
   is not there. No reader touches the writer's state or another reader.
   */
  lemma ReaderActions(s: State, a: Action)
    requires s.capacity >= 1 && Enabled(s, a) && (a.Open? || a.ListKey? || a.Fetch?)
    ensures var s' := Apply(s, a);
      && s'.capacity == s.capacity && s'.queue == s.queue && s'.index == s.index && s'.phase == s.phase && s'.log == s.log
      && a.r in s'.readers && s'.readers.Keys == s.readers.Keys + {a.r}
      && (forall r :: r in s.readers && r != a.r ==> s'.readers[r] == s.readers[r])
      && match a
         case Open(r) =>
           && s'.readers[r].keys == [] && s'.readers[r].fetched == []
           && (s.phase.Idle? ==> s'.readers[r].started == |s.log|)
           && (!s.phase.Idle? && s.log != [] ==> s'.readers[r].started == |s.log| - 1)
         case ListKey(r, k) =>
           && k in s.index && s'.readers[r].started == s.readers[r].started
           && s'.readers[r].keys == s.readers[r].keys + [k] && s'.readers[r].fetched == s.readers[r].fetched
         case Fetch(r, k) =>
           && s'.readers[r].started == s.readers[r].started && s'.readers[r].keys == s.readers[r].keys
           && (k !in s.index ==> s'.readers[r].fetched == s.readers[r].fetched)
           && (k in s.index ==>
                && |s'.readers[r].fetched| == |s.readers[r].fetched| + 1
                && s'.readers[r].fetched[..|s.readers[r].fetched|] == s.readers[r].fetched
                && s'.readers[r].fetched[|s.readers[r].fetched|].slot == k
                && s'.readers[r].fetched[|s.readers[r].fetched|].entry == s.index[k])
         case _ => false
  {
    if a.Fetch? && a.k in s.index {
      assert s.readers[a.r].fetched + [Fetched(a.k, s.index[a.k], Moment(s, a.k))] == Apply(s, a).readers[a.r].fetched;
    }
  }

  // ---------------------------------------------------------------- whole runs

  predicate Legal(s: State, schedule: seq<Action>)
    requires s.capacity >= 1
    decreases |schedule|
  {
    schedule == [] || (Enabled(s, schedule[0]) && Legal(Apply(s, schedule[0]), schedule[1..]))
  }

  function Exec(s: State, schedule: seq<Action>): State
    requires s.capacity >= 1 && Legal(s, schedule)
    decreases |schedule|
  {
    if schedule == [] then s else Exec(Apply(s, schedule[0]), schedule[1..])
  }

  lemma {:induction false} RunsKeepInv(s: State, schedule: seq<Action>)
    requires Inv(s) && Legal(s, schedule)
    ensures Inv(Exec(s, schedule)) && Exec(s, schedule).capacity == s.capacity
    decreases |schedule|
  {
    if schedule != [] {
      WriterStep(s, schedule[0]);
      ReadersStep(s, schedule[0]);
      RunsKeepInv(Apply(s, schedule[0]), schedule[1..]);
    }
  }

  /** From rest the writer can always run a push to its end, and ends in the atomic push. */
  lemma PushCompletes(s: State, e: Sample)
    requires WriterInv(s) && s.phase.Idle?
    ensures var schedule := [Begin(e), Check, Write, Finish];
      && Legal(s, schedule)
      && var s' := Exec(s, schedule);
         && s'.phase.Idle? && s'.log == s.log + [e] && s'.readers == s.readers
         && Tracker(s'.capacity, s'.queue, s'.index) == Push(Tracker(s.capacity, s.queue, s.index), e)
  {
    var s1 := Apply(s, Begin(e));
    var s2 := Apply(s1, Check);
    var s3 := Apply(s2, Write);
    var s4 := Apply(s3, Finish);
    var none: seq<Action> := [];
    RunOne(s3, Finish, none);
    RunOne(s2, Write, [Finish]);
    RunOne(s1, Check, [Write, Finish]);
    RunOne(s, Begin(e), [Check, Write, Finish]);
    assert [Begin(e)] + [Check, Write, Finish] == [Begin(e), Check, Write, Finish];
    assert [Check] + [Write, Finish] == [Check, Write, Finish] && [Write] + [Finish] == [Write, Finish] && [Finish] + none == [Finish];
  }

  lemma RunOne(s: State, a: Action, rest: seq<Action>)
    requires s.capacity >= 1 && Enabled(s, a) && Legal(Apply(s, a), rest)
    ensures Legal(s, [a] + rest) && Exec(s, [a] + rest) == Exec(Apply(s, a), rest)
  {
    assert ([a] + rest)[1..] == rest;
  }

  /** Whenever the writer is idle the state is the atomic tracker's after the same log. */
  lemma IdleIsAtomic(capacity: nat, schedule: seq<Action>)
    requires capacity >= 1 && Legal(Init(capacity), schedule)
    ensures var s := Exec(Init(capacity), schedule);
      s.phase.Idle? ==> Tracker(s.capacity, s.queue, s.index) == Run(capacity, s.log)
  {
    RunsKeepInv(Init(capacity), schedule);
  }

  function InFlight(p: Phase): set<Slot> {
    if p.Idle? || p.evicted == None then {} else {p.evicted.value}
  }

  /** Keys before and after the store of one push, against the window the push leaves. */
  lemma PushKeys(t: Tracker, e: Sample)
    requires ValidWindow(t.capacity, t.queue) && t.index.Keys == Elements(t.queue)
    ensures var r := Admit(t.capacity, t.queue, e.slot);
      var window := Elements(r.queue) + (if r.evicted.Some? then {r.evicted.value} else {});
      && t.index.Keys + {e.slot} == window
      && Store(t.index, e).Keys == window
      && |window| <= t.capacity + 1
  {
    WindowAndEvicted(t.capacity, t.queue, e.slot);
    assert Store(t.index, e).Keys == t.index.Keys + {e.slot};
  }

  lemma WindowAndEvicted(capacity: nat, queue: seq<Slot>, slot: Slot)
    requires ValidWindow(capacity, queue)
    ensures var r := Admit(capacity, queue, slot);
      var window := Elements(r.queue) + (if r.evicted.Some? then {r.evicted.value} else {});
      Elements(queue) + {slot} == window && |window| <= capacity + 1
  {
    AdmitKeepsWindow(capacity, queue, slot);
    var r := Admit(capacity, queue, slot);
    ListingSize(r.queue);
    if r.evicted.Some? {
      assert queue[0] in Elements(queue);
    }
  }

  lemma QueueOfLast(capacity: nat, log: seq<Sample>)
    requires capacity >= 1 && log != []
    ensures var n := |log| - 1;
      Run(capacity, log).queue == Admit(capacity, Run(capacity, log[..n]).queue, log[n].slot).queue
  {
  }

  lemma WriterKeys(s: State)
    requires WriterInv(s) && !s.phase.Idle?
    ensures var keys, window := s.index.Keys, Elements(s.queue) + InFlight(s.phase);
      && (s.phase.Stored? ==> keys == window)
      && (!s.phase.Stored? ==> keys + {s.phase.e.slot} == window)
      && |window| <= s.capacity + 1
  {
    var base := Run(s.capacity, Before(s));
    RunKeys(s.capacity, Before(s));
    PushKeys(base, s.phase.e);
    QueueOfLast(s.capacity, s.log);
  }

  /**
   In every reachable state the index keys are the window, short of at most the slot being
   admitted and beyond it by at most the slot being evicted; an entry to be modified is there.
   */
  lemma KeysFollowWindow(capacity: nat, schedule: seq<Action>)
    requires capacity >= 1 && Legal(Init(capacity), schedule)
    ensures var s := Exec(Init(capacity), schedule);
      var keys, window := s.index.Keys, Elements(s.queue);
      && (s.phase.Idle? ==> keys == window)
      && (s.phase.Stored? ==> keys == window + InFlight(s.phase))
      && (s.phase.Windowed? || s.phase.Checked? ==> keys + {s.phase.e.slot} == window + InFlight(s.phase))
      && |keys| <= capacity + 1
      && (s.phase.Checked? ==> Enabled(s, Write))
  {
    RunsKeepInv(Init(capacity), schedule);
    var s := Exec(Init(capacity), schedule);
    if s.phase.Idle? {
      RunValid(s.capacity, s.log);
      ListingSize(s.queue);
    } else {
      WriterKeys(s);
      SubsetSize(s.index.Keys, Elements(s.queue) + InFlight(s.phase));
    }
  }

  /** Whatever a reader fetched, the slot stood exactly so after some whole number of pushes since the reader began. */
  lemma FetchesAreFaithful(capacity: nat, schedule: seq<Action>, r: ReaderId, f: Fetched)
    requires capacity >= 1 && Legal(Init(capacity), schedule)
    requires r in Exec(Init(capacity), schedule).readers && f in Exec(Init(capacity), schedule).readers[r].fetched
    ensures var s := Exec(Init(capacity), schedule); Faithful(capacity, s.log, s.readers[r].started, f)
  {
    RunsKeepInv(Init(capacity), schedule);
  }

  lemma {:induction false} SinceWasPushed(log: seq<Sample>, from: nat, slot: Slot, part: ListName, isVote: bool, x: Fee)
    requires x in FeesSince(log, from, slot, part, isVote)
    ensures exists e :: e in log && e.slot == slot && e.fee == x && e.isVote == isVote && Enters(e, part)
  {
    var n := |log| - 1;
    var e := log[n];
    if x in FeesSince(log[..n], from, slot, part, isVote) {
      SinceWasPushed(log[..n], from, slot, part, isVote, x);
      var d :| d in log[..n] && d.slot == slot && d.fee == x && d.isVote == isVote && Enters(d, part);
      assert d in log;
    } else {
      RepeatMember([e.fee], Times(e, n == from, part), x);
      TimesPositive(e, n == from, part);
      assert e in log;
    }
  }

  /**
   Every fee a reader collects, from a slot's own list, an account's or a version's, was really
   pushed for that slot, with that kind, naming that account or being of that version.
   */
  lemma FetchedFeesWerePushed(capacity: nat, schedule: seq<Action>, r: ReaderId, f: Fetched, part: ListName, isVote: bool, x: Fee)
    requires capacity >= 1 && Legal(Init(capacity), schedule)
    requires r in Exec(Init(capacity), schedule).readers && f in Exec(Init(capacity), schedule).readers[r].fetched
    requires x in ListOf(f.entry, part).Kind(isVote)
    ensures exists e :: e in Exec(Init(capacity), schedule).log && e.slot == f.slot && e.fee == x && e.isVote == isVote && Enters(e, part)
  {
    FetchesAreFaithful(capacity, schedule, r, f);
    var log := Exec(Init(capacity), schedule).log;
    EntriesAreLog(capacity, log[..f.at], f.slot, part, isVote);
    SinceWasPushed(log[..f.at], LatestAdmission(capacity, log[..f.at], f.slot).value, f.slot, part, isVote, x);
    var e :| e in log[..f.at] && e.slot == f.slot && e.fee == x && e.isVote == isVote && Enters(e, part);
    assert e in log;
  }
}
