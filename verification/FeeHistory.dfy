/**
 The tracker against the raw log of samples: which slots are live, what every list of a live
 slot holds, and when the window is the highest slots ever seen.
 */
module FeeHistory {
  import opened Options
  import opened Sequences
  import opened SlotWindow
  import opened FeeModel
  import opened FeeTracker
  import opened FeeCalculation
  import opened FeeQueries

  function LastOf(slots: seq<Slot>, n: nat): seq<Slot> {
    if |slots| <= n then slots else slots[|slots|-n..]
  }

  /** The slots admitted by a log, in order: a sample admits its slot when it is not among the last `capacity` admitted. */
  function Admitted(capacity: nat, log: seq<Sample>): seq<Slot> {
    if log == [] then []
    else
      var n := |log| - 1;
      var before := Admitted(capacity, log[..n]);
      if log[n].slot in LastOf(before, capacity) then before else before + [log[n].slot]
  }

  /** The position of the latest sample that admitted `slot`. */
  function LatestAdmission(capacity: nat, log: seq<Sample>, slot: Slot): Option<nat> {
    if log == [] then None
    else
      var n := |log| - 1;
      if log[n].slot == slot && slot !in LastOf(Admitted(capacity, log[..n]), capacity) then Some(n)
      else LatestAdmission(capacity, log[..n], slot)
  }

  lemma {:induction false} QueueIsLastAdmitted(capacity: nat, log: seq<Sample>)
    requires capacity >= 1
    ensures Run(capacity, log).queue == LastOf(Admitted(capacity, log), capacity)
  {
    if log != [] {
      var n := |log| - 1;
      QueueIsLastAdmitted(capacity, log[..n]);
      assert Run(capacity, log).queue == Admit(capacity, Run(capacity, log[..n]).queue, log[n].slot).queue;
      if log[n].slot !in LastOf(Admitted(capacity, log[..n]), capacity) {
        LastOfOneMore(capacity, Admitted(capacity, log[..n]), log[n].slot);
      }
    }
  }

  /** The live slots are those of the last min(capacity, admissions) admissions, oldest first. */
  lemma LiveAreLastAdmitted(capacity: nat, log: seq<Sample>)
    requires capacity >= 1
    ensures Run(capacity, log).queue == LastOf(Admitted(capacity, log), capacity)
    ensures Run(capacity, log).index.Keys == Elements(LastOf(Admitted(capacity, log), capacity))
  {
    QueueIsLastAdmitted(capacity, log);
    RunValid(capacity, log);
  }

  lemma LastOfOneMore(capacity: nat, before: seq<Slot>, slot: Slot)
    requires capacity >= 1 && slot !in LastOf(before, capacity)
    ensures Admit(capacity, LastOf(before, capacity), slot).queue == LastOf(before + [slot], capacity)
  {
  }

  // ---------------------------------------------------------------- the lists of a live slot

  /** Which of a slot's lists: all its fees, one account's, or one version's. */
  datatype ListName = Whole | OfAccount(a: Pubkey) | OfVersion(v: Version)

  function ListOf(s: SlotFees, part: ListName): Fees {
    match part
    case Whole => s.fees
    case OfAccount(a) => s.Account(a)
    case OfVersion(v) => s.OfVersion(v)
  }

  /** How often one sample enters a list: an account once at the admission, later once per occurrence. */
  function Times(e: Sample, admits: bool, part: ListName): nat {
    match part
    case Whole => 1
    case OfAccount(a) => if admits then (if a in e.accounts then 1 else 0) else Count(e.accounts, a)
    case OfVersion(v) => if e.version == v then 1 else 0
  }

  /** The fees of one kind pushed to a slot from position `from` on, in order. */
  function FeesSince(log: seq<Sample>, from: nat, slot: Slot, part: ListName, isVote: bool): seq<Fee> {
    if |log| <= from then []
    else
      var n := |log| - 1;
      var e := log[n];
      FeesSince(log[..n], from, slot, part, isVote)
        + (if e.slot == slot && e.isVote == isVote then Repeat([e.fee], Times(e, n == from, part)) else [])
  }

  lemma FreshList(e: Sample, part: ListName, isVote: bool)
    ensures ListOf(Fresh(e), part).Kind(isVote) == if e.isVote == isVote then Repeat([e.fee], Times(e, true, part)) else []
  {
    assert Repeat([e.fee], 1) == Repeat([e.fee], 0) + [e.fee] == [e.fee];
    FreshAccountsAre(e.accounts, e.fee, e.isVote);
  }

  lemma UpdatedList(s: SlotFees, e: Sample, part: ListName, isVote: bool)
    ensures ListOf(Updated(s, e), part).Kind(isVote)
         == ListOf(s, part).Kind(isVote) + (if e.isVote == isVote then Repeat([e.fee], Times(e, false, part)) else [])
  {
    assert Repeat([e.fee], 1) == Repeat([e.fee], 0) + [e.fee] == [e.fee];
    match part {
      case Whole =>
      case OfAccount(a) => AddAccountsAre(s.accounts, e.accounts, e.fee, e.isVote, a);
      case OfVersion(v) => AddToIs(s.versions, e.version, e.fee, e.isVote);
    }
  }

  /**
   Being the first of its slot makes a difference to an account exactly when the sample names it
   more than once: a fresh entry records the fee once, an update appends it once per occurrence.
   */
  lemma AdmissionCountsRepeatsOnce(s: SlotFees, e: Sample, a: Pubkey)
    ensures Fresh(e).Account(a).Kind(e.isVote) == if a in e.accounts then [e.fee] else []
    ensures Updated(s, e).Account(a).Kind(e.isVote) == s.Account(a).Kind(e.isVote) + Repeat([e.fee], Count(e.accounts, a))
    ensures Updated(s, e).Account(a).Kind(e.isVote) == s.Account(a).Kind(e.isVote) + Fresh(e).Account(a).Kind(e.isVote)
        <==> Count(e.accounts, a) <= 1
  {
    FreshList(e, OfAccount(a), e.isVote);
    UpdatedList(s, e, OfAccount(a), e.isVote);
    CountPositive(e.accounts, a);
    RepeatLength(e.fee, Count(e.accounts, a));
    RepeatLength(e.fee, 1);
    assert Repeat([e.fee], 1) == Repeat([e.fee], 0) + [e.fee] == [e.fee];
  }

  lemma {:induction false} RepeatLength(fee: Fee, n: nat)
    ensures |Repeat([fee], n)| == n
  {
    if n > 0 {
      RepeatLength(fee, n - 1);
    }
  }

  /**
   The same sample of an account named twice, recorded once when it opens its slot and twice when
   a sample of other accounts opened the slot before it.
   */
  lemma OneFeeAgainstTwo(capacity: nat, alone: seq<Sample>, after: seq<Sample>, a: Pubkey)
    requires capacity >= 1 && |alone| == 1 && |after| == 2 && after[1] == alone[0]
    requires alone[0].accounts == [a, a] && after[0].slot == alone[0].slot && a !in after[0].accounts
    ensures var e := alone[0];
      && e.slot in Run(capacity, alone).index && e.slot in Run(capacity, after).index
      && Run(capacity, alone).index[e.slot].Account(a).Kind(e.isVote) == [e.fee]
      && Run(capacity, after).index[e.slot].Account(a).Kind(e.isVote) == [e.fee, e.fee]
  {
    RecordedFirst(capacity, alone, alone[0], a);
    RecordedSecond(capacity, after, after[0], alone[0], a);
    TwiceNamed(a, alone[0].fee);
  }

  lemma RecordedFirst(capacity: nat, log: seq<Sample>, e: Sample, a: Pubkey)
    requires capacity >= 1 && |log| == 1 && log[0] == e && a in e.accounts
    ensures e.slot in Run(capacity, log).index && Run(capacity, log).index[e.slot].Account(a).Kind(e.isVote) == [e.fee]
  {
    FirstRun(capacity, log, e);
    AdmissionCountsRepeatsOnce(Fresh(e), e, a);
  }

  lemma RecordedSecond(capacity: nat, log: seq<Sample>, first: Sample, e: Sample, a: Pubkey)
    requires capacity >= 1 && |log| == 2 && log[0] == first && log[1] == e && first.slot == e.slot && a !in first.accounts
    ensures e.slot in Run(capacity, log).index
    ensures Run(capacity, log).index[e.slot].Account(a).Kind(e.isVote) == Repeat([e.fee], Count(e.accounts, a))
  {
    assert log == log[..1] + [e];
    FirstRun(capacity, log[..1], first);
    RunLast(capacity, log[..1], e);
    PushKeepsValid(Run(capacity, log[..1]), e);
    AdmissionCountsRepeatsOnce(Fresh(first), e, a);
    NotNamed(first, a);
  }

  lemma NotNamed(e: Sample, a: Pubkey)
    requires a !in e.accounts
    ensures Fresh(e).Account(a) == NoFees
  {
    FreshAccountsAre(e.accounts, e.fee, e.isVote);
  }

  lemma FirstRun(capacity: nat, log: seq<Sample>, e: Sample)
    requires capacity >= 1 && |log| == 1 && log[0] == e
    ensures Run(capacity, log).queue == [e.slot] && Run(capacity, log).index == map[e.slot := Fresh(e)] && Valid(Run(capacity, log))
  {
    assert log == [] + [e];
    RunLast(capacity, [], e);
    RunValid(capacity, log);
    assert Run(capacity, []) == Empty(capacity);
  }

  lemma TwiceNamed(a: Pubkey, fee: Fee)
    ensures Count([a, a], a) == 2 && Repeat([fee], 2) == [fee, fee]
  {
    assert [a, a][..1] == [a] && [a][..0] == [];
    assert Count([a], a) == Count([a][..0], a) + 1;
    assert Repeat([fee], 1) == Repeat([fee], 0) + [fee] == [fee];
  }

  /** Every list of a live slot is, in order, what the log pushed to it since its latest admission. */
  lemma {:induction false} EntriesAreLog(capacity: nat, log: seq<Sample>, slot: Slot, part: ListName, isVote: bool)
    requires capacity >= 1 && slot in Run(capacity, log).index
    ensures var admission := LatestAdmission(capacity, log, slot);
      && admission.Some? && admission.value < |log| && log[admission.value].slot == slot
      && ListOf(Run(capacity, log).index[slot], part).Kind(isVote) == FeesSince(log, admission.value, slot, part, isVote)
  {
    EntryStep(capacity, log, slot);
    var n := |log| - 1;
    var before, e := Run(capacity, log[..n]), log[n];
    if e.slot != slot || slot in before.queue {
      EntriesAreLog(capacity, log[..n], slot, part, isVote);
      if e.slot == slot {
        UpdatedList(before.index[slot], e, part, isVote);
      }
    } else {
      FreshList(e, part, isVote);
      assert FeesSince(log[..n], n, slot, part, isVote) == [];
    }
  }

  /** What the last sample of a log did to the entry of a slot that is live after it. */
  lemma EntryStep(capacity: nat, log: seq<Sample>, slot: Slot)
    requires capacity >= 1 && slot in Run(capacity, log).index
    ensures log != []
    ensures var n := |log| - 1;
      var before, after, e := Run(capacity, log[..n]), Run(capacity, log).index[slot], log[n];
      && (slot in before.queue <==> slot in LastOf(Admitted(capacity, log[..n]), capacity))
      && (slot in before.queue <==> slot in before.index)
      && (slot in before.queue || e.slot == slot)
      && after == if e.slot != slot then before.index[slot] else if slot in before.queue then Updated(before.index[slot], e) else Fresh(e)
  {
    var n := |log| - 1;
    RunValid(capacity, log[..n]);
    PushKeepsValid(Run(capacity, log[..n]), log[n]);
    QueueIsLastAdmitted(capacity, log[..n]);
  }

  /** Whether a sample enters one of its slot's lists. */
  predicate Enters(e: Sample, part: ListName) {
    match part
    case Whole => true
    case OfAccount(a) => a in e.accounts
    case OfVersion(v) => e.version == v
  }

  lemma TimesPositive(e: Sample, admits: bool, part: ListName)
    ensures Times(e, admits, part) > 0 <==> Enters(e, part)
  {
    if part.OfAccount? {
      CountPositive(e.accounts, part.a);
    }
  }

  /** `fees` are, in order, those of the samples at positions `at`: every sample of the slot and kind, from `from` on, that enters the list. */
  ghost predicate FeesAt(log: seq<Sample>, from: nat, slot: Slot, part: ListName, isVote: bool, fees: seq<Fee>, at: seq<nat>) {
    && |at| == |fees| && StrictlyAscending(at)
    && (forall i: nat :: i in at <==> from <= i < |log| && log[i].slot == slot && log[i].isVote == isVote && Enters(log[i], part))
    && forall j :: 0 <= j < |fees| ==> at[j] < |log| && fees[j] == log[at[j]].fee
  }

  /** One fee per sample, in order, whenever no sample names the account twice. */
  lemma {:induction false} FeesSinceAre(log: seq<Sample>, from: nat, slot: Slot, part: ListName, isVote: bool) returns (at: seq<nat>)
    requires part.OfAccount? ==> forall e :: e in log ==> Count(e.accounts, part.a) <= 1
    ensures FeesAt(log, from, slot, part, isVote, FeesSince(log, from, slot, part, isVote), at)
  {
    if |log| <= from {
      at := [];
    } else {
      var n := |log| - 1;
      forall e | e in log[..n] ensures e in log {}
      var front := FeesSinceAre(log[..n], from, slot, part, isVote);
      assert log[n] in log;
      FeesSinceMore(log, from, slot, part, isVote);
      at := FeesExtended(log[..n], from, slot, part, isVote, FeesSince(log[..n], from, slot, part, isVote), front, log[n]);
      assert log == log[..n] + [log[n]];
    }
  }

  lemma FeesExtended(log: seq<Sample>, from: nat, slot: Slot, part: ListName, isVote: bool, fees: seq<Fee>, front: seq<nat>, e: Sample)
    returns (at: seq<nat>)
    requires from <= |log| && FeesAt(log, from, slot, part, isVote, fees, front)
    ensures FeesAt(log + [e], from, slot, part, isVote,
                   fees + if e.slot == slot && e.isVote == isVote && Enters(e, part) then [e.fee] else [], at)
  {
    if e.slot == slot && e.isVote == isVote && Enters(e, part) {
      at := front + [|log|];
      FeeAdded(log, from, slot, part, isVote, fees, front, e);
    } else {
      at := front;
      assert fees + [] == fees;
      FeeSkipped(log, from, slot, part, isVote, fees, front, e);
    }
  }

  lemma FeesSinceMore(log: seq<Sample>, from: nat, slot: Slot, part: ListName, isVote: bool)
    requires |log| > from
    requires part.OfAccount? ==> Count(log[|log|-1].accounts, part.a) <= 1
    ensures var n := |log| - 1;
      FeesSince(log, from, slot, part, isVote) == FeesSince(log[..n], from, slot, part, isVote)
        + if log[n].slot == slot && log[n].isVote == isVote && Enters(log[n], part) then [log[n].fee] else []
  {
    var n := |log| - 1;
    var e := log[n];
    OneOrNone(e, n == from, part);
    FeesSinceLast(log, from, slot, part, isVote);
  }

  lemma FeesSinceLast(log: seq<Sample>, from: nat, slot: Slot, part: ListName, isVote: bool)
    requires |log| > from
    ensures var n := |log| - 1;
      FeesSince(log, from, slot, part, isVote) == FeesSince(log[..n], from, slot, part, isVote)
        + if log[n].slot == slot && log[n].isVote == isVote then Repeat([log[n].fee], Times(log[n], n == from, part)) else []
  {
  }

  lemma OneOrNone(e: Sample, admits: bool, part: ListName)
    requires part.OfAccount? ==> Count(e.accounts, part.a) <= 1
    ensures Repeat([e.fee], Times(e, admits, part)) == if Enters(e, part) then [e.fee] else []
  {
    TimesPositive(e, admits, part);
    assert Repeat([e.fee], 1) == Repeat([e.fee], 0) + [e.fee] == [e.fee];
  }

  lemma FeeAdded(log: seq<Sample>, from: nat, slot: Slot, part: ListName, isVote: bool, fees: seq<Fee>, at: seq<nat>, e: Sample)
    requires from <= |log| && FeesAt(log, from, slot, part, isVote, fees, at)
    requires e.slot == slot && e.isVote == isVote && Enters(e, part)
    ensures FeesAt(log + [e], from, slot, part, isVote, fees + [e.fee], at + [|log|])
  {
    AscendingOneMore(at, |log|);
  }

  lemma FeeSkipped(log: seq<Sample>, from: nat, slot: Slot, part: ListName, isVote: bool, fees: seq<Fee>, at: seq<nat>, e: Sample)
    requires FeesAt(log, from, slot, part, isVote, fees, at)
    requires !(e.slot == slot && e.isVote == isVote && Enters(e, part))
    ensures FeesAt(log + [e], from, slot, part, isVote, fees, at)
  {
  }

  ghost predicate LiveAt(capacity: nat, log: seq<Sample>, j: nat, slot: Slot)
    requires capacity >= 1 && j <= |log|
  {
    slot in Run(capacity, log[..j]).index
  }

  /** The latest admission of a live slot: it was not live then, and has been ever since. */
  lemma {:induction false} LatestAdmissionIs(capacity: nat, log: seq<Sample>, slot: Slot)
    requires capacity >= 1 && slot in Run(capacity, log).index
    ensures var admission := LatestAdmission(capacity, log, slot);
      && admission.Some? && admission.value < |log| && log[admission.value].slot == slot
      && !LiveAt(capacity, log, admission.value, slot)
      && forall j :: admission.value < j <= |log| ==> LiveAt(capacity, log, j, slot)
  {
    EntryStep(capacity, log, slot);
    var n := |log| - 1;
    LiveNow(capacity, log, slot);
    if !(log[n].slot == slot && slot !in LastOf(Admitted(capacity, log[..n]), capacity)) {
      LatestAdmissionIs(capacity, log[..n], slot);
      LiveBefore(capacity, log, slot, LatestAdmission(capacity, log[..n], slot).value);
    }
  }

  lemma LiveNow(capacity: nat, log: seq<Sample>, slot: Slot)
    requires capacity >= 1
    ensures LiveAt(capacity, log, |log|, slot) <==> slot in Run(capacity, log).index
  {
    assert log[..|log|] == log;
  }

  lemma LiveBefore(capacity: nat, log: seq<Sample>, slot: Slot, m: nat)
    requires capacity >= 1 && m < |log| - 1
    ensures LiveAt(capacity, log[..|log|-1], m, slot) <==> LiveAt(capacity, log, m, slot)
    ensures forall j :: m < j <= |log| - 1 ==> (LiveAt(capacity, log[..|log|-1], j, slot) <==> LiveAt(capacity, log, j, slot))
  {
    forall j | m <= j <= |log| - 1 ensures LiveAt(capacity, log[..|log|-1], j, slot) <==> LiveAt(capacity, log, j, slot) {
      assert log[..|log|-1][..j] == log[..j];
    }
  }

  /** Some sample of the slot, from `from` on, names the account. */
  ghost predicate Named(log: seq<Sample>, from: nat, slot: Slot, a: Pubkey) {
    exists i: nat :: from <= i < |log| && log[i].slot == slot && a in log[i].accounts
  }

  lemma NamedOneMore(log: seq<Sample>, from: nat, slot: Slot, a: Pubkey)
    requires log != []
    ensures var n := |log| - 1;
      Named(log, from, slot, a) <==> Named(log[..n], from, slot, a) || (from <= n && log[n].slot == slot && a in log[n].accounts)
  {
    var n := |log| - 1;
    if i: nat :| from <= i < n && log[..n][i].slot == slot && a in log[..n][i].accounts {
      assert log[i] == log[..n][i];
    }
    if i: nat :| from <= i < |log| && log[i].slot == slot && a in log[i].accounts {
      assert i < n ==> log[i] == log[..n][i];
    }
  }

  /** A live slot has an entry for exactly the accounts named since its latest admission. */
  lemma {:induction false} EntryIfNamed(capacity: nat, log: seq<Sample>, slot: Slot, a: Pubkey)
    requires capacity >= 1 && slot in Run(capacity, log).index
    ensures LatestAdmission(capacity, log, slot).Some?
    ensures a in Run(capacity, log).index[slot].accounts <==> Named(log, LatestAdmission(capacity, log, slot).value, slot, a)
  {
    EntryStep(capacity, log, slot);
    EntriesAreLog(capacity, log, slot, Whole, true);
    var n := |log| - 1;
    var before, e := Run(capacity, log[..n]), log[n];
    NamedOneMore(log, LatestAdmission(capacity, log, slot).value, slot, a);
    if e.slot != slot || slot in before.queue {
      EntryIfNamed(capacity, log[..n], slot, a);
      if e.slot == slot {
        AddAccountsKeys(before.index[slot].accounts, e.accounts, e.fee, e.isVote);
      }
    } else {
      FreshAccountsAre(e.accounts, e.fee, e.isVote);
      assert !Named(log[..n], n, slot, a);
    }
  }

  // ---------------------------------------------------------------- the highest slots

  function SlotsOf(log: seq<Sample>): set<Slot> {
    set e | e in log :: e.slot
  }

  /** `live` is the `capacity` highest of `seen`, or all of it. */
  ghost predicate AreHighest(live: set<Slot>, seen: set<Slot>, capacity: nat) {
    && live <= seen
    && (|live| == capacity || live == seen)
    && |live| <= capacity
    && forall s, u :: s in live && u in seen && u !in live ==> u < s
  }

  /** A push that evicts must evict the lowest slot, and for a higher one. */
  predicate Orderly(capacity: nat, queue: seq<Slot>, slot: Slot) {
    slot in queue || |queue| < capacity || (queue != [] && queue[0] < slot && forall s :: s in queue ==> queue[0] <= s)
  }

  /** One push keeps the window on the highest slots exactly when it is orderly. */
  lemma OrderlyKeepsHighest(capacity: nat, queue: seq<Slot>, seen: set<Slot>, slot: Slot)
    requires ValidWindow(capacity, queue) && AreHighest(Elements(queue), seen, capacity)
    ensures AreHighest(Elements(Admit(capacity, queue, slot).queue), seen + {slot}, capacity) <==> Orderly(capacity, queue, slot)
    ensures Orderly(capacity, queue, slot) && slot !in queue ==> slot !in seen
  {
    if slot in queue {
      assert slot in Elements(queue);
      assert seen + {slot} == seen;
    } else {
      AdmitElements(capacity, queue, slot);
      LowestFirst(queue);
      var live := Elements(queue);
      if |queue| < capacity {
        GrowingKeepsHighest(live, seen, slot, capacity);
      } else {
        EvictingKeepsHighest(live, Elements(Admit(capacity, queue, slot).queue), seen, queue[0], slot, capacity);
      }
    }
  }

  lemma AdmitElements(capacity: nat, queue: seq<Slot>, slot: Slot)
    requires ValidWindow(capacity, queue) && slot !in queue
    ensures |Elements(queue)| == |queue| && slot !in Elements(queue)
    ensures |queue| < capacity ==> Elements(Admit(capacity, queue, slot).queue) == Elements(queue) + {slot}
    ensures |queue| >= capacity ==>
      && Elements(Admit(capacity, queue, slot).queue) == Elements(queue) + {slot} - {queue[0]}
      && |Elements(Admit(capacity, queue, slot).queue)| == capacity
  {
    AdmitKeepsWindow(capacity, queue, slot);
    ListingSize(queue);
    ListingSize(Admit(capacity, queue, slot).queue);
  }

  lemma LowestFirst(queue: seq<Slot>)
    ensures queue != [] ==> queue[0] in Elements(queue)
    ensures queue != [] ==> ((forall s :: s in queue ==> queue[0] <= s) <==> (forall s :: s in Elements(queue) ==> queue[0] <= s))
  {
    assert forall s :: s in queue <==> s in Elements(queue);
  }

  lemma GrowingKeepsHighest(live: set<Slot>, seen: set<Slot>, slot: Slot, capacity: nat)
    requires AreHighest(live, seen, capacity) && |live| < capacity && slot !in live
    ensures AreHighest(live + {slot}, seen + {slot}, capacity) && slot !in seen
  {
    assert |live + {slot}| == |live| + 1;
  }

  /** Replacing one slot of a full window keeps it highest exactly when the lowest makes way for a higher one. */
  lemma EvictingKeepsHighest(live: set<Slot>, live': set<Slot>, seen: set<Slot>, oldest: Slot, slot: Slot, capacity: nat)
    requires AreHighest(live, seen, capacity) && |live| == capacity == |live'|
    requires oldest in live && slot !in live && live' == live + {slot} - {oldest}
    ensures AreHighest(live', seen + {slot}, capacity) <==> oldest < slot && forall s :: s in live ==> oldest <= s
    ensures oldest < slot && (forall s :: s in live ==> oldest <= s) ==> slot !in seen
  {
    assert slot in live' && oldest !in live';
    if AreHighest(live', seen + {slot}, capacity) {
      assert oldest in seen + {slot};
      assert forall s :: s in live && s != oldest ==> s in live';
    } else if oldest < slot && forall s :: s in live ==> oldest <= s {
      assert live' <= seen + {slot};
      forall s, u | s in live' && u in seen + {slot} && u !in live' ensures u < s {
        assert u == oldest || (u in seen && u !in live);
      }
      assert false;
    }
  }

  ghost predicate HighestAt(capacity: nat, log: seq<Sample>, k: nat)
    requires capacity >= 1 && k <= |log|
  {
    AreHighest(Run(capacity, log[..k]).index.Keys, SlotsOf(log[..k]), capacity)
  }

  ghost predicate OrderlyAt(capacity: nat, log: seq<Sample>, k: nat)
    requires capacity >= 1 && k < |log|
  {
    Orderly(capacity, Run(capacity, log[..k]).queue, log[k].slot)
  }

  ghost predicate HighestThroughout(capacity: nat, log: seq<Sample>)
    requires capacity >= 1
  {
    forall k: nat :: k <= |log| ==> HighestAt(capacity, log, k)
  }

  ghost predicate OrderlyThroughout(capacity: nat, log: seq<Sample>)
    requires capacity >= 1
  {
    forall k: nat :: k < |log| ==> OrderlyAt(capacity, log, k)
  }

  lemma SlotsOfOneMore(log: seq<Sample>, k: nat)
    requires k < |log|
    ensures SlotsOf(log[..k+1]) == SlotsOf(log[..k]) + {log[k].slot}
  {
    assert log[..k+1] == log[..k] + [log[k]];
  }

  lemma RunOneMore(capacity: nat, log: seq<Sample>, k: nat)
    requires capacity >= 1 && k < |log|
    ensures Run(capacity, log[..k+1]) == Push(Run(capacity, log[..k]), log[k])
  {
    assert log[..k+1] == log[..k] + [log[k]];
    RunLast(capacity, log[..k], log[k]);
  }

  /** The step from one prefix to the next. */
  lemma HighestStep(capacity: nat, log: seq<Sample>, k: nat)
    requires capacity >= 1 && k < |log| && HighestAt(capacity, log, k)
    ensures HighestAt(capacity, log, k + 1) <==> OrderlyAt(capacity, log, k)
    ensures OrderlyAt(capacity, log, k) && log[k].slot !in Run(capacity, log[..k]).queue ==> log[k].slot !in SlotsOf(log[..k])
  {
    RunOneMore(capacity, log, k);
    SlotsOfOneMore(log, k);
    RunKeys(capacity, log[..k]);
    RunKeys(capacity, log[..k+1]);
    OrderlyKeepsHighest(capacity, Run(capacity, log[..k]).queue, SlotsOf(log[..k]), log[k].slot);
  }

  lemma RunKeys(capacity: nat, log: seq<Sample>)
    requires capacity >= 1
    ensures ValidWindow(capacity, Run(capacity, log).queue) && Run(capacity, log).index.Keys == Elements(Run(capacity, log).queue)
  {
    RunValid(capacity, log);
  }

  lemma {:induction false} OrderlyReaches(capacity: nat, log: seq<Sample>, k: nat)
    requires capacity >= 1 && OrderlyThroughout(capacity, log) && k <= |log|
    ensures HighestAt(capacity, log, k)
  {
    if k == 0 {
      assert log[..0] == [];
    } else {
      OrderlyReaches(capacity, log, k - 1);
      assert OrderlyAt(capacity, log, k - 1);
      HighestStep(capacity, log, k - 1);
    }
  }

  /**
   The window holds the highest slots seen, at every moment of a run, exactly when every
   evicting push found the first-seen slot to be the lowest and brought a higher one.
   */
  lemma HighestIffOrderly(capacity: nat, log: seq<Sample>)
    requires capacity >= 1
    ensures HighestThroughout(capacity, log) <==> OrderlyThroughout(capacity, log)
  {
    if OrderlyThroughout(capacity, log) {
      forall k: nat | k <= |log| ensures HighestAt(capacity, log, k) {
        OrderlyReaches(capacity, log, k);
      }
    }
    if HighestThroughout(capacity, log) {
      forall k: nat | k < |log| ensures OrderlyAt(capacity, log, k) {
        assert HighestAt(capacity, log, k) && HighestAt(capacity, log, k + 1);
        HighestStep(capacity, log, k);
      }
    }
  }

  predicate NeverDecreasing(log: seq<Sample>) {
    forall i, j :: 0 <= i < j < |log| ==> log[i].slot <= log[j].slot
  }

  predicate Ascending(q: seq<Slot>) {
    forall i, j :: 0 <= i < j < |q| ==> q[i] < q[j]
  }

  lemma {:induction false} AdmittedAscend(capacity: nat, log: seq<Sample>)
    requires capacity >= 1 && NeverDecreasing(log)
    ensures Ascending(Admitted(capacity, log))
    ensures log != [] ==> EndsIn(Admitted(capacity, log), log[|log|-1].slot)
  {
    if log != [] {
      var n := |log| - 1;
      PrefixInOrder(log, n);
      AdmittedAscend(capacity, log[..n]);
      AscendOneMore(capacity, Admitted(capacity, log[..n]), if n > 0 then log[n-1].slot else 0, log[n].slot);
    }
  }

  predicate EndsIn(q: seq<Slot>, slot: Slot) {
    q != [] && q[|q|-1] == slot
  }

  lemma AscendOneMore(capacity: nat, before: seq<Slot>, last: Slot, slot: Slot)
    requires capacity >= 1 && Ascending(before) && last <= slot && (before == [] || EndsIn(before, last))
    ensures var after := if slot in LastOf(before, capacity) then before else before + [slot];
      Ascending(after) && EndsIn(after, slot)
  {
    if before != [] {
      RecentOrHigher(capacity, before, slot);
    }
  }

  lemma RecentOrHigher(capacity: nat, before: seq<Slot>, slot: Slot)
    requires capacity >= 1 && Ascending(before) && before != [] && before[|before|-1] <= slot
    ensures slot in LastOf(before, capacity) ==> before[|before|-1] == slot
    ensures slot !in LastOf(before, capacity) ==> Ascending(before + [slot])
  {
    LastIsRecent(before, capacity);
    LastOfWithin(before, capacity);
    if slot in before {
      var i :| 0 <= i < |before| && before[i] == slot;
      assert i == |before| - 1;
    }
  }

  lemma LastIsRecent(slots: seq<Slot>, n: nat)
    requires slots != [] && n >= 1
    ensures slots[|slots|-1] in LastOf(slots, n)
  {
    var l := LastOf(slots, n);
    assert l[|l|-1] == slots[|slots|-1];
  }

  lemma AscendingIsOrderly(capacity: nat, q: seq<Slot>, slot: Slot)
    requires capacity >= 1 && Ascending(q) && (q != [] ==> q[|q|-1] <= slot)
    ensures Orderly(capacity, q, slot)
  {
    if slot !in q && |q| >= capacity {
      assert q[|q|-1] in q;
    }
  }

  /** Slot numbers that never decrease make every push orderly. */
  lemma NeverDecreasingIsOrderly(capacity: nat, log: seq<Sample>)
    requires capacity >= 1 && NeverDecreasing(log)
    ensures OrderlyThroughout(capacity, log)
  {
    forall k: nat | k < |log| ensures OrderlyAt(capacity, log, k) {
      OrderlyInOrder(capacity, log, k);
    }
  }

  lemma OrderlyInOrder(capacity: nat, log: seq<Sample>, k: nat)
    requires capacity >= 1 && NeverDecreasing(log) && k < |log|
    ensures OrderlyAt(capacity, log, k)
  {
    PrefixInOrder(log, k);
    OrderlyAfter(capacity, log[..k], log[k].slot);
  }

  lemma OrderlyAfter(capacity: nat, log: seq<Sample>, slot: Slot)
    requires capacity >= 1 && NeverDecreasing(log) && (log != [] ==> log[|log|-1].slot <= slot)
    ensures Orderly(capacity, Run(capacity, log).queue, slot)
  {
    RecentIsOrderly(capacity, log, slot);
    QueueIsLastAdmitted(capacity, log);
  }

  lemma RecentIsOrderly(capacity: nat, log: seq<Sample>, slot: Slot)
    requires capacity >= 1 && NeverDecreasing(log) && (log != [] ==> log[|log|-1].slot <= slot)
    ensures Orderly(capacity, LastOf(Admitted(capacity, log), capacity), slot)
  {
    var admitted := Admitted(capacity, log);
    AdmittedAscend(capacity, log);
    LastOfAscends(admitted, capacity);
    AscendingIsOrderly(capacity, LastOf(admitted, capacity), slot);
  }

  lemma PrefixInOrder(log: seq<Sample>, k: nat)
    requires NeverDecreasing(log) && k < |log|
    ensures NeverDecreasing(log[..k])
    ensures k > 0 ==> log[..k] != [] && log[..k][|log[..k]|-1].slot <= log[k].slot
    ensures k == 0 ==> log[..k] == []
  {
  }

  lemma LastOfAscends(q: seq<Slot>, n: nat)
    requires Ascending(q) && n >= 1
    ensures Ascending(LastOf(q, n))
    ensures q != [] ==> LastOf(q, n) != [] && LastOf(q, n)[|LastOf(q, n)|-1] == q[|q|-1]
    ensures q == [] ==> LastOf(q, n) == []
  {
  }

  /** The slots of a log, one per sample. */
  function SlotList(log: seq<Sample>): (slots: seq<Slot>)
    ensures |slots| == |log| && forall i :: 0 <= i < |log| ==> slots[i] == log[i].slot
  {
    seq(|log|, i requires 0 <= i < |log| => log[i].slot)
  }

  /** Samples of distinct slots are all admitted. */
  lemma {:induction false} DistinctAdmitted(capacity: nat, log: seq<Sample>)
    requires NoDuplicates(SlotList(log))
    ensures Admitted(capacity, log) == SlotList(log)
  {
    if log != [] {
      var n := |log| - 1;
      assert SlotList(log) == SlotList(log[..n]) + [log[n].slot];
      assert NoDuplicates(SlotList(log[..n]));
      DistinctAdmitted(capacity, log[..n]);
      LastOfWithin(SlotList(log[..n]), capacity);
      assert log[n].slot !in SlotList(log[..n]);
    }
  }

  lemma LastOfWithin(slots: seq<Slot>, n: nat)
    ensures forall s :: s in LastOf(slots, n) ==> s in slots
  {
  }

  /**
   The window is not the newest slots by number: in any run of `capacity + 1` distinct slots whose
   first is not the lowest, the first is dropped and every other slot, a lower one too, is kept.
   */
  lemma FirstSeenIsNotNewest(capacity: nat, log: seq<Sample>, lower: nat)
    requires capacity >= 1 && |log| == capacity + 1 && NoDuplicates(SlotList(log))
    requires lower < |log| && log[lower].slot < log[0].slot
    ensures Run(capacity, log).index.Keys == SlotsOf(log) - {log[0].slot}
    ensures log[lower].slot in Run(capacity, log).index
    ensures !HighestThroughout(capacity, log)
  {
    OneDropped(capacity, log);
    assert log[0] in log && log[lower] in log;
    LowerIsNotHighest(capacity, log, log[lower].slot, log[0].slot);
  }

  lemma OneDropped(capacity: nat, log: seq<Sample>)
    requires capacity >= 1 && |log| == capacity + 1 && NoDuplicates(SlotList(log))
    ensures Run(capacity, log).index.Keys == SlotsOf(log) - {log[0].slot}
  {
    var slots := SlotList(log);
    DistinctAdmitted(capacity, log);
    LiveAreLastAdmitted(capacity, log);
    assert LastOf(slots, capacity) == slots[1..];
    SlotListElements(log);
    assert slots == [slots[0]] + slots[1..] && slots[0] !in slots[1..];
    assert Elements(slots[1..]) == Elements(slots) - {slots[0]};
  }

  lemma SlotListElements(log: seq<Sample>)
    ensures Elements(SlotList(log)) == SlotsOf(log)
  {
    forall s ensures s in SlotList(log) <==> s in SlotsOf(log) {
      if s in SlotsOf(log) {
        var e :| e in log && e.slot == s;
        var i :| 0 <= i < |log| && log[i] == e;
        assert SlotList(log)[i] == s;
      }
    }
  }

  lemma LowerIsNotHighest(capacity: nat, log: seq<Sample>, kept: Slot, dropped: Slot)
    requires capacity >= 1 && kept < dropped
    requires kept in Run(capacity, log).index && dropped in SlotsOf(log) && dropped !in Run(capacity, log).index
    ensures !HighestThroughout(capacity, log)
  {
    assert log[..|log|] == log;
    LowerKept(capacity, Run(capacity, log).index.Keys, SlotsOf(log), kept, dropped);
    assert !HighestAt(capacity, log, |log|);
  }

  lemma LowerKept(capacity: nat, live: set<Slot>, seen: set<Slot>, kept: Slot, dropped: Slot)
    requires kept in live && dropped in seen && dropped !in live && kept < dropped
    ensures !AreHighest(live, seen, capacity)
  {
  }

  // ---------------------------------------------------------------- nothing lost, nothing stale

  /** Every fee of the log that was pushed to a slot of `slots`, in order. */
  function FeesTo(log: seq<Sample>, slots: set<Slot>): seq<Fee> {
    if log == [] then []
    else
      var n := |log| - 1;
      FeesTo(log[..n], slots) + (if log[n].slot in slots then [log[n].fee] else [])
  }

  lemma {:induction false} FeesToUnseen(log: seq<Sample>, slot: Slot)
    requires slot !in SlotsOf(log)
    ensures FeesTo(log, {slot}) == []
  {
    if log != [] {
      var n := |log| - 1;
      assert log[n] in log;
      SlotsOfOneMore(log, n);
      assert log[..n+1] == log;
      FeesToUnseen(log[..n], slot);
    }
  }

  lemma {:induction false} FeesToSplit(log: seq<Sample>, slots: set<Slot>, slot: Slot)
    requires slot !in slots
    ensures multiset(FeesTo(log, slots + {slot})) == multiset(FeesTo(log, slots)) + multiset(FeesTo(log, {slot}))
  {
    if log != [] {
      FeesToSplit(log[..|log|-1], slots, slot);
    }
  }

  lemma FreshCollects(e: Sample)
    ensures multiset(Fresh(e).fees.Collect(true)) == multiset{e.fee}
  {
  }

  lemma UpdatedCollects(s: SlotFees, e: Sample)
    ensures multiset(Updated(s, e).fees.Collect(true)) == multiset(s.fees.Collect(true)) + multiset{e.fee}
  {
    var f, g := s.fees, Updated(s, e).fees;
    assert multiset(f.Collect(true)) == multiset(f.vote) + multiset(f.nonVote);
    assert multiset(g.Collect(true)) == multiset(g.vote) + multiset(g.nonVote);
  }

  /** In an orderly run a live slot still has every fee ever pushed to it. */
  lemma {:induction false} LiveSlotsComplete(capacity: nat, log: seq<Sample>, k: nat, slot: Slot)
    requires capacity >= 1 && OrderlyThroughout(capacity, log) && k <= |log|
    requires slot in Run(capacity, log[..k]).index
    ensures multiset(Run(capacity, log[..k]).index[slot].fees.Collect(true)) == multiset(FeesTo(log[..k], {slot}))
  {
    CollectStep(capacity, log, k, slot);
    if slot in Run(capacity, log[..k-1]).index {
      LiveSlotsComplete(capacity, log, k - 1, slot);
    } else {
      OrderlyUnseen(capacity, log, k - 1);
      FeesToUnseen(log[..k-1], slot);
    }
    FeesToAdds(log, k - 1, slot);
  }

  lemma FeesToAdds(log: seq<Sample>, k: nat, slot: Slot)
    requires k < |log|
    ensures multiset(FeesTo(log[..k+1], {slot}))
         == multiset(FeesTo(log[..k], {slot})) + (if log[k].slot == slot then multiset{log[k].fee} else multiset{})
  {
    FeesToOneMore(log, k, {slot});
  }

  /** `EntryStep` for a prefix of a longer log. */
  lemma PrefixEntryStep(capacity: nat, log: seq<Sample>, k: nat, slot: Slot)
    requires capacity >= 1 && k <= |log| && slot in Run(capacity, log[..k]).index
    ensures k > 0
    ensures var before, after, e := Run(capacity, log[..k-1]), Run(capacity, log[..k]).index[slot], log[k-1];
      && (slot in before.queue <==> slot in before.index)
      && (slot in before.queue || e.slot == slot)
      && after == if e.slot != slot then before.index[slot] else if slot in before.queue then Updated(before.index[slot], e) else Fresh(e)
  {
    EntryStep(capacity, log[..k], slot);
    assert log[..k][..k-1] == log[..k-1] && log[..k][k-1] == log[k-1];
  }

  /** What one push does to the fees a live slot holds. */
  lemma CollectStep(capacity: nat, log: seq<Sample>, k: nat, slot: Slot)
    requires capacity >= 1 && k <= |log| && slot in Run(capacity, log[..k]).index
    ensures k > 0
    ensures slot !in Run(capacity, log[..k-1]).index ==> slot !in Run(capacity, log[..k-1]).queue && log[k-1].slot == slot
    ensures multiset(Run(capacity, log[..k]).index[slot].fees.Collect(true))
         == (if slot in Run(capacity, log[..k-1]).index then multiset(Run(capacity, log[..k-1]).index[slot].fees.Collect(true)) else multiset{})
          + (if log[k-1].slot == slot then multiset{log[k-1].fee} else multiset{})
  {
    PrefixEntryStep(capacity, log, k, slot);
    var before, e := Run(capacity, log[..k-1]), log[k-1];
    if e.slot == slot {
      FreshCollects(e);
      if slot in before.index {
        UpdatedCollects(before.index[slot], e);
      }
    }
  }

  /** In an orderly run an admission is always of a slot never seen before. */
  lemma OrderlyUnseen(capacity: nat, log: seq<Sample>, k: nat)
    requires capacity >= 1 && OrderlyThroughout(capacity, log) && k < |log|
    requires log[k].slot !in Run(capacity, log[..k]).queue
    ensures log[k].slot !in SlotsOf(log[..k])
  {
    OrderlyReaches(capacity, log, k);
    assert OrderlyAt(capacity, log, k);
    HighestStep(capacity, log, k);
  }

  lemma FeesToOneMore(log: seq<Sample>, k: nat, slots: set<Slot>)
    requires k < |log|
    ensures FeesTo(log[..k+1], slots) == FeesTo(log[..k], slots) + (if log[k].slot in slots then [log[k].fee] else [])
  {
    assert log[..k+1][..k] == log[..k];
  }

  lemma {:induction false} GlobalIsFeesTo(index: Index, q: Query, walk: seq<Slot>, log: seq<Sample>)
    requires q.includeVote && NoDuplicates(walk)
    requires forall s :: s in walk ==> s in index && multiset(index[s].fees.Collect(true)) == multiset(FeesTo(log, {s}))
    ensures multiset(Data(index, q, walk, Global)) == multiset(FeesTo(log, Elements(walk)))
  {
    if walk == [] {
      assert Elements(walk) == {};
      FeesToNothing(log);
    } else {
      var n := |walk| - 1;
      LastElement(walk);
      forall s | s in walk[..n] ensures s in walk {}
      GlobalIsFeesTo(index, q, walk[..n], log);
      FeesToSplit(log, Elements(walk[..n]), walk[n]);
      GlobalOneMore(index, q, walk);
    }
  }

  lemma LastElement(walk: seq<Slot>)
    requires walk != [] && NoDuplicates(walk)
    ensures var n := |walk| - 1;
      && NoDuplicates(walk[..n]) && walk[n] in walk && walk[n] !in Elements(walk[..n])
      && Elements(walk) == Elements(walk[..n]) + {walk[n]}
  {
    assert walk == walk[..|walk|-1] + [walk[|walk|-1]];
  }

  lemma GlobalOneMore(index: Index, q: Query, walk: seq<Slot>)
    requires q.includeVote && walk != [] && walk[|walk|-1] in index
    ensures multiset(Data(index, q, walk, Global))
         == multiset(Data(index, q, walk[..|walk|-1], Global)) + multiset(index[walk[|walk|-1]].fees.Collect(true))
  {
  }

  lemma {:induction false} FeesToNothing(log: seq<Sample>)
    ensures FeesTo(log, {}) == []
  {
    if log != [] {
      FeesToNothing(log[..|log|-1]);
    }
  }

  /**
   The sliding window: in an orderly run, Global with votes and without lookback has exactly the
   fees ever pushed to the `capacity` highest slots of the whole history, in both algorithms.
   */
  lemma SlidingWindow(capacity: nat, log: seq<Sample>, algorithm: Algorithm, q: Query)
    requires capacity >= 1 && OrderlyThroughout(capacity, log)
    requires q.includeVote && q.lookback == None
    ensures var index := Run(capacity, log).index;
      && AreHighest(index.Keys, SlotsOf(log), capacity)
      && multiset(Held(Groups(algorithm, index, q), Global)) == multiset(FeesTo(log, index.Keys))
  {
    var index := Run(capacity, log).index;
    assert log[..|log|] == log;
    OrderlyReaches(capacity, log, |log|);
    assert HighestAt(capacity, log, |log|);
    forall s | s in index ensures multiset(index[s].fees.Collect(true)) == multiset(FeesTo(log, {s})) {
      LiveSlotsComplete(capacity, log, |log|, s);
    }
    WindowIsComplete(index, log, algorithm, q);
  }

  /** With every live slot complete, so is Global without lookback. */
  lemma WindowIsComplete(index: Index, log: seq<Sample>, algorithm: Algorithm, q: Query)
    requires q.includeVote && q.lookback == None
    requires forall s :: s in index ==> multiset(index[s].fees.Collect(true)) == multiset(FeesTo(log, {s}))
    ensures multiset(Held(Groups(algorithm, index, q), Global)) == multiset(FeesTo(log, index.Keys))
  {
    var walk := Window(index, None);
    WindowWithin(index, None);
    WholeWindow(index);
    GlobalIsFeesTo(index, q, walk, log);
    GroupIsData(index, algorithm, q, Global);
  }

  lemma WholeWindow(index: Index)
    ensures Elements(Window(index, None)) == index.Keys && NoDuplicates(Window(index, None))
  {
    assert Window(index, None) == Descending(index.Keys);
  }

  lemma SlidingWindowInOrder(capacity: nat, log: seq<Sample>, algorithm: Algorithm, q: Query)
    requires capacity >= 1 && NeverDecreasing(log)
    requires q.includeVote && q.lookback == None
    ensures var index := Run(capacity, log).index;
      && AreHighest(index.Keys, SlotsOf(log), capacity)
      && multiset(Held(Groups(algorithm, index, q), Global)) == multiset(FeesTo(log, index.Keys))
  {
    NeverDecreasingIsOrderly(capacity, log);
    SlidingWindow(capacity, log, algorithm, q);
  }
}
