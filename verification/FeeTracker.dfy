/**
 The fee index. `Push` is the meaning of one recorded transaction and `Run` of a whole log of
 them; class `PriorityFeeTracker` updates the window and the index in place.
 */
module FeeTracker {
  import opened Options
  import opened Sequences
  import opened SlotWindow
  import opened FeeModel

  /** One transaction's fee, as handed to the tracker. */
  datatype Sample = Sample(slot: Slot, accounts: seq<Pubkey>, fee: Fee, isVote: bool, version: Version)

  datatype Tracker = Tracker(capacity: nat, queue: seq<Slot>, index: map<Slot, SlotFees>)

  function Fresh(e: Sample): SlotFees {
    FirstFee(e.slot, e.accounts, e.fee, e.isVote, e.version)
  }

  function Updated(s: SlotFees, e: Sample): SlotFees {
    NextFee(s, e.accounts, e.fee, e.isVote, e.version)
  }

  function Store(index: map<Slot, SlotFees>, e: Sample): map<Slot, SlotFees> {
    index[e.slot := if e.slot in index then Updated(index[e.slot], e) else Fresh(e)]
  }

  function Evict(index: map<Slot, SlotFees>, evicted: Option<Slot>): map<Slot, SlotFees> {
    if evicted.Some? then index - {evicted.value} else index
  }

  function Push(t: Tracker, e: Sample): Tracker
    requires t.capacity >= 1
  {
    var admission := Admit(t.capacity, t.queue, e.slot);
    Tracker(t.capacity, admission.queue, Evict(Store(t.index, e), admission.evicted))
  }

  function Empty(capacity: nat): Tracker {
    Tracker(capacity, [], map[])
  }

  /** The tracker after a log of samples, oldest first. */
  function Run(capacity: nat, log: seq<Sample>): (t: Tracker)
    requires capacity >= 1
    ensures t.capacity == capacity
  {
    if log == [] then Empty(capacity) else Push(Run(capacity, log[..|log|-1]), log[|log|-1])
  }

  function RunFrom(t: Tracker, log: seq<Sample>): (r: Tracker)
    requires t.capacity >= 1
    ensures r.capacity == t.capacity
  {
    if log == [] then t else Push(RunFrom(t, log[..|log|-1]), log[|log|-1])
  }

  lemma RunLast(capacity: nat, log: seq<Sample>, e: Sample)
    requires capacity >= 1
    ensures Run(capacity, log + [e]) == Push(Run(capacity, log), e)
  {
    assert (log + [e])[..|log|] == log;
  }

  lemma {:induction false} RunFromAppends(capacity: nat, a: seq<Sample>, b: seq<Sample>)
    requires capacity >= 1
    ensures RunFrom(Run(capacity, a), b) == Run(capacity, a + b)
  {
    if b == [] {
      assert a + b == a;
    } else {
      var n := |b| - 1;
      RunFromAppends(capacity, a, b[..n]);
      RunLast(capacity, a + b[..n], b[n]);
      assert a + b == a + b[..n] + [b[n]];
    }
  }

  /** The index holds exactly the slots of the window, each under its own number and consistent in itself. */
  ghost predicate Valid(t: Tracker) {
    && ValidWindow(t.capacity, t.queue)
    && t.index.Keys == Elements(t.queue)
    && forall s :: s in t.index ==> t.index[s].slot == s && GoodEntry(t.index[s])
  }

  lemma PushKeepsValid(t: Tracker, e: Sample)
    requires Valid(t)
    ensures Valid(Push(t, e))
    ensures e.slot in Push(t, e).index
    ensures forall s :: s in Push(t, e).index && s != e.slot ==> s in t.index && Push(t, e).index[s] == t.index[s]
    ensures Push(t, e).index[e.slot] == if e.slot in t.queue then Updated(t.index[e.slot], e) else Fresh(e)
  {
    AdmitKeepsWindow(t.capacity, t.queue, e.slot);
    var r := Push(t, e);
    assert e.slot in t.index <==> e.slot in t.queue;
    FirstFeeGood(e.slot, e.accounts, e.fee, e.isVote, e.version);
    if e.slot in t.queue {
      NextFeeGood(t.index[e.slot], e.accounts, e.fee, e.isVote, e.version);
    }
    assert r.index.Keys == Elements(r.queue);
    assert e.slot in Elements(r.queue);
    forall s | s in r.index ensures r.index[s].slot == s && GoodEntry(r.index[s]) {
      if s != e.slot { assert s in t.index; }
    }
  }

  lemma PushValid(t: Tracker, e: Sample)
    requires Valid(t)
    ensures Valid(Push(t, e))
  {
    PushKeepsValid(t, e);
  }

  /** After any log of samples the index keys are the window and every entry is consistent. */
  lemma {:induction false} RunValid(capacity: nat, log: seq<Sample>)
    requires capacity >= 1
    ensures Valid(Run(capacity, log))
  {
    if log != [] {
      RunValid(capacity, log[..|log|-1]);
      PushKeepsValid(Run(capacity, log[..|log|-1]), log[|log|-1]);
    }
  }

  // ---------------------------------------------------------------- the tracker updated in place

  class PriorityFeeTracker {
    const slotCache: SlotCache
    var priorityFees: map<Slot, SlotPriorityFees>

    ghost function Abstract(): Tracker
      reads this, slotCache, priorityFees.Values
    {
      Tracker(slotCache.capacity, slotCache.slotQueue, Views())
    }

    ghost function Views(): (views: map<Slot, SlotFees>)
      reads this, priorityFees.Values
      ensures views.Keys == priorityFees.Keys
      ensures forall s :: s in priorityFees ==> views[s] == priorityFees[s].View()
    {
      map s | s in priorityFees :: priorityFees[s].View()
    }

    ghost predicate Distinct()
      reads this
    {
      forall s, u :: s in priorityFees && u in priorityFees && s != u ==> priorityFees[s] != priorityFees[u]
    }

    /** Every entry carries the slot it is stored under; all that the queries rely on. */
    ghost predicate Keyed()
      reads this, priorityFees.Values
    {
      forall s :: s in priorityFees ==> priorityFees[s].slot == s
    }

    lemma ConsistentIsKeyed()
      requires Consistent()
      ensures Keyed()
    {
      forall s | s in priorityFees ensures priorityFees[s].slot == s {
        assert Abstract().index[s] == priorityFees[s].View();
      }
    }

    ghost predicate Consistent()
      reads this, slotCache, priorityFees.Values
    {
      slotCache.Valid() && Distinct() && Valid(Abstract())
    }

    constructor (slotCacheLength: nat)
      requires slotCacheLength >= 1
      ensures Consistent() && Abstract() == Empty(slotCacheLength)
      ensures fresh(slotCache)
    {
      slotCache := new SlotCache(slotCacheLength);
      priorityFees := map[];
    }

    /** The insert-or-modify part of a push: a missing slot gets a fresh entry, a present one is updated. */
    method RecordFee(slot: Slot, accounts: seq<Pubkey>, fee: Fee, isVote: bool, version: Version)
      requires Distinct()
      modifies this`priorityFees, priorityFees.Values
      ensures Distinct()
      ensures Views() == Store(old(Views()), Sample(slot, accounts, fee, isVote, version))
      ensures fresh(priorityFees.Values - old(priorityFees.Values))
    {
      if slot !in priorityFees {
        var entry := new SlotPriorityFees.NewWithVersion(slot, accounts, fee, isVote, version);
        Insert(slot, entry);
      } else {
        Modify(slot, accounts, fee, isVote, version);
      }
    }

    method Insert(slot: Slot, entry: SlotPriorityFees)
      requires Distinct() && slot !in priorityFees && entry !in priorityFees.Values
      modifies this`priorityFees
      ensures Distinct()
      ensures Views() == old(Views())[slot := entry.View()]
      ensures priorityFees.Values <= old(priorityFees.Values) + {entry}
    {
      priorityFees := priorityFees[slot := entry];
    }

    method Modify(slot: Slot, accounts: seq<Pubkey>, fee: Fee, isVote: bool, version: Version)
      requires Distinct() && slot in priorityFees
      modifies priorityFees[slot]
      ensures Views() == old(Views())[slot := NextFee(old(Views())[slot], accounts, fee, isVote, version)]
    {
      priorityFees[slot].Record(accounts, fee, isVote, version);
    }

    method PushPriorityFee(slot: Slot, accounts: seq<Pubkey>, fee: Fee, isVote: bool, version: Version)
      requires Consistent()
      modifies this, slotCache, priorityFees.Values
      ensures Consistent()
      ensures Abstract() == Push(old(Abstract()), Sample(slot, accounts, fee, isVote, version))
      ensures fresh(priorityFees.Values - old(priorityFees.Values))
    {
      ghost var after := Push(Abstract(), Sample(slot, accounts, fee, isVote, version));
      PushValid(Abstract(), Sample(slot, accounts, fee, isVote, version));
      PushSteps(slot, accounts, fee, isVote, version);
      ConsistentAs(after);
    }

    /** The window first, then the entry of the slot, then the entry of the slot that left. */
    method PushSteps(slot: Slot, accounts: seq<Pubkey>, fee: Fee, isVote: bool, version: Version)
      requires slotCache.Valid() && Distinct()
      modifies this, slotCache, priorityFees.Values
      ensures slotCache.Valid() && Distinct()
      ensures Abstract() == Push(old(Abstract()), Sample(slot, accounts, fee, isVote, version))
      ensures fresh(priorityFees.Values - old(priorityFees.Values))
    {
      ghost var views := Views();
      var slotToRemove := slotCache.PushPop(slot);
      assert Views() == views;
      RecordFee(slot, accounts, fee, isVote, version);
      Forget(slotToRemove);
    }

    lemma ConsistentAs(t: Tracker)
      requires slotCache.Valid() && Distinct() && Abstract() == t && Valid(t)
      ensures Consistent()
    {
    }

    method Forget(slotToRemove: Option<Slot>)
      requires Distinct()
      modifies this`priorityFees
      ensures Distinct()
      ensures Views() == Evict(old(Views()), slotToRemove)
      ensures priorityFees.Values <= old(priorityFees.Values)
    {
      if slotToRemove.Some? {
        priorityFees := priorityFees - {slotToRemove.value};
      }
    }
  }
}
