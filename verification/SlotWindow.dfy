/**
 The slot window: a bounded first-in first-out queue of slots and a membership set.
 `Admit` is the atomic meaning of `push_pop`; class `SlotCache` is the sequential code.
 */
module SlotWindow {
  import opened Options
  import opened Sequences

  type Slot = nat

  datatype Admission = Admission(queue: seq<Slot>, evicted: Option<Slot>)

  ghost predicate ValidWindow(capacity: nat, queue: seq<Slot>) {
    capacity >= 1 && |queue| <= capacity && NoDuplicates(queue)
  }

  /** A present slot changes nothing; an absent one is appended and, on a full queue, the oldest goes. */
  function Admit(capacity: nat, queue: seq<Slot>, slot: Slot): Admission
    requires capacity >= 1
  {
    if slot in queue then Admission(queue, None)
    else if |queue| < capacity then Admission(queue + [slot], None)
    else Admission(queue[1..] + [slot], Some(queue[0]))
  }

  /** What one admission keeps: the bound, distinctness, and every slot but the evicted one. */
  lemma AdmitKeepsWindow(capacity: nat, queue: seq<Slot>, slot: Slot)
    requires ValidWindow(capacity, queue)
    ensures var r := Admit(capacity, queue, slot);
      && ValidWindow(capacity, r.queue)
      && slot in r.queue
      && (r.evicted == None ==> Elements(r.queue) == Elements(queue) + {slot})
      && (r.evicted.Some? ==>
            && slot !in queue
            && queue == [r.evicted.value] + queue[1..]
            && r.evicted.value !in r.queue
            && Elements(r.queue) == Elements(queue) + {slot} - {r.evicted.value})
  {
    var r := Admit(capacity, queue, slot);
    assert slot in r.queue by {
      if slot !in queue { assert r.queue[|r.queue|-1] == slot; }
    }
    if r.evicted == None {
      assert forall x :: x in r.queue <==> x in queue || x == slot;
    } else {
      assert queue == [queue[0]] + queue[1..];
      assert forall x :: x in queue <==> x == queue[0] || x in queue[1..];
      assert forall x :: x in r.queue <==> x in queue[1..] || x == slot;
      assert queue[0] !in queue[1..];
    }
  }

  class SlotCache {
    const capacity: nat
    var slotQueue: seq<Slot>
    var slotSet: set<Slot>

    ghost predicate Valid()
      reads this
    {
      ValidWindow(capacity, slotQueue) && slotSet == Elements(slotQueue)
    }

    constructor (slotCacheLength: nat)
      requires slotCacheLength >= 1
      ensures Valid() && capacity == slotCacheLength && slotQueue == []
    {
      capacity := slotCacheLength;
      slotQueue := [];
      slotSet := {};
    }

    /** The circular buffer's `add`: on a full buffer the oldest element is dropped and handed back. */
    method Add(slot: Slot) returns (oldest: Option<Slot>)
      requires capacity >= 1
      modifies this`slotQueue
      ensures |old(slotQueue)| < capacity ==> slotQueue == old(slotQueue) + [slot] && oldest == None
      ensures |old(slotQueue)| >= capacity ==> slotQueue == old(slotQueue)[1..] + [slot] && oldest == Some(old(slotQueue)[0])
    {
      if |slotQueue| < capacity {
        slotQueue := slotQueue + [slot];
        oldest := None;
      } else {
        oldest := Some(slotQueue[0]);
        slotQueue := slotQueue[1..] + [slot];
      }
    }

    method PushPop(slot: Slot) returns (evicted: Option<Slot>)
      requires Valid()
      modifies this
      ensures Valid()
      ensures Admission(slotQueue, evicted) == Admit(capacity, old(slotQueue), slot)
    {
      AdmitKeepsWindow(capacity, slotQueue, slot);
      if slot in slotSet {
        return None;
      }
      evicted := Add(slot);
      if evicted.Some? {
        slotSet := slotSet - {evicted.value};
      }
      slotSet := slotSet + {slot};
    }

    method CopySlots(target: seq<Slot>) returns (extended: seq<Slot>)
      requires Valid()
      ensures |extended| == |target| + |slotQueue|
      ensures extended[..|target|] == target
      ensures multiset(extended[|target|..]) == multiset(slotQueue)
    {
      extended := target;
      var rest := slotSet;
      while rest != {}
        invariant rest <= slotSet
        invariant target <= extended
        invariant Lists(extended[|target|..], slotSet - rest)
        decreases rest
      {
        var slot :| slot in rest;
        var next := extended + [slot];
        assert next[|target|..] == extended[|target|..] + [slot];
        assert slot !in Elements(extended[|target|..]);
        assert Elements(next[|target|..]) == Elements(extended[|target|..]) + {slot};
        extended, rest := next, rest - {slot};
      }
      ListingsPermuted(extended[|target|..], slotQueue);
      SameSize(extended[|target|..], slotQueue);
    }

    method Len() returns (n: nat)
      requires Valid()
      ensures n == |slotQueue| <= capacity
    {
      ListingSize(slotQueue);
      n := |slotSet|;
    }
  }
}
