/**
 `push_pop` under any number of threads. Every access to the set, every lock operation and the
 queue update is one step; steps of different threads interleave freely. The proof is a
 refinement: the abstract object performs `Admit` in one step, at the set insert of the call
 that admits, or at the successful membership check of the call that finds its slot present.
 */
module PushPopProtocol {
  import opened Options
  import opened Sequences
  import opened SlotWindow

  type Tid = nat

  /** Where a thread is inside `push_pop`; `Idle` is between calls. */
  datatype Pc =
    | Idle
    | FastCheck(slot: Slot)                              // about to look into the set without the lock
    | WantLock(slot: Slot)                               // waiting for the write lock
    | Recheck(slot: Slot)                                // lock held, about to look again
    | AddQueue(slot: Slot)                               // lock held, slot found absent
    | RemoveSet(slot: Slot, oldest: Slot)                // queue updated, evicted slot still in the set
    | InsertSet(slot: Slot, evicted: Option<Slot>)       // slot not yet in the set
    | Unlock(slot: Slot, result: Option<Slot>, ticket: nat)
    | Leave(slot: Slot, result: Option<Slot>, ticket: nat) // lock free again, about to return

  /**
   The shared state and every thread's position. The last three fields are history: the slots
   admitted so far in order, how many of them have been evicted, and which thread an evicted
   admission (named by its position in `admissions`) was returned to.
   */
  datatype State = State(
    capacity: nat,
    queue: seq<Slot>,
    members: set<Slot>,
    lock: Option<Tid>,
    pcs: map<Tid, Pc>,
    admissions: seq<Slot>,
    evictions: nat,
    delivered: map<nat, Tid>)

  function At(s: State, t: Tid): Pc {
    if t in s.pcs then s.pcs[t] else Idle
  }

  function Init(capacity: nat): State {
    State(capacity, [], {}, None, map[], [], 0, map[])
  }

  datatype Action = Begin(tid: Tid, slot: Slot) | Advance(tid: Tid)

  /** Only the lock can block a thread. */
  predicate Enabled(s: State, a: Action) {
    match a
    case Begin(t, _) => At(s, t).Idle?
    case Advance(t) => !At(s, t).Idle? && (At(s, t).WantLock? ==> s.lock == None)
  }

  function Goto(s: State, t: Tid, pc: Pc): State {
    s.(pcs := s.pcs[t := pc])
  }

  function Apply(s: State, a: Action): State
    requires Enabled(s, a) && s.capacity >= 1
  {
    var t := a.tid;
    match a
    case Begin(_, slot) => Goto(s, t, FastCheck(slot))
    case Advance(_) =>
      match At(s, t)
      case Idle => s
      case FastCheck(slot) =>
        if slot in s.members then Goto(s, t, Leave(slot, None, 0)) else Goto(s, t, WantLock(slot))
      case WantLock(slot) => Goto(s, t, Recheck(slot)).(lock := Some(t))
      case Recheck(slot) =>
        if slot in s.members then Goto(s, t, Unlock(slot, None, 0)) else Goto(s, t, AddQueue(slot))
      case AddQueue(slot) =>
        if |s.queue| < s.capacity
        then Goto(s, t, InsertSet(slot, None)).(queue := s.queue + [slot])
        else Goto(s, t, RemoveSet(slot, s.queue[0])).(queue := s.queue[1..] + [slot])
      case RemoveSet(slot, oldest) =>
        Goto(s, t, InsertSet(slot, Some(oldest))).(members := s.members - {oldest})
      case InsertSet(slot, evicted) =>
        Goto(s, t, Unlock(slot, evicted, s.evictions)).(
          members := s.members + {slot},
          admissions := s.admissions + [slot],
          evictions := if evicted.Some? then s.evictions + 1 else s.evictions)
      case Unlock(slot, result, ticket) => Goto(s, t, Leave(slot, result, ticket)).(lock := None)
      case Leave(slot, result, ticket) =>
        Goto(s, t, Idle).(delivered := if result.Some? then s.delivered[ticket := t] else s.delivered)
  }

  // ---------------------------------------------------------------- the atomic object

  /** A call of the atomic object is made, then performed in one step, then answered. */
  datatype Call = NoCall | Pending(slot: Slot) | Done(result: Option<Slot>)

  datatype Atomic = Atomic(capacity: nat, queue: seq<Slot>, calls: map<Tid, Call>)

  datatype AtomicAction = Invoke(tid: Tid, slot: Slot) | Perform(tid: Tid) | Respond(tid: Tid) | Stutter

  function CallOf(a: Atomic, t: Tid): Call {
    if t in a.calls then a.calls[t] else NoCall
  }

  predicate AtomicEnabled(a: Atomic, act: AtomicAction) {
    match act
    case Invoke(t, _) => CallOf(a, t).NoCall?
    case Perform(t) => CallOf(a, t).Pending?
    case Respond(t) => CallOf(a, t).Done?
    case Stutter => true
  }

  function AtomicApply(a: Atomic, act: AtomicAction): Atomic
    requires AtomicEnabled(a, act) && a.capacity >= 1
  {
    match act
    case Invoke(t, slot) => a.(calls := a.calls[t := Pending(slot)])
    case Perform(t) =>
      var r := Admit(a.capacity, a.queue, CallOf(a, t).slot);
      a.(queue := r.queue, calls := a.calls[t := Done(r.evicted)])
    case Respond(t) => a.(calls := a.calls[t := NoCall])
    case Stutter => a
  }

  /** What a caller can see: its calls and their results. */
  datatype Event = Called(tid: Tid, slot: Slot) | Returned(tid: Tid, result: Option<Slot>)

  function EventOf(s: State, a: Action): seq<Event> {
    match a
    case Begin(t, slot) => [Called(t, slot)]
    case Advance(t) => if At(s, t).Leave? then [Returned(t, At(s, t).result)] else []
  }

  function AtomicEventOf(a: Atomic, act: AtomicAction): seq<Event>
    requires AtomicEnabled(a, act)
  {
    match act
    case Invoke(t, slot) => [Called(t, slot)]
    case Respond(t) => [Returned(t, CallOf(a, t).result)]
    case Perform(_) => []
    case Stutter => []
  }

  // ---------------------------------------------------------------- the refinement

  /** The slots admitted and not yet evicted: the queue of the atomic object. */
  function Live(s: State): seq<Slot>
    requires s.evictions <= |s.admissions|
  {
    s.admissions[s.evictions..]
  }

  function Meaning(pc: Pc): Call {
    match pc
    case Idle => NoCall
    case FastCheck(slot) => Pending(slot)
    case WantLock(slot) => Pending(slot)
    case Recheck(slot) => Pending(slot)
    case AddQueue(slot) => Pending(slot)
    case RemoveSet(slot, _) => Pending(slot)
    case InsertSet(slot, _) => Pending(slot)
    case Unlock(_, result, _) => Done(result)
    case Leave(_, result, _) => Done(result)
  }

  function Abstract(s: State): Atomic
    requires s.evictions <= |s.admissions|
  {
    Atomic(s.capacity, Live(s), map t | t in s.pcs :: Meaning(s.pcs[t]))
  }

  /** The atomic step that a protocol step stands for. */
  function Matching(s: State, a: Action): AtomicAction {
    match a
    case Begin(t, slot) => Invoke(t, slot)
    case Advance(t) =>
      match At(s, t)
      case FastCheck(slot) => if slot in s.members then Perform(t) else Stutter
      case Recheck(slot) => if slot in s.members then Perform(t) else Stutter
      case InsertSet(_, _) => Perform(t)
      case Leave(_, _, _) => Respond(t)
      case Idle => Stutter
      case WantLock(_) => Stutter
      case AddQueue(_) => Stutter
      case RemoveSet(_, _) => Stutter
      case Unlock(_, _, _) => Stutter
  }

  predicate HoldsLock(pc: Pc) {
    pc.Recheck? || pc.AddQueue? || pc.RemoveSet? || pc.InsertSet? || pc.Unlock?
  }

  /** How far the queue and the set have moved ahead of the live slots. */
  ghost predicate MidUpdate(s: State, pc: Pc)
    requires s.evictions <= |s.admissions|
  {
    var live := Live(s);
    match pc
    case AddQueue(slot) => slot !in live && s.queue == live && s.members == Elements(live)
    case RemoveSet(slot, oldest) =>
      && slot !in live && |live| == s.capacity > 0 && live[0] == oldest
      && s.queue == live[1..] + [slot] && s.members == Elements(live)
    case InsertSet(slot, None) =>
      slot !in live && |live| < s.capacity && s.queue == live + [slot] && s.members == Elements(live)
    case InsertSet(slot, Some(oldest)) =>
      && slot !in live && |live| == s.capacity > 0 && live[0] == oldest
      && s.queue == live[1..] + [slot] && s.members == Elements(live) - {oldest}
    case _ => s.queue == live && s.members == Elements(live)
  }

  /** The evicted admission a thread has in hand and has not returned yet. */
  predicate InHand(pc: Pc, ticket: nat) {
    (pc.Unlock? || pc.Leave?) && pc.result.Some? && pc.ticket == ticket
  }

  predicate HeldRight(s: State, t: Tid, k: nat)
    requires InHand(At(s, t), k)
  {
    k < s.evictions <= |s.admissions| && k !in s.delivered && At(s, t).result == Some(s.admissions[k])
  }

  ghost predicate TicketsAccounted(s: State) {
    && s.evictions <= |s.admissions|
    && (forall t: Tid, k: nat :: InHand(At(s, t), k) ==> HeldRight(s, t, k))
    && (forall t: Tid, u: Tid, k: nat :: InHand(At(s, t), k) && InHand(At(s, u), k) ==> t == u)
    && (forall k: nat :: k in s.delivered ==> k < s.evictions)
    && (forall k: nat :: k < s.evictions ==> k in s.delivered || exists t: Tid :: InHand(At(s, t), k))
  }

  ghost predicate LockDiscipline(s: State) {
    && (forall t: Tid :: HoldsLock(At(s, t)) ==> s.lock == Some(t))
    && (s.lock.Some? ==> HoldsLock(At(s, s.lock.value)))
  }

  /** The lock, the queue and the set; the tickets are separate. */
  ghost predicate Control(s: State) {
    && s.evictions <= |s.admissions|
    && LockDiscipline(s)
    && ValidWindow(s.capacity, Live(s))
    && MidUpdate(s, if s.lock.Some? then At(s, s.lock.value) else Idle)
  }

  ghost predicate Inv(s: State) {
    Control(s) && TicketsAccounted(s)
  }

  lemma InitInv(capacity: nat)
    requires capacity >= 1
    ensures Inv(Init(capacity)) && Abstract(Init(capacity)) == Atomic(capacity, [], map[])
  {
    assert forall t: Tid :: At(Init(capacity), t) == Idle;
  }

  lemma OthersStay(s: State, a: Action)
    requires s.capacity >= 1 && Enabled(s, a)
    ensures forall u: Tid :: u != a.tid ==> At(Apply(s, a), u) == At(s, u)
  {
  }

  lemma StepKeepsLock(s: State, a: Action)
    requires Control(s) && Enabled(s, a)
    ensures LockDiscipline(Apply(s, a))
  {
    OthersStay(s, a);
    var s' := Apply(s, a);
    assert HoldsLock(At(s, a.tid)) ==> s.lock == Some(a.tid);
  }

  /** Only the steps that perform change what is live, and they change it as `Admit` says. */
  lemma StepPerforms(s: State, a: Action)
    requires Control(s) && Enabled(s, a)
    ensures Apply(s, a).evictions <= |Apply(s, a).admissions|
    ensures !Matching(s, a).Perform? ==> Live(Apply(s, a)) == Live(s)
    ensures Matching(s, a).Perform? ==>
      && !At(s, a.tid).Leave? && !At(s, a.tid).Idle?
      && Meaning(At(s, a.tid)).Pending?
      && Meaning(At(Apply(s, a), a.tid)).Done?
      && Admission(Live(Apply(s, a)), Meaning(At(Apply(s, a), a.tid)).result) == Admit(s.capacity, Live(s), Meaning(At(s, a.tid)).slot)
  {
    var pc := At(s, a.tid);
    if pc.InsertSet? && a.Advance? {
      InsertPerforms(s, a.tid);
    } else if Matching(s, a).Perform? {
      FoundPerforms(s, a.tid);
    }
  }

  lemma FoundPerforms(s: State, t: Tid)
    requires Control(s) && (At(s, t).FastCheck? || At(s, t).Recheck?) && At(s, t).slot in s.members
    ensures At(s, t).slot in Live(s)
  {
    assert s.members <= Elements(Live(s));
  }

  lemma InsertPerforms(s: State, t: Tid)
    requires Control(s) && At(s, t).InsertSet?
    ensures Enabled(s, Advance(t))
    ensures Apply(s, Advance(t)).evictions <= |Apply(s, Advance(t)).admissions|
    ensures Admission(Live(Apply(s, Advance(t))), At(s, t).evicted) == Admit(s.capacity, Live(s), At(s, t).slot)
    ensures var s' := Apply(s, Advance(t)); s'.queue == Live(s') && s'.members == Elements(Live(s'))
  {
    assert HoldsLock(At(s, t)) && s.lock == Some(t);
    var s', pc := Apply(s, Advance(t)), At(s, t);
    AdmitKeepsWindow(s.capacity, Live(s), pc.slot);
    if pc.evicted.Some? {
      assert Live(s') == Live(s)[1..] + [pc.slot];
    } else {
      assert Live(s') == Live(s) + [pc.slot];
    }
  }

  lemma StepKeepsControl(s: State, a: Action)
    requires Control(s) && Enabled(s, a)
    ensures Control(Apply(s, a))
  {
    StepKeepsLock(s, a);
    StepPerforms(s, a);
    var s', pc := Apply(s, a), At(s, a.tid);
    if HoldsLock(pc) {
      assert s.lock == Some(a.tid);
      if pc.InsertSet? {
        InsertPerforms(s, a.tid);
        AdmitKeepsWindow(s.capacity, Live(s), pc.slot);
      }
    } else if s.lock.Some? {
      assert s.lock != Some(a.tid);
    }
  }

  /** A set insert hands out the next ticket, and only a return delivers one. */
  lemma StepKeepsTickets(s: State, a: Action)
    requires Inv(s) && Enabled(s, a)
    ensures TicketsAccounted(Apply(s, a))
  {
    var s', t := Apply(s, a), a.tid;
    var pc := At(s, t);
    StepPerforms(s, a);
    forall u: Tid, k: nat | InHand(At(s', u), k)
      ensures HeldRight(s', u, k)
    {
      TicketStillInHand(s, a, u, k);
    }
    forall u: Tid, v: Tid, k: nat | InHand(At(s', u), k) && InHand(At(s', v), k) ensures u == v {
      TicketStillInHand(s, a, u, k);
      TicketStillInHand(s, a, v, k);
    }
    if pc.Leave? && pc.result.Some? {
      assert InHand(pc, pc.ticket);
    }
    forall k: nat | k < s'.evictions ensures k in s'.delivered || exists u: Tid :: InHand(At(s', u), k) {
      TicketNotLost(s, a, k);
    }
  }

  lemma TicketNotLost(s: State, a: Action, k: nat)
    requires s.capacity >= 1 && TicketsAccounted(s) && Enabled(s, a) && k < Apply(s, a).evictions
    ensures k in Apply(s, a).delivered || exists u: Tid :: InHand(At(Apply(s, a), u), k)
  {
    var s', t := Apply(s, a), a.tid;
    if k == s.evictions {
      assert InHand(At(s', t), k);
    } else if k !in s.delivered {
      var u: Tid :| InHand(At(s, u), k);
      if u != t || !At(s, t).Leave? {
        assert InHand(At(s', u), k);
      }
    }
  }

  lemma TicketStillInHand(s: State, a: Action, u: Tid, k: nat)
    requires Inv(s) && Enabled(s, a) && InHand(At(Apply(s, a), u), k)
    ensures var s' := Apply(s, a);
      && HeldRight(s', u, k)
      && if k == s.evictions then u == a.tid && At(s, u).InsertSet? else InHand(At(s, u), k)
  {
    var s', pc := Apply(s, a), At(s, a.tid);
    StepPerforms(s, a);
    if pc.Leave? && pc.result.Some? {
      assert InHand(pc, pc.ticket);
    }
    if a.Advance? && pc.InsertSet? {
      assert HoldsLock(pc) && s.lock == Some(a.tid);
      if u == a.tid {
        assert s.admissions[s.evictions] == Live(s)[0] == pc.evicted.value;
      } else {
        assert InHand(At(s, u), k);
      }
    } else {
      assert s'.evictions == s.evictions && s'.admissions == s.admissions;
      assert InHand(At(s, u), k);
      assert k < s.evictions;
    }
  }

  lemma MeaningMoves(s: State, a: Action)
    requires s.capacity >= 1 && Enabled(s, a) && s.evictions <= |s.admissions|
    requires Apply(s, a).evictions <= |Apply(s, a).admissions|
    ensures forall t: Tid :: CallOf(Abstract(s), t) == Meaning(At(s, t))
    ensures Abstract(Apply(s, a)).calls == Abstract(s).calls[a.tid := Meaning(At(Apply(s, a), a.tid))]
    ensures Meaning(At(Apply(s, a), a.tid)) == CallOf(Abstract(s), a.tid) && a.Advance? ==> Abstract(Apply(s, a)).calls == Abstract(s).calls
  {
    assert Apply(s, a).pcs == s.pcs[a.tid := At(Apply(s, a), a.tid)];
  }

  lemma StepMatches(s: State, a: Action)
    requires Control(s) && Enabled(s, a)
    ensures Apply(s, a).evictions <= |Apply(s, a).admissions|
    ensures AtomicEnabled(Abstract(s), Matching(s, a))
    ensures Abstract(Apply(s, a)) == AtomicApply(Abstract(s), Matching(s, a))
    ensures EventOf(s, a) == AtomicEventOf(Abstract(s), Matching(s, a))
  {
    StepPerforms(s, a);
    MeaningMoves(s, a);
  }

  /** Every protocol step keeps the invariant and is the matching step of the atomic object. */
  lemma StepRefines(s: State, a: Action)
    requires Inv(s) && Enabled(s, a)
    ensures Inv(Apply(s, a))
    ensures AtomicEnabled(Abstract(s), Matching(s, a))
    ensures Abstract(Apply(s, a)) == AtomicApply(Abstract(s), Matching(s, a))
    ensures EventOf(s, a) == AtomicEventOf(Abstract(s), Matching(s, a))
  {
    StepKeepsControl(s, a);
    StepKeepsTickets(s, a);
    StepMatches(s, a);
  }

  // ---------------------------------------------------------------- whole runs

  /** A schedule is any interleaving the lock permits. */
  predicate Legal(s: State, schedule: seq<Action>)
    requires s.capacity >= 1
    decreases |schedule|
  {
    schedule == [] || (Enabled(s, schedule[0]) && Legal(Apply(s, schedule[0]), schedule[1..]))
  }

  function Exec(s: State, schedule: seq<Action>): State
    requires s.capacity >= 1 && Legal(s, schedule)
    decreases |schedule|
  {
    if schedule == [] then s else Exec(Apply(s, schedule[0]), schedule[1..])
  }

  function Trace(s: State, schedule: seq<Action>): seq<Event>
    requires s.capacity >= 1 && Legal(s, schedule)
    decreases |schedule|
  {
    if schedule == [] then [] else EventOf(s, schedule[0]) + Trace(Apply(s, schedule[0]), schedule[1..])
  }

  function MatchingRun(s: State, schedule: seq<Action>): seq<AtomicAction>
    requires s.capacity >= 1 && Legal(s, schedule)
    decreases |schedule|
  {
    if schedule == [] then [] else [Matching(s, schedule[0])] + MatchingRun(Apply(s, schedule[0]), schedule[1..])
  }

  predicate AtomicLegal(a: Atomic, acts: seq<AtomicAction>)
    requires a.capacity >= 1
    decreases |acts|
  {
    acts == [] || (AtomicEnabled(a, acts[0]) && AtomicLegal(AtomicApply(a, acts[0]), acts[1..]))
  }

  function AtomicExec(a: Atomic, acts: seq<AtomicAction>): Atomic
    requires a.capacity >= 1 && AtomicLegal(a, acts)
    decreases |acts|
  {
    if acts == [] then a else AtomicExec(AtomicApply(a, acts[0]), acts[1..])
  }

  function AtomicTrace(a: Atomic, acts: seq<AtomicAction>): seq<Event>
    requires a.capacity >= 1 && AtomicLegal(a, acts)
    decreases |acts|
  {
    if acts == [] then [] else AtomicEventOf(a, acts[0]) + AtomicTrace(AtomicApply(a, acts[0]), acts[1..])
  }

  lemma {:induction false} RunRefines(s: State, schedule: seq<Action>)
    requires Inv(s) && Legal(s, schedule)
    ensures Inv(Exec(s, schedule))
    ensures var acts := MatchingRun(s, schedule);
      && AtomicLegal(Abstract(s), acts)
      && AtomicExec(Abstract(s), acts) == Abstract(Exec(s, schedule))
      && AtomicTrace(Abstract(s), acts) == Trace(s, schedule)
    decreases |schedule|
  {
    if schedule != [] {
      StepRefines(s, schedule[0]);
      RunRefines(Apply(s, schedule[0]), schedule[1..]);
      assert MatchingRun(s, schedule)[1..] == MatchingRun(Apply(s, schedule[0]), schedule[1..]);
    }
  }

  /** Linearizability: every schedule shows its callers a trace of the atomic object. */
  lemma Linearizable(capacity: nat, schedule: seq<Action>)
    requires capacity >= 1 && Legal(Init(capacity), schedule)
    ensures var acts := MatchingRun(Init(capacity), schedule);
      && AtomicLegal(Atomic(capacity, [], map[]), acts)
      && AtomicTrace(Atomic(capacity, [], map[]), acts) == Trace(Init(capacity), schedule)
  {
    InitInv(capacity);
    RunRefines(Init(capacity), schedule);
  }

  /** In every reachable state the queue is within capacity and duplicate-free; with the lock free the set is its contents. */
  lemma QueueAndSetAgree(capacity: nat, schedule: seq<Action>)
    requires capacity >= 1 && Legal(Init(capacity), schedule)
    ensures var s := Exec(Init(capacity), schedule);
      && |s.queue| <= capacity
      && NoDuplicates(s.queue)
      && (s.lock == None ==> s.members == Elements(s.queue))
      && s.evictions <= |s.admissions|
      && s.members <= Elements(Live(s))
      && |Live(s)| <= |s.members| + 1 <= capacity + 1
  {
    InitInv(capacity);
    RunRefines(Init(capacity), schedule);
    CapacityFixed(Init(capacity), schedule);
    AgreeNow(Exec(Init(capacity), schedule));
  }

  lemma AgreeNow(s: State)
    requires Control(s)
    ensures |s.queue| <= s.capacity && NoDuplicates(s.queue)
    ensures s.lock == None ==> s.members == Elements(s.queue)
    ensures s.members <= Elements(Live(s)) && |Live(s)| <= |s.members| + 1 <= s.capacity + 1
  {
    ListingSize(Live(s));
    SubsetSize(s.members, Elements(Live(s)));
  }

  lemma {:induction false} CapacityFixed(s: State, schedule: seq<Action>)
    requires s.capacity >= 1 && Legal(s, schedule)
    ensures Exec(s, schedule).capacity == s.capacity
    decreases |schedule|
  {
    if schedule != [] {
      CapacityFixed(Apply(s, schedule[0]), schedule[1..]);
    }
  }

  /**
   Conservation: admission `k` is live exactly when `k >= evictions`; otherwise it has been
   returned to one caller, or one thread (and no other) is about to return it.
   */
  lemma EveryAdmissionAccounted(capacity: nat, schedule: seq<Action>, k: nat)
    requires capacity >= 1 && Legal(Init(capacity), schedule)
    requires k < |Exec(Init(capacity), schedule).admissions|
    ensures var s := Exec(Init(capacity), schedule);
      && s.evictions <= |s.admissions|
      && |s.admissions| - s.evictions <= capacity
      && (k >= s.evictions ==> k !in s.delivered && forall t: Tid :: !InHand(At(s, t), k))
      && (k < s.evictions && k in s.delivered ==> forall t: Tid :: !InHand(At(s, t), k))
      && (k < s.evictions && k !in s.delivered ==>
            exists t: Tid :: InHand(At(s, t), k) && At(s, t).result == Some(s.admissions[k])
              && forall u: Tid :: InHand(At(s, u), k) ==> u == t)
      && ((forall t: Tid :: At(s, t).Idle?) ==> (k in s.delivered <==> k < s.evictions) && s.queue == s.admissions[s.evictions..])
  {
    InitInv(capacity);
    RunRefines(Init(capacity), schedule);
    CapacityFixed(Init(capacity), schedule);
    var s := Exec(Init(capacity), schedule);
    if k < s.evictions && k !in s.delivered {
      var t: Tid :| InHand(At(s, t), k);
      assert At(s, t).result == Some(s.admissions[k]);
      assert forall u: Tid :: InHand(At(s, u), k) ==> u == t;
    }
  }

  /** Returning an evicted admission delivers its ticket, which was not delivered before; no other step delivers anything. */
  lemma DeliveredOnce(s: State, a: Action)
    requires Inv(s) && Enabled(s, a)
    ensures var pc := At(s, a.tid);
      if a.Advance? && pc.Leave? && pc.result.Some? then
        && pc.ticket < s.evictions <= |s.admissions| && pc.ticket !in s.delivered
        && Apply(s, a).delivered == s.delivered[pc.ticket := a.tid]
        && EventOf(s, a) == [Returned(a.tid, Some(s.admissions[pc.ticket]))]
      else
        Apply(s, a).delivered == s.delivered && forall t, x :: Returned(t, Some(x)) !in EventOf(s, a)
  {
    var pc := At(s, a.tid);
    if a.Advance? && pc.Leave? && pc.result.Some? {
      assert InHand(pc, pc.ticket);
    }
  }

  /** The admissions of slot `x` whose eviction was returned to thread `t`. */
  function DeliveredTo(s: State, t: Tid, x: Slot): set<nat> {
    set k | k in s.delivered && k < |s.admissions| && s.delivered[k] == t && s.admissions[k] == x
  }

  lemma StepDelivers(s: State, a: Action, t: Tid, x: Slot)
    requires Inv(s) && Enabled(s, a)
    ensures |DeliveredTo(Apply(s, a), t, x)| == |DeliveredTo(s, t, x)| + multiset(EventOf(s, a))[Returned(t, Some(x))]
  {
    DeliveredOnce(s, a);
    AdmissionsGrow(s, a);
    var s', pc := Apply(s, a), At(s, a.tid);
    if a.Advance? && pc.Leave? && pc.result.Some? {
      NewDelivery(s, s', pc.ticket, a.tid, t, x);
      var e := Returned(a.tid, Some(s.admissions[pc.ticket]));
      assert multiset([e])[Returned(t, Some(x))] == if e == Returned(t, Some(x)) then 1 else 0;
    } else {
      NoDelivery(s, s', t, x);
    }
  }

  lemma AdmissionsGrow(s: State, a: Action)
    requires s.capacity >= 1 && Enabled(s, a) && TicketsAccounted(s)
    ensures s.admissions <= Apply(s, a).admissions
    ensures forall k: nat :: k in s.delivered ==> k < |s.admissions|
  {
  }

  lemma NoDelivery(s: State, s': State, t: Tid, x: Slot)
    requires s'.delivered == s.delivered && s.admissions <= s'.admissions
    requires forall k: nat :: k in s.delivered ==> k < |s.admissions|
    ensures DeliveredTo(s', t, x) == DeliveredTo(s, t, x)
  {
  }

  lemma NewDelivery(s: State, s': State, k: nat, to: Tid, t: Tid, x: Slot)
    requires k < |s.admissions| && k !in s.delivered
    requires s'.delivered == s.delivered[k := to] && s.admissions <= s'.admissions
    requires forall j: nat :: j in s.delivered ==> j < |s.admissions|
    ensures |DeliveredTo(s', t, x)| == |DeliveredTo(s, t, x)| + if to == t && s.admissions[k] == x then 1 else 0
  {
    var more: set<nat> := if to == t && s.admissions[k] == x then {k} else {};
    forall j: nat ensures j in DeliveredTo(s', t, x) <==> j in DeliveredTo(s, t, x) + more {
      DeliveredAt(s, s', k, to, t, x, j);
    }
    assert DeliveredTo(s', t, x) == DeliveredTo(s, t, x) + more;
  }

  lemma DeliveredAt(s: State, s': State, k: nat, to: Tid, t: Tid, x: Slot, j: nat)
    requires k < |s.admissions| && s'.delivered == s.delivered[k := to] && s.admissions <= s'.admissions
    requires k !in s.delivered && (j in s.delivered ==> j < |s.admissions|)
    ensures j in DeliveredTo(s', t, x) <==> j in DeliveredTo(s, t, x) || (j == k && to == t && s.admissions[k] == x)
  {
    if j < |s.admissions| {
      assert s'.admissions[j] == s.admissions[j];
    }
  }

  lemma {:induction false} RunDelivers(s: State, schedule: seq<Action>, t: Tid, x: Slot)
    requires Inv(s) && Legal(s, schedule)
    ensures |DeliveredTo(Exec(s, schedule), t, x)|
         == |DeliveredTo(s, t, x)| + multiset(Trace(s, schedule))[Returned(t, Some(x))]
    decreases |schedule|
  {
    if schedule != [] {
      StepRefines(s, schedule[0]);
      StepDelivers(s, schedule[0], t, x);
      RunDelivers(Apply(s, schedule[0]), schedule[1..], t, x);
    }
  }

  /**
   Over any run, a thread has been handed a slot exactly as often as admissions of that slot were
   delivered to it, and a delivered admission has one receiver: nothing is returned twice.
   */
  lemma ReturnsAreDeliveries(capacity: nat, schedule: seq<Action>, t: Tid, x: Slot)
    requires capacity >= 1 && Legal(Init(capacity), schedule)
    ensures var s := Exec(Init(capacity), schedule);
      && multiset(Trace(Init(capacity), schedule))[Returned(t, Some(x))] == |DeliveredTo(s, t, x)|
      && forall k: nat :: k in s.delivered ==> k < s.evictions <= |s.admissions| && k in DeliveredTo(s, s.delivered[k], s.admissions[k])
  {
    InitInv(capacity);
    RunRefines(Init(capacity), schedule);
    RunDelivers(Init(capacity), schedule, t, x);
    assert DeliveredTo(Init(capacity), t, x) == {};
  }

  /** No deadlock: while any call is in progress some thread can step. */
  lemma NoDeadlock(s: State, t: Tid)
    requires Inv(s) && !At(s, t).Idle?
    ensures Enabled(s, Advance(t)) || (s.lock.Some? && Enabled(s, Advance(s.lock.value)))
  {
  }

  // ---------------------------------------------------------------- progress

  /** The steps a call has left at most, all its own. */
  function StepsLeft(pc: Pc): nat {
    match pc
    case Idle => 0
    case Leave(_, _, _) => 1
    case Unlock(_, _, _) => 2
    case InsertSet(_, _) => 3
    case RemoveSet(_, _) => 4
    case AddQueue(_) => 5
    case Recheck(_) => 6
    case WantLock(_) => 7
    case FastCheck(_) => 8
  }

  lemma OwnStepCounts(s: State, a: Action, t: Tid)
    requires s.capacity >= 1 && Enabled(s, a)
    ensures a == Advance(t) ==> StepsLeft(At(Apply(s, a), t)) < StepsLeft(At(s, t))
    ensures a.tid != t ==> At(Apply(s, a), t) == At(s, t)
  {
  }

  /** Whatever the other threads do, a call takes at most eight steps of its own, the return included. */
  lemma {:induction false} ReturnsWithinEight(s: State, schedule: seq<Action>, t: Tid)
    requires s.capacity >= 1 && Legal(s, schedule) && forall slot :: Begin(t, slot) !in schedule
    ensures multiset(schedule)[Advance(t)] + StepsLeft(At(Exec(s, schedule), t)) <= StepsLeft(At(s, t)) <= 8
    decreases |schedule|
  {
    if schedule != [] {
      OwnStepCounts(s, schedule[0], t);
      assert schedule == [schedule[0]] + schedule[1..];
      assert schedule[0].Begin? ==> schedule[0] == Begin(schedule[0].tid, schedule[0].slot);
      ReturnsWithinEight(Apply(s, schedule[0]), schedule[1..], t);
    }
  }

  function Alone(t: Tid, n: nat): seq<Action> {
    seq(n, _ => Advance(t))
  }

  /** A call whose lock is free, or its own, runs to its return when nobody else steps. */
  lemma {:induction false} FinishAlone(s: State, t: Tid) returns (n: nat, result: Option<Slot>)
    requires Inv(s) && !At(s, t).Idle? && (s.lock == None || s.lock == Some(t))
    ensures n <= StepsLeft(At(s, t)) && Legal(s, Alone(t, n))
    ensures var s' := Exec(s, Alone(t, n));
      && Inv(s') && At(s', t).Idle? && s'.lock == None && s'.capacity == s.capacity
      && Trace(s, Alone(t, n)) == [Returned(t, result)]
      && match Meaning(At(s, t))
         case NoCall => false
         case Pending(slot) => Admission(Live(s'), result) == Admit(s.capacity, Live(s), slot)
         case Done(r) => result == r && Live(s') == Live(s)
    decreases StepsLeft(At(s, t))
  {
    var a := Advance(t);
    assert s.lock == Some(t) ==> HoldsLock(At(s, t));
    var s1 := Apply(s, a);
    StepRefines(s, a);
    StepPerforms(s, a);
    OwnStepCounts(s, a, t);
    MeaningMoves(s, a);
    if At(s, t).Leave? {
      n, result := 1, At(s, t).result;
      OneStepAlone(s, t);
    } else {
      var m: nat;
      m, result := FinishAlone(s1, t);
      n := m + 1;
      OneMoreAlone(s, t, m);
    }
  }

  lemma OneStepAlone(s: State, t: Tid)
    requires s.capacity >= 1 && Enabled(s, Advance(t))
    ensures Legal(s, Alone(t, 1)) && Exec(s, Alone(t, 1)) == Apply(s, Advance(t)) && Trace(s, Alone(t, 1)) == EventOf(s, Advance(t))
  {
    assert Alone(t, 1) == [Advance(t)];
    assert Alone(t, 1)[1..] == [];
  }

  lemma OneMoreAlone(s: State, t: Tid, m: nat)
    requires s.capacity >= 1 && Enabled(s, Advance(t)) && Legal(Apply(s, Advance(t)), Alone(t, m))
    ensures Legal(s, Alone(t, m + 1))
    ensures Exec(s, Alone(t, m + 1)) == Exec(Apply(s, Advance(t)), Alone(t, m))
    ensures Trace(s, Alone(t, m + 1)) == EventOf(s, Advance(t)) + Trace(Apply(s, Advance(t)), Alone(t, m))
  {
    assert Alone(t, m + 1)[1..] == Alone(t, m);
  }

  /**
   Run alone with the lock free, a call returns within eight steps with the answer of the atomic
   admission, and leaves its queue, the set equal to it and the lock free.
   */
  lemma CallAlone(s: State, t: Tid, slot: Slot) returns (n: nat, result: Option<Slot>)
    requires Inv(s) && s.lock == None && At(s, t).Idle?
    ensures n <= 8
    ensures var schedule := [Begin(t, slot)] + Alone(t, n);
      && Legal(s, schedule)
      && Trace(s, schedule) == [Called(t, slot), Returned(t, result)]
      && var s' := Exec(s, schedule);
         && At(s', t).Idle? && s'.lock == None
         && Admission(s'.queue, result) == Admit(s.capacity, s.queue, slot)
         && s'.members == Elements(s'.queue)
  {
    var s1 := Apply(s, Begin(t, slot));
    StepRefines(s, Begin(t, slot));
    StepPerforms(s, Begin(t, slot));
    n, result := FinishAlone(s1, t);
    var schedule := [Begin(t, slot)] + Alone(t, n);
    assert schedule[0] == Begin(t, slot) && schedule[1..] == Alone(t, n);
    assert Trace(s, schedule) == [Called(t, slot)] + Trace(s1, Alone(t, n));
  }
}
