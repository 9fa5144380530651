/** The bounded blocking queue: its critical sections as a class, and the whole monitor (one mutex, two
    condition variables, any number of threads) as a step machine. */
module BlockingQueue {
  import opened Prelude

  /** The queue never looks inside what it carries. */
  type Item(==, !new)

  // ---------------------------------------------------------------------------------------------
  // What the mutex protects

  datatype Shared = Shared(items: seq<Item>, shutdown: bool)

  /** What a thread that holds the mutex does after looking at the wait predicate. */
  datatype Verdict = Wait | Rejected | Added | Drained | Taken(item: Item)

  function PushSection(q: Shared, capacity: nat, item: Item): (Shared, Verdict)
  {
    if q.shutdown then (q, Rejected)
    else if |q.items| < capacity then (q.(items := q.items + [item]), Added)
    else (q, Wait)
  }

  function PopSection(q: Shared): (Shared, Verdict)
  {
    if q.items != [] then (q.(items := q.items[1..]), Taken(q.items[0]))
    else if q.shutdown then (q, Drained)
    else (q, Wait)
  }

  /** The fields behind the mutex. Each method is one critical section, entered with the mutex held. */
  class Monitor {
    const capacity: nat
    var items: seq<Item>
    var shutdown: bool

    ghost predicate Valid() reads this { |items| <= capacity }

    ghost function View(): Shared reads this { Shared(items, shutdown) }

    constructor (capacity: nat)
      requires capacity > 0
      ensures Valid() && this.capacity == capacity && View() == Shared([], false)
    {
      this.capacity := capacity;
      items := [];
      shutdown := false;
    }

    method Push(item: Item) returns (v: Verdict)
      requires Valid()
      modifies this
      ensures Valid() && (View(), v) == PushSection(old(View()), capacity, item)
      ensures v == Added ==> |old(items)| < capacity && !shutdown && items == old(items) + [item]
      ensures v != Added ==> View() == old(View())
    {
      if !(shutdown || |items| < capacity) { return Wait; }
      if shutdown { return Rejected; }
      items := items + [item];
      v := Added;
    }

    method Pop() returns (v: Verdict)
      requires Valid()
      modifies this
      ensures Valid() && (View(), v) == PopSection(old(View()))
      ensures v.Taken? <==> old(items) != []
      ensures v.Taken? ==> [v.item] + items == old(items)
      ensures !v.Taken? ==> View() == old(View())
    {
      if !(shutdown || items != []) { return Wait; }
      if shutdown && items == [] { return Drained; }
      var item := items[0];
      items := items[1..];
      v := Taken(item);
    }

    method Shutdown()
      requires Valid()
      modifies this
      ensures Valid() && View() == old(View()).(shutdown := true)
    {
      shutdown := true;
    }
  }

  /** The public constructor throws on a zero capacity. */
  method Create(capacity: nat) returns (r: Result<Monitor, string>)
    ensures r.Err? <==> capacity == 0
    ensures r.Ok? ==> fresh(r.value) && r.value.Valid() && r.value.capacity == capacity && r.value.items == []
  {
    if capacity == 0 { return Err("BoundedBlockingQueue capacity cannot be zero"); }
    var m := new Monitor(capacity);
    r := Ok(m);
  }

  // ---------------------------------------------------------------------------------------------
  // The monitor

  /** `timed`: TryPush and TryPop give up when their timeout passes. */
  datatype Call = Push(item: Item, timed: bool) | Pop(timed: bool) | Shutdown

  datatype Outcome = Accepted | Got(item: Item) | Empty | ShutDown | TimedOut | Finished

  /** `woken`: this thread has been on the condition variable and is back to look again. */
  datatype Pc =
    | Idle
    | Enter(call: Call)                          // wants the mutex
    | Check(call: Call, woken: bool, expired: bool)  // holds it, at the wait predicate
    | Asleep(call: Call)                         // on its condition variable, mutex released
    | Woken(call: Call, expired: bool)           // off the condition variable, wants the mutex back
    | Signal(call: Call, out: Outcome)        // holds it, about to notify_one
    | WakePushers                                   // Shutdown: about to notify_all not_full_
    | WakePoppers                                   // Shutdown: about to notify_all not_empty_
    | Leave(call: Call, out: Outcome)         // about to unlock and return

  /** `accepted`, `delivered`, `pushed` and `popped` are history: items in the order they entered and
      left the buffer, and items of the pushes and pops that have returned successfully. */
  datatype State = State(
    procs: seq<Pc>,
    owner: Option<nat>,
    capacity: nat,
    q: Shared,
    accepted: seq<Item>,
    delivered: seq<Item>,
    pushed: seq<Item>,
    popped: seq<Item>)

  datatype Action =
    | Invoke(t: nat, call: Call)
    | Step(t: nat, target: Option<nat>)   // `target`: the sleeper that notify_one picks
    | Wake(t: nat, expired: bool)         // a spurious wakeup, or the timeout of a timed call

  predicate HoldsMutex(pc: Pc)
  {
    pc.Check? || pc.Signal? || pc.WakePushers? || pc.WakePoppers? || pc.Leave?
  }

  predicate SleepsToPop(pc: Pc) { pc.Asleep? && pc.call.Pop? }

  predicate SleepsToPush(pc: Pc) { pc.Asleep? && pc.call.Push? }

  /** Whom a thread at Signal notifies: a Push wakes a popper, a Pop wakes a pusher. */
  predicate Hears(pc: Pc, call: Call)
  {
    if call.Push? then SleepsToPop(pc) else SleepsToPush(pc)
  }

  predicate Wakes(s: State, call: Call, target: Option<nat>)
  {
    match target
    case Some(u) => u < |s.procs| && Hears(s.procs[u], call)
    case None => forall u :: 0 <= u < |s.procs| ==> !Hears(s.procs[u], call)
  }

  predicate Enabled(s: State, a: Action)
  {
    match a
    case Invoke(t, _) => t < |s.procs| && s.procs[t].Idle?
    case Wake(t, expired) => t < |s.procs| && s.procs[t].Asleep? && (expired ==> !s.procs[t].call.Shutdown? && s.procs[t].call.timed)
    case Step(t, target) =>
      && t < |s.procs|
      && match s.procs[t]
         case Idle => false
         case Asleep(_) => false
         case Enter(_) => s.owner == None
         case Woken(_, _) => s.owner == None
         case Signal(call, _) => Wakes(s, call, target)
         case _ => true
  }

  function Goto(s: State, t: nat, pc: Pc): State
    requires t < |s.procs|
  {
    s.(procs := s.procs[t := pc])
  }

  /** At the wait predicate, with the mutex held. */
  function CheckStep(s: State, t: nat, call: Call, expired: bool): State
    requires t < |s.procs|
  {
    match call
    case Shutdown => Goto(s, t, WakePushers).(q := s.q.(shutdown := true))
    case Push(item, _) =>
      var (q', v) := PushSection(s.q, s.capacity, item);
      if v == Added then Goto(s, t, Signal(call, Accepted)).(q := q', accepted := s.accepted + [item])
      else if v == Rejected then Goto(s, t, Leave(call, ShutDown))
      else if expired then Goto(s, t, Leave(call, TimedOut))
      else Goto(s, t, Asleep(call)).(owner := None)
    case Pop(_) =>
      var (q', v) := PopSection(s.q);
      if v.Taken? then Goto(s, t, Signal(call, Got(v.item))).(q := q', delivered := s.delivered + [v.item])
      else if v == Drained then Goto(s, t, Leave(call, Empty))
      else if expired then Goto(s, t, Leave(call, TimedOut))
      else Goto(s, t, Asleep(call)).(owner := None)
  }

  function Rouse(pc: Pc): Pc
  {
    if pc.Asleep? then Woken(pc.call, false) else pc
  }

  function NotifyOne(procs: seq<Pc>, target: Option<nat>): seq<Pc>
  {
    if target.Some? && target.value < |procs| then procs[target.value := Rouse(procs[target.value])] else procs
  }

  /** `pushers`: notify_all on not_full_, otherwise on not_empty_. */
  function NotifyAll(procs: seq<Pc>, pushers: bool): seq<Pc>
  {
    seq(|procs|, u requires 0 <= u < |procs| =>
      if (pushers && SleepsToPush(procs[u])) || (!pushers && SleepsToPop(procs[u])) then Rouse(procs[u]) else procs[u])
  }

  function LeaveStep(s: State, t: nat, call: Call, out: Outcome): State
    requires t < |s.procs|
  {
    Goto(s, t, Idle).(
      owner := None,
      pushed := if call.Push? && out.Accepted? then s.pushed + [call.item] else s.pushed,
      popped := if out.Got? then s.popped + [out.item] else s.popped)
  }

  function Apply(s: State, a: Action): State
    requires Enabled(s, a)
  {
    match a
    case Invoke(t, call) => Goto(s, t, Enter(call))
    case Wake(t, expired) => Goto(s, t, Woken(s.procs[t].call, expired))
    case Step(t, target) =>
      match s.procs[t]
      case Enter(call) => Goto(s, t, Check(call, false, false)).(owner := Some(t))
      case Woken(call, expired) => Goto(s, t, Check(call, true, expired)).(owner := Some(t))
      case Check(call, _, expired) => CheckStep(s, t, call, expired)
      case Signal(call, out) => Goto(s.(procs := NotifyOne(s.procs, target)), t, Leave(call, out))
      case WakePushers => Goto(s.(procs := NotifyAll(s.procs, true)), t, WakePoppers)
      case WakePoppers => Goto(s.(procs := NotifyAll(s.procs, false)), t, Leave(Shutdown, Finished))
      case Leave(call, out) => LeaveStep(s, t, call, out)
  }

  function Init(n: nat, capacity: nat): State
  {
    State(seq(n, _ => Idle), None, capacity, Shared([], false), [], [], [], [])
  }

  ghost predicate Legal(s: State, run: seq<Action>)
    decreases |run|
  {
    run == [] || (Enabled(s, run[0]) && Legal(Apply(s, run[0]), run[1..]))
  }

  ghost function After(s: State, run: seq<Action>): State
    requires Legal(s, run)
    decreases |run|
  {
    if run == [] then s else After(Apply(s, run[0]), run[1..])
  }
}
