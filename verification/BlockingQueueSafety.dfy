/** What every step of the queue monitor keeps: no wakeup is lost, no item is lost, duplicated or reordered. */
module BlockingQueueSafety {
  import opened Prelude
  import opened BlockingQueue

  // ---------------------------------------------------------------------------------------------
  // Counting threads

  /** Threads asleep, threads that have been woken and will look again, and threads about to signal,
      on the popping side and on the pushing side. */
  datatype Kind = SleepPop | SleepPush | LookPop | LookPush | SigPop | SigPush

  predicate LooksAgain(pc: Pc) { pc.Woken? || (pc.Check? && pc.woken) }

  predicate Is(pc: Pc, k: Kind)
  {
    match k
    case SleepPop => SleepsToPop(pc)
    case SleepPush => SleepsToPush(pc)
    case LookPop => LooksAgain(pc) && pc.call.Pop?
    case LookPush => LooksAgain(pc) && pc.call.Push?
    case SigPop => pc.Signal? && pc.call.Push?
    case SigPush => pc.Signal? && pc.call.Pop?
  }

  function Times(b: bool): nat { if b then 1 else 0 }

  function Count(procs: seq<Pc>, k: Kind): nat
  {
    if procs == [] then 0 else Count(procs[..|procs| - 1], k) + Times(Is(procs[|procs| - 1], k))
  }

  lemma {:induction false} CountUpdate(procs: seq<Pc>, t: nat, pc: Pc, k: Kind)
    requires t < |procs|
    ensures Count(procs[t := pc], k) + Times(Is(procs[t], k)) == Count(procs, k) + Times(Is(pc, k))
    decreases |procs|
  {
    var n := |procs| - 1;
    if t == n {
      assert procs[t := pc][..n] == procs[..n];
    } else {
      CountUpdate(procs[..n], t, pc, k);
      assert procs[t := pc][..n] == procs[..n][t := pc];
    }
  }

  /** All six counts, so that a step can be argued by arithmetic alone. */
  datatype Tally = Tally(sleepPop: nat, sleepPush: nat, lookPop: nat, lookPush: nat, sigPop: nat, sigPush: nat)

  function TallyOf(procs: seq<Pc>): Tally
  {
    Tally(Count(procs, SleepPop), Count(procs, SleepPush), Count(procs, LookPop), Count(procs, LookPush),
          Count(procs, SigPop), Count(procs, SigPush))
  }

  /** `c'` counts what `c` counts after one thread has moved from `pc` to `pc'`. */
  predicate Moved(c: Tally, c': Tally, pc: Pc, pc': Pc)
  {
    && c'.sleepPop + Times(Is(pc, SleepPop)) == c.sleepPop + Times(Is(pc', SleepPop))
    && c'.sleepPush + Times(Is(pc, SleepPush)) == c.sleepPush + Times(Is(pc', SleepPush))
    && c'.lookPop + Times(Is(pc, LookPop)) == c.lookPop + Times(Is(pc', LookPop))
    && c'.lookPush + Times(Is(pc, LookPush)) == c.lookPush + Times(Is(pc', LookPush))
    && c'.sigPop + Times(Is(pc, SigPop)) == c.sigPop + Times(Is(pc', SigPop))
    && c'.sigPush + Times(Is(pc, SigPush)) == c.sigPush + Times(Is(pc', SigPush))
  }

  lemma TallyMoves(procs: seq<Pc>, t: nat, pc: Pc)
    requires t < |procs|
    ensures Moved(TallyOf(procs), TallyOf(procs[t := pc]), procs[t], pc)
  {
    CountUpdate(procs, t, pc, SleepPop);
    CountUpdate(procs, t, pc, SleepPush);
    CountUpdate(procs, t, pc, LookPop);
    CountUpdate(procs, t, pc, LookPush);
    CountUpdate(procs, t, pc, SigPop);
    CountUpdate(procs, t, pc, SigPush);
  }

  lemma {:induction false} CountZero(procs: seq<Pc>, k: Kind)
    ensures Count(procs, k) == 0 <==> forall u :: 0 <= u < |procs| ==> !Is(procs[u], k)
    decreases |procs|
  {
    if procs != [] {
      var n := |procs| - 1;
      CountZero(procs[..n], k);
      assert forall u :: 0 <= u < n ==> procs[..n][u] == procs[u];
    }
  }

  lemma {:induction false} CountSame(procs: seq<Pc>, procs': seq<Pc>, k: Kind)
    requires |procs| == |procs'| && forall u :: 0 <= u < |procs| ==> Is(procs[u], k) == Is(procs'[u], k)
    ensures Count(procs, k) == Count(procs', k)
    decreases |procs|
  {
    if procs != [] {
      var n := |procs| - 1;
      CountSame(procs[..n], procs'[..n], k);
    }
  }

  /** notify_all leaves no sleeper on its side and does not touch the other side. */
  lemma TallyNotifyAll(procs: seq<Pc>, pushers: bool)
    ensures var c := TallyOf(procs); var c' := TallyOf(NotifyAll(procs, pushers));
      if pushers
      then c'.sleepPush == 0 && c'.sleepPop == c.sleepPop && c'.lookPop == c.lookPop && c'.sigPop == c.sigPop
      else c'.sleepPop == 0 && c'.sleepPush == c.sleepPush && c'.lookPush == c.lookPush && c'.sigPush == c.sigPush
  {
    var procs' := NotifyAll(procs, pushers);
    if pushers {
      CountZero(procs', SleepPush);
      CountSame(procs, procs', SleepPop);
      CountSame(procs, procs', LookPop);
      CountSame(procs, procs', SigPop);
    } else {
      CountZero(procs', SleepPop);
      CountSame(procs, procs', SleepPush);
      CountSame(procs, procs', LookPush);
      CountSame(procs, procs', SigPush);
    }
  }

  // ---------------------------------------------------------------------------------------------
  // Items between the buffer and a return

  /** How often `x` appears. */
  function Occurs(items: seq<Item>, x: Item): nat
  {
    if items == [] then 0 else Occurs(items[..|items| - 1], x) + Times(items[|items| - 1] == x)
  }

  lemma OccursAppend(items: seq<Item>, y: Item, x: Item)
    ensures Occurs(items + [y], x) == Occurs(items, x) + Times(y == x)
  {
    assert (items + [y])[..|items|] == items;
  }

  lemma {:induction false} OccursConcat(a: seq<Item>, b: seq<Item>, ab: seq<Item>, x: Item)
    requires ab == a + b
    ensures Occurs(ab, x) == Occurs(a, x) + Occurs(b, x)
    decreases |b|
  {
    if b == [] {
      assert ab == a;
    } else {
      assert ab[..|ab| - 1] == a + b[..|b| - 1];
      OccursConcat(a, b[..|b| - 1], ab[..|ab| - 1], x);
      assert ab[|ab| - 1] == b[|b| - 1];
    }
  }

  /** Is the thread about to return from a push of `x`, or from a pop that took `x`? */
  predicate Carries(pc: Pc, push: bool, x: Item)
  {
    (pc.Signal? || pc.Leave?) &&
    if push then pc.call.Push? && pc.out.Accepted? && pc.call.item == x else pc.out == Got(x)
  }

  function Flight(procs: seq<Pc>, push: bool, x: Item): nat
  {
    if procs == [] then 0 else Flight(procs[..|procs| - 1], push, x) + Times(Carries(procs[|procs| - 1], push, x))
  }

  lemma {:induction false} FlightUpdate(procs: seq<Pc>, t: nat, pc: Pc, push: bool, x: Item)
    requires t < |procs|
    ensures Flight(procs[t := pc], push, x) + Times(Carries(procs[t], push, x))
            == Flight(procs, push, x) + Times(Carries(pc, push, x))
    decreases |procs|
  {
    var n := |procs| - 1;
    if t == n {
      assert procs[t := pc][..n] == procs[..n];
    } else {
      FlightUpdate(procs[..n], t, pc, push, x);
      assert procs[t := pc][..n] == procs[..n][t := pc];
    }
  }

  lemma {:induction false} FlightSame(procs: seq<Pc>, procs': seq<Pc>, push: bool, x: Item)
    requires |procs| == |procs'|
    requires forall u :: 0 <= u < |procs| ==> Carries(procs[u], push, x) == Carries(procs'[u], push, x)
    ensures Flight(procs, push, x) == Flight(procs', push, x)
    decreases |procs|
  {
    if procs != [] {
      var n := |procs| - 1;
      FlightSame(procs[..n], procs'[..n], push, x);
    }
  }

  // ---------------------------------------------------------------------------------------------
  // The invariant

  predicate WellTyped(pc: Pc)
  {
    match pc
    case Asleep(call) => !call.Shutdown?
    case Woken(call, _) => !call.Shutdown?
    case Check(call, woken, _) => woken ==> !call.Shutdown?
    case Signal(call, out) => (call.Push? && out.Accepted?) || (call.Pop? && out.Got?)
    case _ => true
  }

  ghost predicate MutexOk(procs: seq<Pc>, owner: Option<nat>)
  {
    && (forall t :: 0 <= t < |procs| ==> WellTyped(procs[t]) && (HoldsMutex(procs[t]) ==> owner == Some(t)))
    && (owner.Some? ==> owner.value < |procs| && HoldsMutex(procs[owner.value]))
  }

  /** No lost wakeups. If a popper sleeps, then the `n` buffered items are spoken for: by poppers that
      have been woken and will look again, or by a push that is about to signal. Likewise for pushers
      and free slots. */
  predicate NoLostWakeup(c: Tally, n: nat, capacity: nat)
  {
    && (c.sleepPop > 0 ==> n <= c.lookPop + c.sigPop)
    && (c.sleepPush > 0 ==> capacity - n <= c.lookPush + c.sigPush)
  }

  /** Is the owner of the mutex in the middle of Shutdown's notifications? */
  datatype Broadcast = Quiet | ToPushers | ToPoppers

  function BroadcastAt(pc: Pc): Broadcast
  {
    if pc.WakePushers? then ToPushers else if pc.WakePoppers? then ToPoppers else Quiet
  }

  function BroadcastOf(procs: seq<Pc>, owner: Option<nat>): Broadcast
  {
    if owner.Some? && owner.value < |procs| then BroadcastAt(procs[owner.value]) else Quiet
  }

  /** After shutdown nobody sleeps, except while Shutdown itself is still notifying. */
  predicate ShutdownOk(c: Tally, shutdown: bool, b: Broadcast)
  {
    && (shutdown && c.sleepPush > 0 ==> b == ToPushers)
    && (shutdown && c.sleepPop > 0 ==> b != Quiet)
    && (b != Quiet ==> shutdown)
  }

  ghost predicate CountsOk(s: State)
  {
    && NoLostWakeup(TallyOf(s.procs), |s.q.items|, s.capacity)
    && ShutdownOk(TallyOf(s.procs), s.q.shutdown, BroadcastOf(s.procs, s.owner))
  }

  ghost predicate BufferOk(s: State)
  {
    && s.capacity > 0 && |s.q.items| <= s.capacity
    && s.accepted == s.delivered + s.q.items
  }

  /** For each value: what has entered the buffer is what successful pushes have returned for or are
      about to; what has left it is what successful pops have returned or are about to. */
  ghost predicate LedgerOk(s: State, x: Item)
  {
    && Occurs(s.accepted, x) == Occurs(s.pushed, x) + Flight(s.procs, true, x)
    && Occurs(s.delivered, x) == Occurs(s.popped, x) + Flight(s.procs, false, x)
  }

  ghost predicate Inv(s: State)
  {
    MutexOk(s.procs, s.owner) && CountsOk(s) && BufferOk(s) && (forall x :: LedgerOk(s, x))
  }

  // ---------------------------------------------------------------------------------------------
  // One lemma per kind of step

  /** A thread that takes, keeps, gives up or never touches the mutex leaves it well kept. */
  lemma MutexMove(procs: seq<Pc>, owner: Option<nat>, t: nat, pc: Pc, owner': Option<nat>)
    requires MutexOk(procs, owner) && t < |procs| && WellTyped(pc)
    requires if HoldsMutex(pc) then owner' == Some(t) && (owner == None || owner == Some(t))
             else if HoldsMutex(procs[t]) then owner' == None else owner' == owner
    ensures MutexOk(procs[t := pc], owner')
  {
  }

  predicate Plain(s: State, a: Action)
  {
    a.Step? ==> a.t < |s.procs| && (s.procs[a.t].Enter? || s.procs[a.t].Woken? || s.procs[a.t].Leave?)
  }

  /** Calls, wakeups, and taking or leaving the mutex. */
  lemma PlainCounts(s: State, a: Action)
    requires MutexOk(s.procs, s.owner) && CountsOk(s) && Enabled(s, a) && Plain(s, a)
    ensures CountsOk(Apply(s, a))
  {
    TallyMoves(s.procs, a.t, Apply(s, a).procs[a.t]);
  }

  lemma PushCounts(s: State, t: nat, expired: bool)
    requires MutexOk(s.procs, s.owner) && CountsOk(s) && t < |s.procs| && s.procs[t].Check? && s.procs[t].call.Push?
    ensures CountsOk(CheckStep(s, t, s.procs[t].call, expired))
  {
    TallyMoves(s.procs, t, CheckStep(s, t, s.procs[t].call, expired).procs[t]);
  }

  lemma PopCounts(s: State, t: nat, expired: bool)
    requires MutexOk(s.procs, s.owner) && CountsOk(s) && t < |s.procs| && s.procs[t].Check? && s.procs[t].call.Pop?
    ensures CountsOk(CheckStep(s, t, s.procs[t].call, expired))
  {
    TallyMoves(s.procs, t, CheckStep(s, t, s.procs[t].call, expired).procs[t]);
  }

  /** From `c` to `c'` a signal is delivered, to a sleeper of the other side if `woke`. */
  predicate Delivered(c: Tally, c': Tally, push: bool, woke: bool)
  {
    var w := Times(woke);
    if push
    then c' == c.(sleepPop := c'.sleepPop, lookPop := c'.lookPop, sigPop := c'.sigPop)
         && c'.sleepPop + w == c.sleepPop && c'.lookPop == c.lookPop + w && c'.sigPop + 1 == c.sigPop
         && (!woke ==> c.sleepPop == 0)
    else c' == c.(sleepPush := c'.sleepPush, lookPush := c'.lookPush, sigPush := c'.sigPush)
         && c'.sleepPush + w == c.sleepPush && c'.lookPush == c.lookPush + w && c'.sigPush + 1 == c.sigPush
         && (!woke ==> c.sleepPush == 0)
  }

  lemma SignalSleeper(procs: seq<Pc>, t: nat, u: nat)
    requires t < |procs| && procs[t].Signal? && WellTyped(procs[t]) && u < |procs| && Hears(procs[u], procs[t].call)
    ensures var procs' := procs[u := Rouse(procs[u])][t := Leave(procs[t].call, procs[t].out)];
      Delivered(TallyOf(procs), TallyOf(procs'), procs[t].call.Push?, true)
  {
    TallyMoves(procs, u, Rouse(procs[u]));
    TallyMoves(procs[u := Rouse(procs[u])], t, Leave(procs[t].call, procs[t].out));
  }

  lemma SignalNobody(procs: seq<Pc>, t: nat)
    requires t < |procs| && procs[t].Signal? && WellTyped(procs[t])
    requires forall u :: 0 <= u < |procs| ==> !Hears(procs[u], procs[t].call)
    ensures Delivered(TallyOf(procs), TallyOf(procs[t := Leave(procs[t].call, procs[t].out)]), procs[t].call.Push?, false)
  {
    CountZero(procs, if procs[t].call.Push? then SleepPop else SleepPush);
    TallyMoves(procs, t, Leave(procs[t].call, procs[t].out));
  }

  lemma DeliveredKeeps(c: Tally, c': Tally, push: bool, woke: bool, n: nat, capacity: nat, shutdown: bool)
    requires Delivered(c, c', push, woke) && NoLostWakeup(c, n, capacity) && ShutdownOk(c, shutdown, Quiet)
    ensures NoLostWakeup(c', n, capacity) && ShutdownOk(c', shutdown, Quiet)
  {
  }

  /** notify_one hands the item, or the slot, to one sleeper, if there is one. */
  lemma SignalCounts(s: State, t: nat, target: Option<nat>)
    requires MutexOk(s.procs, s.owner) && CountsOk(s) && Enabled(s, Step(t, target)) && s.procs[t].Signal?
    ensures CountsOk(Apply(s, Step(t, target)))
  {
    var Signal(call, out) := s.procs[t];
    var procs' := NotifyOne(s.procs, target)[t := Leave(call, out)];
    if target.Some? { SignalSleeper(s.procs, t, target.value); } else { SignalNobody(s.procs, t); }
    assert s.owner == Some(t) && BroadcastOf(s.procs, s.owner) == Quiet && BroadcastOf(procs', s.owner) == Quiet;
    DeliveredKeeps(TallyOf(s.procs), TallyOf(procs'), call.Push?, target.Some?, |s.q.items|, s.capacity, s.q.shutdown);
  }

  lemma BroadcastCounts(s: State, t: nat, target: Option<nat>)
    requires MutexOk(s.procs, s.owner) && CountsOk(s) && Enabled(s, Step(t, target))
    requires s.procs[t].WakePushers? || s.procs[t].WakePoppers?
    ensures CountsOk(Apply(s, Step(t, target)))
  {
    var pushers := s.procs[t].WakePushers?;
    TallyNotifyAll(s.procs, pushers);
    TallyMoves(NotifyAll(s.procs, pushers), t, Apply(s, Step(t, target)).procs[t]);
  }

  lemma ShutdownCounts(s: State, t: nat, expired: bool)
    requires MutexOk(s.procs, s.owner) && CountsOk(s) && t < |s.procs| && s.procs[t].Check? && s.procs[t].call.Shutdown?
    ensures CountsOk(CheckStep(s, t, s.procs[t].call, expired))
  {
    TallyMoves(s.procs, t, WakePushers);
  }

  lemma CountsKeep(s: State, a: Action)
    requires MutexOk(s.procs, s.owner) && CountsOk(s) && Enabled(s, a)
    ensures CountsOk(Apply(s, a))
  {
    if Plain(s, a) {
      PlainCounts(s, a);
    } else if s.procs[a.t].Check? {
      match s.procs[a.t].call {
        case Push(_, _) => PushCounts(s, a.t, s.procs[a.t].expired);
        case Pop(_) => PopCounts(s, a.t, s.procs[a.t].expired);
        case Shutdown => ShutdownCounts(s, a.t, s.procs[a.t].expired);
      }
    } else if s.procs[a.t].Signal? {
      SignalCounts(s, a.t, a.target);
    } else {
      BroadcastCounts(s, a.t, a.target);
    }
  }

  /** The threads after notifications and before the acting thread itself moves. */
  function Roused(s: State, a: Action): seq<Pc>
    requires Enabled(s, a)
  {
    if a.Step? && s.procs[a.t].Signal? then NotifyOne(s.procs, a.target)
    else if a.Step? && s.procs[a.t].WakePushers? then NotifyAll(s.procs, true)
    else if a.Step? && s.procs[a.t].WakePoppers? then NotifyAll(s.procs, false)
    else s.procs
  }

  lemma RousedMutex(s: State, a: Action)
    requires MutexOk(s.procs, s.owner) && Enabled(s, a)
    ensures |Roused(s, a)| == |s.procs| && MutexOk(Roused(s, a), s.owner)
    ensures a.t < |s.procs| && Roused(s, a)[a.t] == s.procs[a.t]
    ensures Apply(s, a).procs == Roused(s, a)[a.t := Apply(s, a).procs[a.t]]
  {
  }

  lemma MutexKeeps(s: State, a: Action)
    requires MutexOk(s.procs, s.owner) && Enabled(s, a)
    ensures MutexOk(Apply(s, a).procs, Apply(s, a).owner)
  {
    RousedMutex(s, a);
    MutexMove(Roused(s, a), s.owner, a.t, Apply(s, a).procs[a.t], Apply(s, a).owner);
  }

  lemma BufferKeeps(s: State, a: Action)
    requires BufferOk(s) && Enabled(s, a)
    ensures BufferOk(Apply(s, a))
  {
    if a.Step? && s.procs[a.t].Check? && s.procs[a.t].call.Pop? && s.q.items != [] {
      assert s.q.items == [s.q.items[0]] + s.q.items[1..];
    }
  }

  /** Booking over plain numbers: `a` and `p` are the entries before, `a'` and `p'` those after. */
  predicate Balanced(a: nat, p: nat, had: bool, a': nat, p': nat, has: bool)
  {
    a' + p + Times(had) == a + p' + Times(has)
  }

  /** Thread `t` books an item in the history exactly when it picks it up or returns for it. */
  ghost predicate Booked(s: State, s': State, t: nat, x: Item)
    requires t < |s.procs| && t < |s'.procs|
  {
    && Balanced(Occurs(s.accepted, x), Occurs(s.pushed, x), Carries(s.procs[t], true, x),
                Occurs(s'.accepted, x), Occurs(s'.pushed, x), Carries(s'.procs[t], true, x))
    && Balanced(Occurs(s.delivered, x), Occurs(s.popped, x), Carries(s.procs[t], false, x),
                Occurs(s'.delivered, x), Occurs(s'.popped, x), Carries(s'.procs[t], false, x))
  }

  /** A push puts its item into the history when it gets it into the buffer, and carries it from then on. */
  lemma PushMove(s: State, t: nat, expired: bool)
    requires t < |s.procs| && s.procs[t].Check? && s.procs[t].call.Push?
    ensures var s' := CheckStep(s, t, s.procs[t].call, expired); var call := s.procs[t].call;
      && |s'.procs| == |s.procs| && s'.delivered == s.delivered && s'.pushed == s.pushed && s'.popped == s.popped
      && if s'.procs[t].Signal? then s'.procs[t] == Signal(call, Accepted) && s'.accepted == s.accepted + [call.item]
         else s'.accepted == s.accepted && forall push, x :: !Carries(s'.procs[t], push, x)
  {
  }

  lemma PushLedger(s: State, t: nat, expired: bool, x: Item)
    requires t < |s.procs| && s.procs[t].Check? && s.procs[t].call.Push?
    ensures Booked(s, CheckStep(s, t, s.procs[t].call, expired), t, x)
  {
    var s' := CheckStep(s, t, s.procs[t].call, expired);
    PushMove(s, t, expired);
    OccursAppend(s.accepted, s.procs[t].call.item, x);
    assert Balanced(Occurs(s.accepted, x), Occurs(s.pushed, x), false,
                    Occurs(s'.accepted, x), Occurs(s'.pushed, x), Carries(s'.procs[t], true, x));
  }

  lemma PopMove(s: State, t: nat, expired: bool)
    requires t < |s.procs| && s.procs[t].Check? && s.procs[t].call.Pop?
    ensures var s' := CheckStep(s, t, s.procs[t].call, expired); var call := s.procs[t].call;
      && |s'.procs| == |s.procs| && s'.accepted == s.accepted && s'.pushed == s.pushed && s'.popped == s.popped
      && if s'.procs[t].Signal?
         then s.q.items != [] && s'.procs[t] == Signal(call, Got(s.q.items[0])) && s'.delivered == s.delivered + [s.q.items[0]]
         else s'.delivered == s.delivered && forall push, x :: !Carries(s'.procs[t], push, x)
  {
  }

  lemma PopLedger(s: State, t: nat, expired: bool, x: Item)
    requires t < |s.procs| && s.procs[t].Check? && s.procs[t].call.Pop?
    ensures Booked(s, CheckStep(s, t, s.procs[t].call, expired), t, x)
  {
    var s' := CheckStep(s, t, s.procs[t].call, expired);
    PopMove(s, t, expired);
    if s.q.items != [] { OccursAppend(s.delivered, s.q.items[0], x); }
    assert Balanced(Occurs(s.delivered, x), Occurs(s.popped, x), false,
                    Occurs(s'.delivered, x), Occurs(s'.popped, x), Carries(s'.procs[t], false, x));
  }

  /** A return books the item its thread has carried. */
  lemma LeaveMove(s: State, t: nat)
    requires t < |s.procs| && s.procs[t].Leave?
    ensures var Leave(call, out) := s.procs[t]; var s' := LeaveStep(s, t, call, out);
      && |s'.procs| == |s.procs| && s'.procs[t] == Idle && s'.accepted == s.accepted && s'.delivered == s.delivered
      && s'.pushed == (if call.Push? && out.Accepted? then s.pushed + [call.item] else s.pushed)
      && s'.popped == (if out.Got? then s.popped + [out.item] else s.popped)
  {
  }

  lemma OccursMaybe(items: seq<Item>, add: bool, y: Item, x: Item, items': seq<Item>)
    requires items' == if add then items + [y] else items
    ensures Occurs(items', x) == Occurs(items, x) + Times(add && y == x)
  {
    OccursAppend(items, y, x);
  }

  lemma LeaveLedger(s: State, t: nat, x: Item)
    requires t < |s.procs| && s.procs[t].Leave?
    ensures Booked(s, LeaveStep(s, t, s.procs[t].call, s.procs[t].out), t, x)
  {
    var Leave(call, out) := s.procs[t];
    var s' := LeaveStep(s, t, call, out);
    LeaveMove(s, t);
    OccursMaybe(s.pushed, call.Push? && out.Accepted?, if call.Push? then call.item else x, x, s'.pushed);
    OccursMaybe(s.popped, out.Got?, if out.Got? then out.item else x, x, s'.popped);
    assert Balanced(Occurs(s.accepted, x), Occurs(s.pushed, x), Carries(s.procs[t], true, x),
                    Occurs(s'.accepted, x), Occurs(s'.pushed, x), false);
    assert Balanced(Occurs(s.delivered, x), Occurs(s.popped, x), Carries(s.procs[t], false, x),
                    Occurs(s'.delivered, x), Occurs(s'.popped, x), false);
  }

  /** All other steps leave the history alone and carry nothing new. */
  lemma SilentLedger(s: State, a: Action)
    requires Enabled(s, a) && WellTyped(s.procs[a.t])
    requires a.Step? && s.procs[a.t].Check? ==> s.procs[a.t].call.Shutdown?
    requires a.Step? ==> !s.procs[a.t].Leave?
    ensures var s' := Apply(s, a);
      && a.t < |s'.procs| && s'.accepted == s.accepted && s'.delivered == s.delivered
      && s'.pushed == s.pushed && s'.popped == s.popped
      && forall push, x :: Carries(s'.procs[a.t], push, x) == Carries(s.procs[a.t], push, x)
  {
  }

  lemma ThreadLedger(s: State, a: Action, x: Item)
    requires Enabled(s, a) && WellTyped(s.procs[a.t])
    ensures a.t < |Apply(s, a).procs| && Booked(s, Apply(s, a), a.t, x)
  {
    var pc := s.procs[a.t];
    if a.Step? && pc.Check? && pc.call.Push? {
      PushLedger(s, a.t, pc.expired, x);
    } else if a.Step? && pc.Check? && pc.call.Pop? {
      PopLedger(s, a.t, pc.expired, x);
    } else if a.Step? && pc.Leave? {
      LeaveLedger(s, a.t, x);
    } else {
      SilentLedger(s, a);
    }
  }

  lemma LedgerKeeps(s: State, a: Action, x: Item)
    requires MutexOk(s.procs, s.owner) && Enabled(s, a) && LedgerOk(s, x)
    ensures LedgerOk(Apply(s, a), x)
  {
    RousedMutex(s, a);
    ThreadLedger(s, a, x);
    var mid := Roused(s, a);
    FlightSame(s.procs, mid, true, x);
    FlightSame(s.procs, mid, false, x);
    FlightUpdate(mid, a.t, Apply(s, a).procs[a.t], true, x);
    FlightUpdate(mid, a.t, Apply(s, a).procs[a.t], false, x);
  }

  lemma ActionKeeps(s: State, a: Action)
    requires Inv(s) && Enabled(s, a)
    ensures Inv(Apply(s, a))
    ensures |Apply(s, a).procs| == |s.procs| && Apply(s, a).capacity == s.capacity
  {
    MutexKeeps(s, a);
    RousedMutex(s, a);
    CountsKeep(s, a);
    BufferKeeps(s, a);
    forall x ensures LedgerOk(Apply(s, a), x) {
      LedgerKeeps(s, a, x);
    }
  }

  lemma {:induction false} IdleFlight(procs: seq<Pc>, push: bool, x: Item)
    requires forall u :: 0 <= u < |procs| ==> procs[u].Idle?
    ensures Flight(procs, push, x) == 0
    decreases |procs|
  {
    if procs != [] {
      IdleFlight(procs[..|procs| - 1], push, x);
    }
  }

  lemma InitInv(n: nat, capacity: nat)
    requires capacity > 0
    ensures Inv(Init(n, capacity))
  {
    var s := Init(n, capacity);
    forall k ensures Count(s.procs, k) == 0 { CountZero(s.procs, k); }
    forall push, x ensures Flight(s.procs, push, x) == 0 {
      IdleFlight(s.procs, push, x);
    }
  }

  /** The invariant holds in every reachable state, with any number of threads, spurious wakeups,
      timeouts and barging. */
  lemma {:induction false} RunKeeps(s: State, run: seq<Action>)
    requires Inv(s) && Legal(s, run)
    ensures Inv(After(s, run))
    ensures |After(s, run).procs| == |s.procs| && After(s, run).capacity == s.capacity
    decreases |run|
  {
    if run != [] {
      ActionKeeps(s, run[0]);
      RunKeeps(Apply(s, run[0]), run[1..]);
    }
  }
}
