/** What the queue's invariant means to its users: nobody sleeps without reason, nothing is lost,
    and Shutdown lets everybody go. */
module BlockingQueueTheorems {
  import opened Prelude
  import opened BlockingQueue
  import opened BlockingQueueSafety

  /** The thread will take a step of its own accord. */
  predicate Awake(pc: Pc) { !pc.Idle? && !pc.Asleep? }

  ghost predicate NobodyAwake(s: State)
  {
    forall t :: 0 <= t < |s.procs| ==> !Awake(s.procs[t])
  }

  /** In every reachable state: if a popper sleeps un-notified, the items are at most as many as the
      poppers that were woken and will look again plus the signals under way; likewise for pushers and slots. */
  lemma NoLostWakeups(n: nat, capacity: nat, run: seq<Action>)
    requires capacity > 0 && Legal(Init(n, capacity), run)
    ensures var s := After(Init(n, capacity), run);
      && s.capacity == capacity
      && NoLostWakeup(TallyOf(s.procs), |s.q.items|, capacity)
  {
    InitInv(n, capacity);
    RunKeeps(Init(n, capacity), run);
  }

  lemma NobodyLooks(s: State)
    requires NobodyAwake(s)
    ensures var c := TallyOf(s.procs); c.lookPop == 0 && c.lookPush == 0 && c.sigPop == 0 && c.sigPush == 0
  {
    CountZero(s.procs, LookPop);
    CountZero(s.procs, LookPush);
    CountZero(s.procs, SigPop);
    CountZero(s.procs, SigPush);
  }

  /** When nobody is awake, every sleeper has a reason: poppers sleep on an empty queue, pushers on a full
      one, never both at once, and nobody sleeps after shutdown. */
  lemma SleepersAreJustified(s: State, t: nat)
    requires Inv(s) && NobodyAwake(s) && t < |s.procs| && s.procs[t].Asleep?
    ensures !s.q.shutdown
    ensures s.procs[t].call.Pop? ==> s.q.items == []
    ensures s.procs[t].call.Push? ==> |s.q.items| == s.capacity
    ensures forall u :: 0 <= u < |s.procs| && s.procs[u].Asleep? ==> s.procs[u].call.Pop? == s.procs[t].call.Pop?
  {
    NobodyLooks(s);
    CountZero(s.procs, SleepPop);
    CountZero(s.procs, SleepPush);
    forall u | 0 <= u < |s.procs| && s.procs[u].Asleep?
      ensures !s.q.shutdown && (s.procs[u].call.Pop? ==> s.q.items == [])
              && (s.procs[u].call.Push? ==> |s.q.items| == s.capacity)
    {
      assert WellTyped(s.procs[u]);
      assert Is(s.procs[u], SleepPop) || Is(s.procs[u], SleepPush);
    }
    assert forall u :: 0 <= u < |s.procs| ==> WellTyped(s.procs[u]);
  }

  /** A sleeping producer and a sleeping consumer never coexist with nobody awake. */
  lemma BothSidesNeverStuck(s: State, t: nat, u: nat)
    requires Inv(s) && t < |s.procs| && u < |s.procs|
    requires SleepsToPop(s.procs[t]) && SleepsToPush(s.procs[u])
    ensures exists v :: 0 <= v < |s.procs| && Awake(s.procs[v])
  {
    if NobodyAwake(s) {
      SleepersAreJustified(s, t);
    }
  }

  /** The mutex itself never blocks the system: if anyone is awake, someone can step. */
  lemma SomeoneCanStep(s: State, t: nat) returns (u: nat, target: Option<nat>)
    requires Inv(s) && t < |s.procs| && Awake(s.procs[t])
    ensures Enabled(s, Step(u, target))
  {
    u := if s.owner.Some? then s.owner.value else t;
    target := None;
    if s.procs[u].Signal? {
      var call := s.procs[u].call;
      if v :| 0 <= v < |s.procs| && Hears(s.procs[v], call) {
        target := Some(v);
      }
    }
  }

  // ---------------------------------------------------------------------------------------------
  // Conservation and order

  /** First in, first out: the items that have left the buffer are a prefix of those that entered it,
      the rest are in the buffer in order, and the buffer never exceeds its capacity. */
  lemma FirstInFirstOut(n: nat, capacity: nat, run: seq<Action>)
    requires capacity > 0 && Legal(Init(n, capacity), run)
    ensures var s := After(Init(n, capacity), run);
      s.accepted == s.delivered + s.q.items && s.delivered <= s.accepted && |s.q.items| <= capacity
  {
    InitInv(n, capacity);
    RunKeeps(Init(n, capacity), run);
  }

  /** At rest, what successful pushes were given is exactly what successful pops returned plus what is
      still buffered; rejected and timed-out pushes contribute nothing. */
  lemma NothingLostOrInvented(s: State, x: Item)
    requires Inv(s) && forall t :: 0 <= t < |s.procs| ==> s.procs[t].Idle? || s.procs[t].Asleep?
    ensures Occurs(s.pushed, x) == Occurs(s.popped, x) + Occurs(s.q.items, x)
  {
    assert LedgerOk(s, x);
    NoFlight(s.procs, true, x);
    NoFlight(s.procs, false, x);
    OccursConcat(s.delivered, s.q.items, s.accepted, x);
  }

  lemma {:induction false} NoFlight(procs: seq<Pc>, push: bool, x: Item)
    requires forall u :: 0 <= u < |procs| ==> procs[u].Idle? || procs[u].Asleep?
    ensures Flight(procs, push, x) == 0
    decreases |procs|
  {
    if procs != [] {
      NoFlight(procs[..|procs| - 1], push, x);
    }
  }

  // ---------------------------------------------------------------------------------------------
  // Shutdown

  /** Shutdown has done its work: the flag is set and nobody sleeps. */
  ghost predicate Down(s: State)
  {
    s.q.shutdown && TallyOf(s.procs).sleepPop == 0 && TallyOf(s.procs).sleepPush == 0
  }

  /** The last notify_all of any Shutdown call brings the queue down. */
  lemma ShutdownBringsDown(s: State, t: nat, target: Option<nat>)
    requires Inv(s) && Enabled(s, Step(t, target)) && s.procs[t].WakePoppers?
    ensures Down(Apply(s, Step(t, target)))
  {
    TallyNotifyAll(s.procs, false);
    TallyMoves(NotifyAll(s.procs, false), t, Leave(Shutdown, Finished));
  }

  lemma NobodySleeps(s: State)
    requires Inv(s) && Down(s)
    ensures forall t :: 0 <= t < |s.procs| ==> !s.procs[t].Asleep?
  {
    CountZero(s.procs, SleepPop);
    CountZero(s.procs, SleepPush);
    forall t | 0 <= t < |s.procs| ensures !s.procs[t].Asleep? {
      assert WellTyped(s.procs[t]) && !Is(s.procs[t], SleepPop) && !Is(s.procs[t], SleepPush);
    }
  }

  lemma NobodySleepsMeansDown(s: State)
    requires s.q.shutdown && forall t :: 0 <= t < |s.procs| ==> !s.procs[t].Asleep?
    ensures Down(s)
  {
    CountZero(s.procs, SleepPop);
    CountZero(s.procs, SleepPush);
  }

  lemma StaysDown(s: State, a: Action)
    requires Inv(s) && Down(s) && Enabled(s, a)
    ensures Down(Apply(s, a)) && Apply(s, a).accepted == s.accepted && !a.Wake?
  {
    NobodySleeps(s);
    NobodySleepsMeansDown(Apply(s, a));
  }

  /** Steps left for a thread once nobody waits any more. */
  function Rank(pc: Pc): nat
  {
    match pc
    case Idle => 0
    case Enter(_) => 5
    case Woken(_, _) => 5
    case Asleep(_) => 6
    case Check(_, _, _) => 4
    case WakePushers => 3
    case WakePoppers => 2
    case Signal(_, _) => 2
    case Leave(_, _) => 1
  }

  function Work(procs: seq<Pc>): nat
  {
    if procs == [] then 0 else Work(procs[..|procs| - 1]) + Rank(procs[|procs| - 1])
  }

  lemma {:induction false} WorkUpdate(procs: seq<Pc>, t: nat, pc: Pc)
    requires t < |procs|
    ensures Work(procs[t := pc]) + Rank(procs[t]) == Work(procs) + Rank(pc)
    decreases |procs|
  {
    var n := |procs| - 1;
    if t == n {
      assert procs[t := pc][..n] == procs[..n];
    } else {
      WorkUpdate(procs[..n], t, pc);
      assert procs[t := pc][..n] == procs[..n][t := pc];
    }
  }

  lemma RankDrops(s: State, t: nat, target: Option<nat>)
    requires Enabled(s, Step(t, target)) && s.q.shutdown
    ensures t < |Apply(s, Step(t, target)).procs| && Rank(Apply(s, Step(t, target)).procs[t]) < Rank(s.procs[t])
  {
  }

  lemma DownStep(s: State, t: nat, target: Option<nat>)
    requires Inv(s) && Down(s) && Enabled(s, Step(t, target))
    ensures Work(Apply(s, Step(t, target)).procs) < Work(s.procs)
  {
    NobodySleeps(s);
    var s' := Apply(s, Step(t, target));
    RousedMutex(s, Step(t, target));
    assert Roused(s, Step(t, target)) == s.procs;
    RankDrops(s, t, target);
    WorkUpdate(s.procs, t, s'.procs[t]);
  }

  /** After shutdown: nobody sleeps again, nothing more is accepted, and as long as no new call comes in
      every pending call finishes within a bounded number of steps. */
  lemma {:induction false} ShutdownDrains(s: State, run: seq<Action>)
    requires Inv(s) && Down(s) && Legal(s, run)
    ensures var end := After(s, run);
      && Down(end) && Inv(end) && end.accepted == s.accepted
      && (forall t :: 0 <= t < |end.procs| ==> !end.procs[t].Asleep?)
      && ((forall a :: a in run ==> !a.Invoke?) ==> Work(end.procs) + |run| <= Work(s.procs))
    decreases |run|
  {
    NobodySleeps(s);
    if run != [] {
      var a := run[0];
      ActionKeeps(s, a);
      StaysDown(s, a);
      if a.Step? { DownStep(s, a.t, a.target); }
      assert forall b :: b in run[1..] ==> b in run;
      ShutdownDrains(Apply(s, a), run[1..]);
    }
  }

  // ---------------------------------------------------------------------------------------------
  // What a call returns with

  /** A thread that leaves still holds the mutex, so its outcome can be compared with the queue as it is. */
  predicate OutcomeOk(pc: Pc, q: Shared, capacity: nat)
  {
    match pc
    case Woken(call, expired) => expired ==> !call.Shutdown? && call.timed
    case Check(call, _, expired) => expired ==> !call.Shutdown? && call.timed
    case Leave(call, out) =>
      (match call
       case Push(_, timed) =>
         || out.Accepted?
         || (out.ShutDown? && q.shutdown)
         || (out.TimedOut? && timed && !q.shutdown && |q.items| >= capacity)
       case Pop(timed) =>
         || out.Got?
         || (out.Empty? && q.shutdown && q.items == [])
         || (out.TimedOut? && timed && !q.shutdown && q.items == [])
       case Shutdown => out.Finished? && q.shutdown)
    case WakePushers => q.shutdown
    case WakePoppers => q.shutdown
    case _ => true
  }

  ghost predicate OutcomesOk(s: State)
  {
    forall t :: 0 <= t < |s.procs| ==> OutcomeOk(s.procs[t], s.q, s.capacity)
  }

  lemma OwnOutcome(s: State, a: Action)
    requires OutcomesOk(s) && Enabled(s, a) && WellTyped(s.procs[a.t])
    ensures a.t < |Apply(s, a).procs| && OutcomeOk(Apply(s, a).procs[a.t], Apply(s, a).q, s.capacity)
  {
    assert OutcomeOk(s.procs[a.t], s.q, s.capacity);
  }

  /** Only the owner of the mutex changes the queue, and then nobody else is leaving. */
  lemma OtherOutcome(s: State, a: Action, u: nat)
    requires OutcomesOk(s) && MutexOk(s.procs, s.owner) && Enabled(s, a) && u < |s.procs| && u != a.t
    ensures u < |Apply(s, a).procs| && OutcomeOk(Apply(s, a).procs[u], Apply(s, a).q, s.capacity)
  {
    RousedMutex(s, a);
    assert OutcomeOk(s.procs[u], s.q, s.capacity);
    assert Apply(s, a).procs[u] == Roused(s, a)[u];
    assert Roused(s, a)[u] == s.procs[u] || Roused(s, a)[u] == Rouse(s.procs[u]);
    assert HoldsMutex(s.procs[u]) ==> !a.Step?;
  }

  lemma {:induction false} OutcomesKept(s: State, run: seq<Action>)
    requires Inv(s) && OutcomesOk(s) && Legal(s, run)
    ensures OutcomesOk(After(s, run))
    decreases |run|
  {
    if run != [] {
      var s' := Apply(s, run[0]);
      ActionKeeps(s, run[0]);
      forall u | 0 <= u < |s'.procs| ensures OutcomeOk(s'.procs[u], s'.q, s'.capacity) {
        if u == run[0].t { OwnOutcome(s, run[0]); } else { OtherOutcome(s, run[0], u); }
      }
      OutcomesKept(s', run[1..]);
    }
  }

  /** In every run: a Push returns Accepted, or ShutDown from a queue that is shut down, or, if it is timed and its
      time has passed, TimedOut from a full queue that is not; a Pop returns an item, or Empty from a drained
      queue that is shut down, or, if timed, TimedOut from an empty queue that is not. */
  lemma OutcomesAreTruthful(n: nat, capacity: nat, run: seq<Action>, t: nat)
    requires capacity > 0 && Legal(Init(n, capacity), run) && t < n
    ensures var s := After(Init(n, capacity), run);
      t < |s.procs| && OutcomeOk(s.procs[t], s.q, capacity)
  {
    InitInv(n, capacity);
    RunKeeps(Init(n, capacity), run);
    OutcomesKept(Init(n, capacity), run);
  }

  /** A Pop about to report "empty" has found the queue shut down and drained. */
  ghost predicate EmptyMeansDrained(s: State)
  {
    forall t :: 0 <= t < |s.procs| && s.procs[t].Leave? && s.procs[t].out.Empty? ==>
      s.q.shutdown && s.q.items == []
  }

  lemma EmptyStep(s: State, a: Action)
    requires EmptyMeansDrained(s) && MutexOk(s.procs, s.owner) && Enabled(s, a)
    ensures EmptyMeansDrained(Apply(s, a))
  {
    RousedMutex(s, a);
    assert a.Step? && s.q.shutdown && s.q.items == [] ==> Apply(s, a).q == s.q;
  }

  /** An empty result means that every accepted item had already been delivered. */
  ghost predicate EmptyIsTruthful(s: State)
  {
    forall t :: 0 <= t < |s.procs| && s.procs[t].Leave? && s.procs[t].out.Empty? ==>
      s.q.shutdown && s.accepted == s.delivered
  }

  lemma {:induction false} EmptyResult(s: State, run: seq<Action>)
    requires Inv(s) && EmptyMeansDrained(s) && Legal(s, run)
    ensures EmptyIsTruthful(After(s, run))
    decreases |run|
  {
    if run != [] {
      ActionKeeps(s, run[0]);
      EmptyStep(s, run[0]);
      EmptyResult(Apply(s, run[0]), run[1..]);
    } else if s.q.items == [] {
      assert s.delivered + s.q.items == s.delivered;
    }
  }
}
