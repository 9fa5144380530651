/** Progress under striped locks, and what lock re-entry has to do with it. */
module DiskProgress {
  import opened Prelude
  import opened AtomicStore
  import opened DiskMachine
  import opened DiskInvariant
  import opened DiskAccounting

  /** Steps and write-back only: no new call, no crash. */
  ghost predicate Internal(run: seq<Action>)
  {
    forall a :: a in run ==> a.Step? || a.Flush?
  }

  function StepCount(run: seq<Action>): nat
  {
    if run == [] then 0 else (if run[0].Step? then 1 else 0) + StepCount(run[1..])
  }

  lemma RankDrops(h: HashFn, s: State, p: Proc, c: Choice)
    requires p.Busy? && ProcOk(h, s.chunks, s.temps, p)
    ensures WeightOf(NextProc(h, p, Entry(s, p.op.id), c), StepsLeft) < WeightOf(p, StepsLeft)
  {
  }

  lemma StepTally(cfg: Config, s: State, t: nat, c: Choice)
    requires Inv(cfg.h, s) && Enabled(cfg, s, Step(t, c))
    ensures Tally(StepProc(cfg, s, t, c).procs, StepsLeft) < Tally(s.procs, StepsLeft)
  {
    assert ProcOk(cfg.h, s.chunks, s.temps, s.procs[t]);
    RankDrops(cfg.h, s, s.procs[t], c);
    TallyUpdate(s.procs, t, StepProc(cfg, s, t, c).procs[t], StepsLeft);
  }

  /** Every open call finishes after a bounded number of steps: the measure bounds the length of any
      continuation without new calls. */
  lemma {:induction false} BoundedWork(cfg: Config, s: State, run: seq<Action>)
    requires Inv(cfg.h, s) && Legal(cfg, s, run) && Internal(run)
    ensures Tally(After(cfg, s, run).procs, StepsLeft) + StepCount(run) <= Tally(s.procs, StepsLeft)
    decreases |run|
  {
    if run != [] {
      var a := run[0];
      assert a in run && forall b :: b in run[1..] ==> b in run;
      if a.Step? { StepTally(cfg, s, a.t, a.c); }
      ActionKeeps(cfg, s, a);
      BoundedWork(cfg, Apply(cfg, s, a), run[1..]);
    }
  }

  /** Nothing but the outcome of its next system call decides what the thread does next. */
  ghost predicate Unblocked(cfg: Config, s: State, u: nat)
  {
    && u < |s.procs| && s.procs[u].Busy?
    && (s.procs[u].pc.WaitLock? || s.procs[u].pc.WaitInner? ==> MayLock(cfg, s, Stripe(s.procs[u].op.id), u))
  }

  /** With owner re-entry there is no deadlock: whoever waits for a stripe waits for a thread that can move,
      because every operation uses one stripe only. */
  lemma SomeoneCanStep(cfg: Config, s: State, t: nat) returns (u: nat)
    requires Inv(cfg.h, s) && cfg.reentrant && t < |s.procs| && s.procs[t].Busy?
    ensures Unblocked(cfg, s, u) && Enabled(cfg, s, Step(u, Choice(s.procs[u].pc.Write?, 0, [])))
  {
    u := t;
    if s.procs[t].pc.WaitLock? && Stripe(s.procs[t].op.id) in s.locks {
      var k := Stripe(s.procs[t].op.id);
      assert OwnerOk(s, k);
      u := s.locks[k].thread;
    }
    assert LockOk(s, u);
  }

  /** With owner re-entry every reachable state can be run to rest, even if every system call that can
      fail does. */
  lemma {:induction false} RunsToRest(cfg: Config, s: State) returns (run: seq<Action>)
    requires Inv(cfg.h, s) && cfg.reentrant
    ensures Legal(cfg, s, run) && Internal(run) && AtRest(After(cfg, s, run))
    decreases if Tally(s.procs, StepsLeft) < 0 then 0 else Tally(s.procs, StepsLeft)
  {
    if AtRest(s) {
      run := [];
    } else {
      var t :| 0 <= t < |s.procs| && s.procs[t].Busy?;
      var u := SomeoneCanStep(cfg, s, t);
      var c := Choice(s.procs[u].pc.Write?, 0, []);
      StepTally(cfg, s, u, c);
      TallyNonNegative(StepProc(cfg, s, u, c).procs);
      StepKeeps(cfg, s, u, c);
      var rest := RunsToRest(cfg, StepProc(cfg, s, u, c));
      run := [Step(u, c)] + rest;
      assert run[1..] == rest;
    }
  }

  predicate Unopened(pc: Pc)
  {
    pc.Start? || pc.WaitLock? || pc.WaitInner? || pc.Probe? || pc.MakeDir? || pc.OpenTemp?
  }

  /** Each thread has a UUID of its own that no temporary file of its chunk bears yet. */
  ghost predicate Supplied(s: State, uuids: seq<string>)
  {
    && |uuids| == |s.procs|
    && (forall t :: 0 <= t < |uuids| ==> IsUuid(uuids[t]))
    && (forall t, u :: 0 <= t < u < |uuids| ==> uuids[t] != uuids[u])
    && (forall t :: 0 <= t < |uuids| && s.procs[t].Busy? && Unopened(s.procs[t].pc) ==>
          TempName(s.procs[t].op.id, uuids[t]) !in s.temps)
  }

  lemma UnopenedNext(h: HashFn, p: Proc, temps: map<TempName, File>, file: Option<File>, c: Choice)
    requires p.Busy? && WellTyped(p.op, p.pc) && (p.op.Put? ==> TempOk(temps, p.op, p.pc))
    ensures var p' := NextProc(h, p, file, c); var temps' := NextTemps(temps, p.op, p.pc, c);
      && (p'.Busy? && Unopened(p'.pc) ==> Unopened(p.pc) && p'.op == p.op && temps' == temps)
      && (forall name :: name in temps' ==> name in temps || name.uuid == c.uuid)
  {
  }

  lemma SuppliedStep(cfg: Config, s: State, u: nat, uuids: seq<string>)
    requires Inv(cfg.h, s) && Supplied(s, uuids) && Unblocked(cfg, s, u)
    ensures Enabled(cfg, s, Step(u, Choice(true, 0, uuids[u])))
    ensures Supplied(StepProc(cfg, s, u, Choice(true, 0, uuids[u])), uuids)
  {
    var p, c := s.procs[u], Choice(true, 0, uuids[u]);
    assert ProcOk(cfg.h, s.chunks, s.temps, p);
    UnopenedNext(cfg.h, p, s.temps, Entry(s, p.op.id), c);
  }

  /** And with a UUID for each thread it can be run to rest without a single failing system call. */
  lemma {:induction false} RunsToRestCleanly(cfg: Config, s: State, uuids: seq<string>) returns (run: seq<Action>)
    requires Inv(cfg.h, s) && cfg.reentrant && Supplied(s, uuids)
    ensures Legal(cfg, s, run) && Internal(run) && AtRest(After(cfg, s, run))
    ensures forall a :: a in run ==> a.Step? && a.c.ok
    decreases if Tally(s.procs, StepsLeft) < 0 then 0 else Tally(s.procs, StepsLeft)
  {
    if AtRest(s) {
      run := [];
    } else {
      var t :| 0 <= t < |s.procs| && s.procs[t].Busy?;
      var u := SomeoneCanStep(cfg, s, t);
      var c := Choice(true, 0, uuids[u]);
      SuppliedStep(cfg, s, u, uuids);
      StepTally(cfg, s, u, c);
      TallyNonNegative(StepProc(cfg, s, u, c).procs);
      StepKeeps(cfg, s, u, c);
      var rest := RunsToRestCleanly(cfg, StepProc(cfg, s, u, c), uuids);
      run := [Step(u, c)] + rest;
      assert run[1..] == rest;
    }
  }

  lemma {:induction false} TallyNonNegative(procs: seq<Proc>)
    ensures Tally(procs, StepsLeft) >= 0
    decreases |procs|
  {
    if procs != [] {
      TallyNonNegative(procs[..|procs| - 1]);
    }
  }

  // ---------------------------------------------------------------------------------------------
  // Plain, non-re-entrant locks

  /** A Put that has passed its checksum and not yet its nested lock. */
  predicate Doomed(p: Proc)
  {
    p.Busy? && p.op.Put? && (p.pc.WaitLock? || p.pc.WaitInner?)
  }

  /** With plain locks a Put past its checksum never gets further, in any continuation without a crash. */
  lemma {:induction false} PlainLockPutNeverReturns(cfg: Config, s: State, run: seq<Action>, t: nat)
    requires Inv(cfg.h, s) && !cfg.reentrant && Legal(cfg, s, run) && forall a :: a in run ==> !a.Crash?
    requires t < |s.procs| && Doomed(s.procs[t])
    ensures t < |After(cfg, s, run).procs| && Doomed(After(cfg, s, run).procs[t])
    ensures After(cfg, s, run).procs[t].op == s.procs[t].op
    decreases |run|
  {
    if run != [] {
      assert run[0] in run && forall b :: b in run[1..] ==> b in run;
      assert LockOk(s, t);
      ActionKeeps(cfg, s, run[0]);
      PlainLockPutNeverReturns(cfg, Apply(cfg, s, run[0]), run[1..], t);
    }
  }

  /** Thread `t` sits at its nested lock and `u` waits for the same stripe, or is `t` itself. */
  predicate DeadStripe(s: State, t: nat, u: nat)
  {
    && t < |s.procs| && s.procs[t].Busy? && s.procs[t].pc.WaitInner?
    && u < |s.procs| && s.procs[u].Busy? && (s.procs[u].pc.WaitLock? || u == t)
    && Stripe(s.procs[u].op.id) == Stripe(s.procs[t].op.id)
  }

  lemma DeadStripeStep(cfg: Config, s: State, a: Action, t: nat, u: nat)
    requires Inv(cfg.h, s) && !cfg.reentrant && Enabled(cfg, s, a) && !a.Crash? && DeadStripe(s, t, u)
    ensures |Apply(cfg, s, a).procs| == |s.procs|
    ensures Apply(cfg, s, a).procs[t] == s.procs[t] && Apply(cfg, s, a).procs[u] == s.procs[u]
  {
    assert LockOk(s, t);
  }

  /** And once it sits at the nested lock, everyone who waits for that stripe waits for ever. */
  lemma {:induction false} PlainLockStripeIsDead(cfg: Config, s: State, run: seq<Action>, t: nat, u: nat)
    requires Inv(cfg.h, s) && !cfg.reentrant && Legal(cfg, s, run) && forall a :: a in run ==> !a.Crash?
    requires DeadStripe(s, t, u)
    ensures |After(cfg, s, run).procs| == |s.procs|
    ensures After(cfg, s, run).procs[u] == s.procs[u] && After(cfg, s, run).procs[t] == s.procs[t]
    decreases |run|
  {
    if run != [] {
      assert run[0] in run && forall b :: b in run[1..] ==> b in run;
      DeadStripeStep(cfg, s, run[0], t, u);
      ActionKeeps(cfg, s, run[0]);
      PlainLockStripeIsDead(cfg, Apply(cfg, s, run[0]), run[1..], t, u);
    }
  }

  ghost predicate NoWriter(s: State)
  {
    && s.chunks == map[]
    && (forall id :: id in s.pending ==> s.pending[id] <= {None})
    && forall t :: 0 <= t < |s.procs| && s.procs[t].Busy? && s.procs[t].op.Put? ==>
         s.procs[t].pc.Start? || s.procs[t].pc.WaitLock? || s.procs[t].pc.WaitInner? || s.procs[t].pc.Return?
  }

  lemma PlainLockStep(cfg: Config, s: State, a: Action)
    requires Inv(cfg.h, s) && !cfg.reentrant && NoWriter(s) && Enabled(cfg, s, a)
    ensures NoWriter(Apply(cfg, s, a))
  {
    if a.Step? {
      assert LockOk(s, a.t) && ProcOk(cfg.h, s.chunks, s.temps, s.procs[a.t]);
    } else if a.Crash? {
      assert forall id: Digest, f: File :: Some(f) !in Images(s, id);
      assert a.image == map[];
    }
  }

  /** So a store with plain locks never stores anything: only re-entry makes Put work at all. */
  lemma {:induction false} PlainLockStoreStaysEmpty(cfg: Config, s: State, run: seq<Action>)
    requires Inv(cfg.h, s) && !cfg.reentrant && NoWriter(s) && Legal(cfg, s, run)
    ensures Contents(After(cfg, s, run)) == map[]
    decreases |run|
  {
    if run != [] {
      PlainLockStep(cfg, s, run[0]);
      ActionKeeps(cfg, s, run[0]);
      PlainLockStoreStaysEmpty(cfg, Apply(cfg, s, run[0]), run[1..]);
    }
  }
}
