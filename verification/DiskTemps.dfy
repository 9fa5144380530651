/** Temporary files: every one belongs to a running Put, as long as cleaning up succeeds. */
module DiskTemps {
  import opened Prelude
  import opened DiskMachine
  import opened DiskInvariant
  import opened DiskAccounting

  /** The temporary file a thread is working on. */
  function TempOf(p: Proc): Option<TempName>
  {
    if p.Busy? && (p.pc.Write? || p.pc.Sync? || p.pc.Rename? || p.pc.CleanTemp?) then Some(p.pc.tmp) else None
  }

  ghost predicate Claimed(s: State, name: TempName)
  {
    exists t :: 0 <= t < |s.procs| && TempOf(s.procs[t]) == Some(name)
  }

  ghost predicate NoLitter(s: State)
  {
    forall name :: name in s.temps ==> Claimed(s, name)
  }

  /** The action is no crash and no failing removal of a temporary file. */
  predicate Tidy(s: State, a: Action)
  {
    && !a.Crash?
    && (a.Step? && a.t < |s.procs| && s.procs[a.t].Busy? && s.procs[a.t].pc.CleanTemp? ==> a.c.ok)
  }

  /** A thread hands its file on from step to step, until it has renamed or removed it. */
  lemma OwnTemp(h: HashFn, s: State, p: Proc, c: Choice, name: TempName)
    requires p.Busy? && ProcOk(h, s.chunks, s.temps, p) && (p.pc.CleanTemp? ==> c.ok)
    requires name in NextTemps(s.temps, p.op, p.pc, c)
    ensures || (name in s.temps && TempOf(p) != Some(name))
            || TempOf(NextProc(h, p, Entry(s, p.op.id), c)) == Some(name)
  {
  }

  lemma TidyStep(cfg: Config, s: State, t: nat, c: Choice)
    requires Inv(cfg.h, s) && NoLitter(s) && Enabled(cfg, s, Step(t, c)) && Tidy(s, Step(t, c))
    ensures NoLitter(StepProc(cfg, s, t, c))
  {
    var p := s.procs[t];
    var s' := StepProc(cfg, s, t, c);
    assert ProcOk(cfg.h, s.chunks, s.temps, p);
    forall name | name in s'.temps ensures Claimed(s', name) {
      OwnTemp(cfg.h, s, p, c, name);
      if TempOf(s'.procs[t]) != Some(name) {
        var u :| 0 <= u < |s.procs| && TempOf(s.procs[u]) == Some(name);
        assert s'.procs[u] == s.procs[u];
      }
    }
  }

  lemma TidyOther(cfg: Config, s: State, a: Action)
    requires NoLitter(s) && Enabled(cfg, s, a) && Tidy(s, a) && !a.Step?
    ensures NoLitter(Apply(cfg, s, a))
  {
    var s' := Apply(cfg, s, a);
    forall name | name in s'.temps ensures Claimed(s', name) {
      var u :| 0 <= u < |s.procs| && TempOf(s.procs[u]) == Some(name);
      assert s'.procs[u] == s.procs[u];
    }
  }

  ghost predicate TidyRun(cfg: Config, s: State, run: seq<Action>)
    requires Legal(cfg, s, run)
    decreases |run|
  {
    run == [] || (Tidy(s, run[0]) && TidyRun(cfg, Apply(cfg, s, run[0]), run[1..]))
  }

  lemma {:induction false} LitterFree(cfg: Config, s: State, run: seq<Action>)
    requires Inv(cfg.h, s) && NoLitter(s) && Legal(cfg, s, run) && TidyRun(cfg, s, run)
    ensures NoLitter(After(cfg, s, run))
    decreases |run|
  {
    if run != [] {
      var a := run[0];
      if a.Step? { TidyStep(cfg, s, a.t, a.c); } else { TidyOther(cfg, s, a); }
      ActionKeeps(cfg, s, a);
      LitterFree(cfg, Apply(cfg, s, a), run[1..]);
    }
  }

  /** Whatever else fails, Puts leave no temporary file behind unless removing it fails, or a crash comes. */
  lemma FailedPutsCleanUp(cfg: Config, n: nat, run: seq<Action>)
    requires Legal(cfg, Init(n), run) && TidyRun(cfg, Init(n), run) && AtRest(After(cfg, Init(n), run))
    ensures After(cfg, Init(n), run).temps == map[]
  {
    InitInv(cfg.h, n);
    LitterFree(cfg, Init(n), run);
    var s := After(cfg, Init(n), run);
    assert forall name :: !Claimed(s, name);
  }
}
