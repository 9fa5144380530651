/** Every interleaving of the disk machine behaves like an atomic map from chunk ids to bytes. */
module DiskLinearizability {
  import opened Prelude
  import opened AtomicStore
  import opened DiskMachine
  import opened DiskInvariant

  datatype Call = Quiet | Pending(op: Op) | Decided(op: Op, reply: Reply)

  /** The atomic object: a map, and for each thread the call it has open. */
  datatype Atom = Atom(store: map<Digest, Bytes>, calls: seq<Call>)

  datatype Label =
    | Invoked(t: nat, op: Op)
    | Committed(t: nat, f: Fault)    // the whole operation happens here
    | Silent
    | Returned(t: nat, reply: Reply)
    | Crashed(image: map<Digest, Bytes>)

  ghost predicate AtomEnabled(a: Atom, l: Label)
  {
    match l
    case Invoked(t, _) => t < |a.calls| && a.calls[t].Quiet?
    case Committed(t, _) => t < |a.calls| && a.calls[t].Pending?
    case Returned(t, reply) => t < |a.calls| && a.calls[t].Decided? && a.calls[t].reply == reply
    case _ => true
  }

  ghost function AtomApply(h: HashFn, a: Atom, l: Label): Atom
    requires AtomEnabled(a, l)
  {
    match l
    case Invoked(t, op) => a.(calls := a.calls[t := Pending(op)])
    case Committed(t, f) =>
      var op := a.calls[t].op;
      var e := Atomic(h, a.store, op, f);
      Atom(e.store, a.calls[t := Decided(op, e.reply)])
    case Silent => a
    case Returned(t, _) => a.(calls := a.calls[t := Quiet])
    case Crashed(image) => Atom(image, seq(|a.calls|, _ => Quiet))
  }

  ghost predicate AtomLegal(h: HashFn, a: Atom, labels: seq<Label>)
    decreases |labels|
  {
    labels == [] || (AtomEnabled(a, labels[0]) && AtomLegal(h, AtomApply(h, a, labels[0]), labels[1..]))
  }

  ghost function AtomAfter(h: HashFn, a: Atom, labels: seq<Label>): Atom
    requires AtomLegal(h, a, labels)
    decreases |labels|
  {
    if labels == [] then a else AtomAfter(h, AtomApply(h, a, labels[0]), labels[1..])
  }

  /** The reply is fixed once the code has passed its linearization point. */
  function Verdict(pc: Pc): Option<Reply>
  {
    match pc
    case SyncDir => Some(Done)
    case AddCount => Some(Done)
    case AddBytes => Some(Done)
    case SubCount(_) => Some(Done)
    case SubBytes(_) => Some(Done)
    case CleanTemp(_) => Some(Failed(IoError))
    case Unlock(reply) => Some(reply)
    case Return(reply) => Some(reply)
    case _ => None
  }

  function CallOf(p: Proc): Call
  {
    if p.Idle? then Quiet
    else if Verdict(p.pc).None? then Pending(p.op)
    else Decided(p.op, Verdict(p.pc).value)
  }

  ghost function AtomOf(s: State): Atom
  {
    Atom(Contents(s), seq(|s.procs|, t requires 0 <= t < |s.procs| => CallOf(s.procs[t])))
  }

  function FaultOf(p: Proc): Fault
    requires p.Busy?
  {
    Fault(p.blind, Verdict(p.pc) == Some(Failed(IoError)))
  }

  /** A step commits when it fixes the reply; the rename of a Put and the remove of a Delete are such steps. */
  ghost function LabelOf(cfg: Config, s: State, a: Action): Label
    requires Enabled(cfg, s, a)
  {
    match a
    case Invoke(t, op) => Invoked(t, op)
    case Flush(_) => Silent
    case Crash(image, _, _) => Crashed(image)
    case Step(t, c) =>
      var p := s.procs[t];
      var p' := NextProc(cfg.h, p, Entry(s, p.op.id), c);
      if p.pc.Return? then Returned(t, p.pc.reply)
      else if Verdict(p.pc).None? && Verdict(p'.pc).Some? then Committed(t, FaultOf(p'))
      else Silent
  }

  ghost function Trace(cfg: Config, s: State, run: seq<Action>): seq<Label>
    requires Legal(cfg, s, run)
    decreases |run|
  {
    if run == [] then [] else [LabelOf(cfg, s, run[0])] + Trace(cfg, Apply(cfg, s, run[0]), run[1..])
  }

  /** What a step does to its own chunk and reply is what the atomic operation does at the commit
      step, and nothing at any other step. */
  ghost predicate Commits(h: HashFn, m: map<Digest, Bytes>, m': map<Digest, Bytes>, p: Proc, p': Proc)
    requires p.Busy? && p'.Busy?
  {
    if Verdict(p.pc).None? && Verdict(p'.pc).Some?
    then Atomic(h, m, p.op, FaultOf(p')) == Effect(m', Verdict(p'.pc).value)
    else m' == m && Verdict(p'.pc) == Verdict(p.pc)
  }

  lemma PutCommits(h: HashFn, s: State, p: Proc, c: Choice)
    requires p.Busy? && p.op.Put? && ProcOk(h, s.chunks, s.temps, p) && !p.pc.Return?
    ensures Commits(h, Contents(s), Bodies(NextChunks(s, p.op, p.pc, c)), p, NextProc(h, p, Entry(s, p.op.id), c))
  {
    NextContents(s, p.op, p.pc, c);
  }

  lemma OthersCommit(h: HashFn, s: State, p: Proc, c: Choice)
    requires p.Busy? && !p.op.Put? && ProcOk(h, s.chunks, s.temps, p) && !p.pc.Return?
    requires p.op.id in s.chunks ==> h(s.chunks[p.op.id].content) == p.op.id
    ensures Commits(h, Contents(s), Bodies(NextChunks(s, p.op, p.pc, c)), p, NextProc(h, p, Entry(s, p.op.id), c))
  {
    NextContents(s, p.op, p.pc, c);
    if p.pc.Read? {
      assert s.chunks[p.op.id].content[..p.pc.size] == s.chunks[p.op.id].content;
    }
  }

  /** The atomic map takes such a step with the label that LabelOf chooses. */
  lemma LabelSimulates(h: HashFn, a: Atom, m': map<Digest, Bytes>, p: Proc, p': Proc, t: nat, l: Label)
    requires t < |a.calls| && p.Busy? && a.calls[t] == CallOf(p)
    requires if p.pc.Return? then p' == Idle && m' == a.store && l == Returned(t, p.pc.reply)
             else && p'.Busy? && p'.op == p.op && Commits(h, a.store, m', p, p')
                  && l == if Verdict(p.pc).None? && Verdict(p'.pc).Some? then Committed(t, FaultOf(p')) else Silent
    ensures AtomEnabled(a, l) && AtomApply(h, a, l) == Atom(m', a.calls[t := CallOf(p')])
  {
    assert a.calls[t := a.calls[t]] == a.calls;
  }

  lemma StepSimulates(cfg: Config, s: State, t: nat, c: Choice)
    requires Inv(cfg.h, s) && Enabled(cfg, s, Step(t, c))
    ensures AtomEnabled(AtomOf(s), LabelOf(cfg, s, Step(t, c)))
    ensures AtomOf(StepProc(cfg, s, t, c)) == AtomApply(cfg.h, AtomOf(s), LabelOf(cfg, s, Step(t, c)))
  {
    var p := s.procs[t];
    assert ProcOk(cfg.h, s.chunks, s.temps, p);
    var s' := StepProc(cfg, s, t, c);
    if p.pc.Return? {
      NextContents(s, p.op, p.pc, c);
    } else if p.op.Put? {
      PutCommits(cfg.h, s, p, c);
    } else {
      assert p.op.id in s.chunks ==> FileOk(cfg.h, p.op.id, s.chunks[p.op.id]);
      OthersCommit(cfg.h, s, p, c);
    }
    CallsUpdate(s, s', t);
    LabelSimulates(cfg.h, AtomOf(s), Contents(s'), p, s'.procs[t], t, LabelOf(cfg, s, Step(t, c)));
  }

  lemma CallsUpdate(s: State, s': State, t: nat)
    requires t < |s.procs| == |s'.procs| && s'.procs == s.procs[t := s'.procs[t]]
    ensures AtomOf(s').calls == AtomOf(s).calls[t := CallOf(s'.procs[t])]
  {
  }

  lemma ActionSimulates(cfg: Config, s: State, a: Action)
    requires Inv(cfg.h, s) && Enabled(cfg, s, a)
    ensures AtomEnabled(AtomOf(s), LabelOf(cfg, s, a))
    ensures AtomOf(Apply(cfg, s, a)) == AtomApply(cfg.h, AtomOf(s), LabelOf(cfg, s, a))
  {
    match a
    case Step(t, c) => StepSimulates(cfg, s, t, c);
    case Invoke(t, op) =>
      assert AtomOf(Apply(cfg, s, a)).calls == AtomOf(s).calls[t := Pending(op)];
    case Flush(_) =>
    case Crash(image, lost, leftovers) =>
      assert Contents(Restart(s, image, lost, leftovers)) == image;
      assert AtomOf(Apply(cfg, s, a)).calls == seq(|s.procs|, _ => Quiet);
  }

  /** Linearizability: every run of the store, with any number of threads, failures and crashes,
      is a run of the atomic map with the same invocations, replies and crashes, and each call's
      single commit point lies between its invocation and its reply. */
  lemma {:induction false} Linearizable(cfg: Config, s: State, run: seq<Action>)
    requires Inv(cfg.h, s) && Legal(cfg, s, run)
    ensures AtomLegal(cfg.h, AtomOf(s), Trace(cfg, s, run))
    ensures AtomAfter(cfg.h, AtomOf(s), Trace(cfg, s, run)) == AtomOf(After(cfg, s, run))
    decreases |run|
  {
    if run != [] {
      var s' := Apply(cfg, s, run[0]);
      ActionSimulates(cfg, s, run[0]);
      ActionKeeps(cfg, s, run[0]);
      Linearizable(cfg, s', run[1..]);
      assert Trace(cfg, s, run)[1..] == Trace(cfg, s', run[1..]);
    }
  }

  // ---------------------------------------------------------------------------------------------
  // The sequential history behind a run

  datatype Event = Event(t: nat, op: Op, f: Fault, reply: Reply)

  /** The operation that an action commits, with the reply that the thread has decided on. */
  ghost function Committing(cfg: Config, s: State, a: Action): seq<Event>
    requires Enabled(cfg, s, a)
  {
    var l := LabelOf(cfg, s, a);
    if !l.Committed? then []
    else
      var p := s.procs[a.t];
      [Event(a.t, p.op, l.f, Verdict(NextProc(cfg.h, p, Entry(s, p.op.id), a.c).pc).value)]
  }

  /** The committed operations of a run, in commit order. */
  ghost function History(cfg: Config, s: State, run: seq<Action>): seq<Event>
    requires Legal(cfg, s, run)
    decreases |run|
  {
    if run == [] then [] else Committing(cfg, s, run[0]) + History(cfg, Apply(cfg, s, run[0]), run[1..])
  }

  /** Run one after the other, the operations give exactly these replies. */
  ghost predicate Explains(h: HashFn, m: map<Digest, Bytes>, es: seq<Event>)
    decreases |es|
  {
    es == [] ||
    var e := Atomic(h, m, es[0].op, es[0].f);
    e.reply == es[0].reply && Explains(h, e.store, es[1..])
  }

  ghost function Replay(h: HashFn, m: map<Digest, Bytes>, es: seq<Event>): map<Digest, Bytes>
    decreases |es|
  {
    if es == [] then m else Replay(h, Atomic(h, m, es[0].op, es[0].f).store, es[1..])
  }

  /** The committing step has the store and the reply of the atomic operation; all others leave the store alone. */
  lemma CommitReply(cfg: Config, s: State, a: Action)
    requires Inv(cfg.h, s) && Enabled(cfg, s, a) && !a.Crash?
    ensures var es := Committing(cfg, s, a); var m' := Contents(Apply(cfg, s, a));
      if es == [] then m' == Contents(s)
      else es == [es[0]] && Atomic(cfg.h, Contents(s), es[0].op, es[0].f) == Effect(m', es[0].reply)
  {
    ActionSimulates(cfg, s, a);
    if a.Step? {
      assert AtomOf(StepProc(cfg, s, a.t, a.c)).calls[a.t] == CallOf(StepProc(cfg, s, a.t, a.c).procs[a.t]);
      assert AtomOf(s).calls[a.t] == CallOf(s.procs[a.t]);
    }
  }

  /** Without a crash, the final contents and all replies decided on are those of running the committed
      operations one at a time, in commit order. */
  lemma {:induction false} SequentialHistory(cfg: Config, s: State, run: seq<Action>)
    requires Inv(cfg.h, s) && Legal(cfg, s, run) && forall a :: a in run ==> !a.Crash?
    ensures var es := History(cfg, s, run);
      Explains(cfg.h, Contents(s), es) && Replay(cfg.h, Contents(s), es) == Contents(After(cfg, s, run))
    decreases |run|
  {
    if run != [] {
      var a := run[0];
      assert a in run && forall b :: b in run[1..] ==> b in run;
      var s' := Apply(cfg, s, a);
      var rest := History(cfg, s', run[1..]);
      ActionKeeps(cfg, s, a);
      CommitReply(cfg, s, a);
      SequentialHistory(cfg, s', run[1..]);
      if Committing(cfg, s, a) == [] {
        assert History(cfg, s, run) == rest;
      } else {
        assert History(cfg, s, run)[1..] == rest;
      }
    }
  }

  // ---------------------------------------------------------------------------------------------
  // When no existence probe fails, the atomic map is the plain one

  /** The action is a `stat` call that reports an error. */
  predicate ProbeFails(s: State, a: Action)
  {
    a.Step? && a.t < |s.procs| && s.procs[a.t].Busy? && !a.c.ok
    && (s.procs[a.t].pc.Probe? || s.procs[a.t].pc.Stat?)
  }

  ghost predicate ProbesSucceed(cfg: Config, s: State, run: seq<Action>)
    requires Legal(cfg, s, run)
    decreases |run|
  {
    run == [] || (!ProbeFails(s, run[0]) && ProbesSucceed(cfg, Apply(cfg, s, run[0]), run[1..]))
  }

  ghost predicate Sighted(s: State)
  {
    forall t :: 0 <= t < |s.procs| && s.procs[t].Busy? ==> !s.procs[t].blind
  }

  lemma SightedStep(cfg: Config, s: State, a: Action)
    requires Sighted(s) && Enabled(cfg, s, a) && !ProbeFails(s, a)
    ensures Sighted(Apply(cfg, s, a))
    ensures LabelOf(cfg, s, a).Committed? ==> !LabelOf(cfg, s, a).f.probe
  {
  }

  /** Then every commit is free of probe faults, so its reply has the meaning AtomicStore.FaultlessMeaning gives it. */
  lemma {:induction false} ProbesSucceedTrace(cfg: Config, s: State, run: seq<Action>)
    requires Sighted(s) && Legal(cfg, s, run) && ProbesSucceed(cfg, s, run)
    ensures forall l :: l in Trace(cfg, s, run) && l.Committed? ==> !l.f.probe
    ensures Sighted(After(cfg, s, run))
    decreases |run|
  {
    if run != [] {
      SightedStep(cfg, s, run[0]);
      ProbesSucceedTrace(cfg, Apply(cfg, s, run[0]), run[1..]);
    }
  }

  /** A commit carries an I/O fault only if one of the call's system calls failed at that very step. */
  lemma CommitFault(h: HashFn, s: State, p: Proc, c: Choice)
    requires p.Busy? && ProcOk(h, s.chunks, s.temps, p) && !p.pc.Return? && c.ok
    requires Verdict(p.pc).None?
    ensures Verdict(NextPc(h, p.op, p.pc, Entry(s, p.op.id), c)) != Some(Failed(IoError))
  {
  }

  lemma FaultlessStep(cfg: Config, s: State, a: Action)
    requires Inv(cfg.h, s) && Sighted(s) && Enabled(cfg, s, a) && (a.Step? ==> a.c.ok)
    ensures LabelOf(cfg, s, a).Committed? ==> LabelOf(cfg, s, a).f == NO_FAULT
  {
    SightedStep(cfg, s, a);
    if a.Step? && !s.procs[a.t].pc.Return? && Verdict(s.procs[a.t].pc).None? {
      assert ProcOk(cfg.h, s.chunks, s.temps, s.procs[a.t]);
      CommitFault(cfg.h, s, s.procs[a.t], a.c);
    }
  }

  /** If no system call fails along a run, every operation of it commits without a fault: the store
      is then the plain atomic map of AtomicStore.FaultlessMeaning, whatever the interleaving. */
  lemma {:induction false} FaultlessRun(cfg: Config, s: State, run: seq<Action>)
    requires Inv(cfg.h, s) && Sighted(s) && Legal(cfg, s, run)
    requires forall a :: a in run && a.Step? ==> a.c.ok
    ensures forall l :: l in Trace(cfg, s, run) && l.Committed? ==> l.f == NO_FAULT
    decreases |run|
  {
    if run != [] {
      var a := run[0];
      assert a in run && forall b :: b in run[1..] ==> b in run;
      FaultlessStep(cfg, s, a);
      SightedStep(cfg, s, a);
      ActionKeeps(cfg, s, a);
      FaultlessRun(cfg, Apply(cfg, s, a), run[1..]);
    }
  }

  /** A store that nobody edits from outside never reports corruption. */
  lemma NeverCorrupt(cfg: Config, s: State, t: nat)
    requires Inv(cfg.h, s) && t < |s.procs|
    requires s.procs[t].Busy? && s.procs[t].pc.Read?
    ensures forall c :: NextPc(cfg.h, s.procs[t].op, s.procs[t].pc, Entry(s, s.procs[t].op.id), c)
                        != Unlock(Failed(CorruptionDetected))
  {
    var p := s.procs[t];
    assert ProcOk(cfg.h, s.chunks, s.temps, p);
    assert FileOk(cfg.h, p.op.id, s.chunks[p.op.id]);
    assert s.chunks[p.op.id].content[..p.pc.size] == s.chunks[p.op.id].content;
  }
}
