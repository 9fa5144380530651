/** The two models of the store agree: a call that runs alone on the step machine, with any outcome of each of
    its system calls, has the effect and the reply that the class promises for the same outcomes. */
module DiskBigStep {
  import opened Prelude
  import opened AtomicStore
  import opened DiskMachine
  import opened DiskInvariant
  import opened DiskAccounting
  import opened DiskLinearizability
  import opened DiskProgress
  import opened DiskSolo
  import L = LocalDiskStore

  /** The outcome of every system call a call may make, as the methods of LocalDiskChunkStore take them. */
  datatype CallIo = CallIo(put: L.PutIo, dirOk: bool, statOk: bool, openOk: bool, readOk: bool, removeOk: bool)

  function ChoiceAt(io: CallIo, op: Op, pc: Pc): Choice
  {
    var ok :=
      match pc
      case Probe => io.put.probeOk
      case MakeDir => io.put.makeDirOk
      case OpenTemp => io.put.openOk
      case Write(_) => (op.Put? && op.data == []) || io.put.writeOk
      case Sync(_) => io.put.syncOk
      case Rename(_) => io.put.renameOk
      case CleanTemp(_) => io.put.cleanOk
      case SyncDir => io.dirOk
      case Stat => io.statOk
      case OpenRead(_) => io.openOk
      case Read(_) => io.readOk
      case Remove(_) => io.removeOk
      case _ => true;
    Choice(ok, if op.Put? && io.put.written <= |op.data| then io.put.written else 0, io.put.uuid)
  }

  /** The fault under which the class promises the atomic operation. */
  function FaultFor(m: map<Digest, Bytes>, op: Op, io: CallIo): Fault
  {
    match op
    case Put(_, data) => L.PutFault(io.put, data)
    case Get(id) => L.GetFault(m, id, io.statOk, io.openOk, io.readOk)
    case Delete(_) => Fault(!io.statOk, !io.removeOk)
    case Exists(_) => Fault(!io.put.probeOk, false)
  }

  /** Some system call between here and the rename is going to fail. */
  predicate PutWillFail(pc: Pc, data: Bytes, io: L.PutIo)
  {
    || ((Unprobed(pc) || pc.MakeDir?) && !io.makeDirOk)
    || (Unopened(pc) && !io.openOk)
    || ((Unopened(pc) || pc.Write?) && data != [] && !io.writeOk)
    || ((Unopened(pc) || pc.Write? || pc.Sync?) && !io.syncOk)
    || (Unrenamed(pc) && !io.renameOk)
  }

  /** What the rest of the call will do to the map, and what it will answer. */
  function Outlook(h: HashFn, m: map<Digest, Bytes>, op: Op, pc: Pc, io: CallIo): Effect
  {
    if Verdict(pc).Some? then Effect(m, Verdict(pc).value)
    else
      match op
      case Put(id, data) =>
        if pc.Start? && h(data) != id then Effect(m, Failed(ChecksumMismatch))
        else if Unprobed(pc) && io.put.probeOk && id in m then Effect(m, Done)
        else if PutWillFail(pc, data, io.put) then Effect(m, Failed(IoError))
        else Effect(m[id := data], Done)
      case Get(id) =>
        if id !in m || (!Measured(pc) && !io.statOk) then Effect(m, Failed(NotFound))
        else if (!pc.Read? && !io.openOk) || (!io.readOk && m[id] != []) then Effect(m, Failed(IoError))
        else if h(m[id]) == id then Effect(m, Payload(m[id]))
        else Effect(m, Failed(CorruptionDetected))
      case Delete(id) =>
        if id !in m || (!Measured(pc) && !io.statOk) then Effect(m, Done)
        else if !io.removeOk then Effect(m, Failed(IoError))
        else Effect(m - {id}, Done)
      case Exists(id) => Effect(m, Flag(io.put.probeOk && id in m))
  }

  /** Every step keeps the outlook. */
  lemma PutOutlook(h: HashFn, s: State, p: Proc, io: CallIo)
    requires p.Busy? && p.op.Put? && ProcOk(h, s.chunks, s.temps, p) && !p.pc.Return?
    ensures var c := ChoiceAt(io, p.op, p.pc);
      Outlook(h, Bodies(NextChunks(s, p.op, p.pc, c)), p.op, NextPc(h, p.op, p.pc, Entry(s, p.op.id), c), io)
      == Outlook(h, Contents(s), p.op, p.pc, io)
  {
    NextContents(s, p.op, p.pc, ChoiceAt(io, p.op, p.pc));
  }

  lemma OthersOutlook(h: HashFn, s: State, p: Proc, io: CallIo)
    requires p.Busy? && !p.op.Put? && ProcOk(h, s.chunks, s.temps, p) && !p.pc.Return?
    ensures var c := ChoiceAt(io, p.op, p.pc);
      Outlook(h, Bodies(NextChunks(s, p.op, p.pc, c)), p.op, NextPc(h, p.op, p.pc, Entry(s, p.op.id), c), io)
      == Outlook(h, Contents(s), p.op, p.pc, io)
  {
    NextContents(s, p.op, p.pc, ChoiceAt(io, p.op, p.pc));
    if p.pc.Read? {
      assert s.chunks[p.op.id].content[..p.pc.size] == s.chunks[p.op.id].content;
    }
  }

  /** The thread can go on alone. */
  ghost predicate Ready(cfg: Config, s: State, t: nat, io: CallIo)
  {
    && IsUuid(io.put.uuid) && t < |s.procs| && s.procs[t].Busy?
    && var Busy(op, pc, _) := s.procs[t];
       && (op.Put? ==> cfg.reentrant)
       && (pc.WaitLock? || pc.Start? ==> Stripe(op.id) !in s.locks)
       && (op.Put? && Unopened(pc) ==> TempName(op.id, io.put.uuid) !in s.temps)
  }

  lemma ReadyEnabled(cfg: Config, s: State, t: nat, io: CallIo)
    requires Inv(cfg.h, s) && Ready(cfg, s, t, io)
    ensures Enabled(cfg, s, Step(t, ChoiceAt(io, s.procs[t].op, s.procs[t].pc)))
  {
    assert LockOk(s, t) && ProcOk(cfg.h, s.chunks, s.temps, s.procs[t]);
  }

  lemma ReadyNext(h: HashFn, s: State, t: nat, p: Proc, c: Choice)
    requires p.Busy? && ProcOk(h, s.chunks, s.temps, p) && !p.pc.Return?
    ensures var pc' := NextPc(h, p.op, p.pc, Entry(s, p.op.id), c);
      && Rank(pc') < Rank(p.pc) && !pc'.Start? && (pc'.WaitLock? ==> p.pc.Start? && NextLocks(s, t, p.op, p.pc) == s.locks)
      && (p.op.Put? && Unopened(pc') ==> Unopened(p.pc) && NextTemps(s.temps, p.op, p.pc, c) == s.temps)
  {
  }

  /** One step of the call, seen from outside. */
  lemma BigStepMoves(cfg: Config, s: State, t: nat, io: CallIo)
    requires Inv(cfg.h, s) && Ready(cfg, s, t, io) && !s.procs[t].pc.Return?
    ensures var Busy(op, pc, _) := s.procs[t]; var s' := StepProc(cfg, s, t, ChoiceAt(io, op, pc));
      && Ready(cfg, s', t, io) && s'.procs[t].op == op && Rank(s'.procs[t].pc) < Rank(pc)
      && Outlook(cfg.h, Contents(s'), op, s'.procs[t].pc, io) == Outlook(cfg.h, Contents(s), op, pc, io)
  {
    var p := s.procs[t];
    assert ProcOk(cfg.h, s.chunks, s.temps, p);
    ReadyNext(cfg.h, s, t, p, ChoiceAt(io, p.op, p.pc));
    if p.op.Put? { PutOutlook(cfg.h, s, p, io); } else { OthersOutlook(cfg.h, s, p, io); }
  }

  /** The run consists of steps of thread `t` with these outcomes. */
  ghost predicate Alone(cfg: Config, s: State, run: seq<Action>, t: nat, io: CallIo)
    requires Legal(cfg, s, run)
    decreases |run|
  {
    run == [] ||
    (&& t < |s.procs| && s.procs[t].Busy? && run[0] == Step(t, ChoiceAt(io, s.procs[t].op, s.procs[t].pc))
     && Alone(cfg, Apply(cfg, s, run[0]), run[1..], t, io))
  }

  lemma {:induction false} RunsAlone(cfg: Config, s: State, t: nat, io: CallIo) returns (run: seq<Action>)
    requires Inv(cfg.h, s) && Ready(cfg, s, t, io)
    ensures Legal(cfg, s, run) && Alone(cfg, s, run, t, io)
    ensures var end := After(cfg, s, run);
      && t < |end.procs| && end.procs[t].Busy? && end.procs[t].pc.Return?
      && Effect(Contents(end), end.procs[t].pc.reply) == Outlook(cfg.h, Contents(s), s.procs[t].op, s.procs[t].pc, io)
    decreases Rank(s.procs[t].pc)
  {
    if s.procs[t].pc.Return? {
      run := [];
    } else {
      var c := ChoiceAt(io, s.procs[t].op, s.procs[t].pc);
      ReadyEnabled(cfg, s, t, io);
      BigStepMoves(cfg, s, t, io);
      StepKeeps(cfg, s, t, c);
      var rest := RunsAlone(cfg, StepProc(cfg, s, t, c), t, io);
      run := [Step(t, c)] + rest;
      Continue(cfg, s, Step(t, c), rest, run);
    }
  }

  /** The theorem: run system call by system call from the start of any of the four operations, in any state where
      the stripe is free and with any outcomes, the call returns what the methods of LocalDiskChunkStore
      return for these outcomes, and leaves the map that they leave. */
  lemma ModelsAgree(cfg: Config, s: State, t: nat, io: CallIo) returns (run: seq<Action>)
    requires Inv(cfg.h, s) && Ready(cfg, s, t, io)
    requires s.procs[t].pc == if s.procs[t].op.Put? then Start else WaitLock
    ensures Legal(cfg, s, run) && Alone(cfg, s, run, t, io)
    ensures var end := After(cfg, s, run); var op := s.procs[t].op;
      && t < |end.procs| && end.procs[t].Busy? && end.procs[t].pc.Return?
      && Effect(Contents(end), end.procs[t].pc.reply)
         == Atomic(cfg.h, Contents(s), op, FaultFor(Contents(s), op, io))
  {
    run := RunsAlone(cfg, s, t, io);
    OutlookAtStart(cfg.h, Contents(s), s.procs[t].op, io);
  }

  lemma OutlookAtStart(h: HashFn, m: map<Digest, Bytes>, op: Op, io: CallIo)
    ensures Outlook(h, m, op, if op.Put? then Start else WaitLock, io) == Atomic(h, m, op, FaultFor(m, op, io))
  {
  }
}
