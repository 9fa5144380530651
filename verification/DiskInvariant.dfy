/** What every step of the disk machine keeps: stripe locks exclude, and what a thread inside its
    critical section has learned about its own chunk stays true while others run. */
module DiskInvariant {
  import opened Prelude
  import opened AtomicStore
  import opened DiskMachine

  /** The thread owns its stripe lock. */
  predicate Holds(p: Proc)
  {
    p.Busy? && !p.pc.Start? && !p.pc.WaitLock? && !p.pc.Return?
  }

  function Depth(p: Proc): nat
  {
    if p.Busy? && p.op.Put? && p.pc.Probe? then 2 else 1
  }

  predicate WellTyped(op: Op, pc: Pc)
  {
    match pc
    case Start => op.Put?
    case WaitLock => true
    case Unlock(_) => true
    case Return(_) => true
    case Probe => op.Put? || op.Exists?
    case Stat => op.Get? || op.Delete?
    case OpenRead(_) => op.Get?
    case Read(_) => op.Get?
    case Remove(_) => op.Delete?
    case SubCount(_) => op.Delete?
    case SubBytes(_) => op.Delete?
    case _ => op.Put?
  }

  /** A Put that has not yet renamed its file and whose probe did not report an error. */
  predicate BeforeRename(pc: Pc)
  {
    pc.MakeDir? || pc.OpenTemp? || pc.Write? || pc.Sync? || pc.Rename?
  }

  predicate AfterRename(pc: Pc)
  {
    pc.SyncDir? || pc.AddCount? || pc.AddBytes?
  }

  predicate Measured(pc: Pc)
  {
    pc.OpenRead? || pc.Read? || pc.Remove?
  }

  predicate TempOk(temps: map<TempName, File>, op: Op, pc: Pc)
    requires op.Put?
  {
    match pc
    case Write(tmp) => tmp.id == op.id && tmp in temps
    case Sync(tmp) => tmp.id == op.id && tmp in temps && temps[tmp].content == op.data
    case Rename(tmp) => tmp.id == op.id && tmp in temps && temps[tmp] == File(op.data, true)
    case CleanTemp(tmp) => tmp.id == op.id
    case _ => true
  }

  /** What a thread knows, given the chunks and the temporary files. */
  predicate ProcOk(h: HashFn, chunks: map<Digest, File>, temps: map<TempName, File>, p: Proc)
  {
    p.Busy? ==>
      var Busy(op, pc, blind) := p;
      && WellTyped(op, pc)
      && (op.Put? && !pc.Start? && !pc.Return? ==> h(op.data) == op.id)
      && (op.Put? ==> TempOk(temps, op, pc))
      && (op.Put? && BeforeRename(pc) && !blind ==> op.id !in chunks)
      && (op.Put? && AfterRename(pc) ==> op.id in chunks && chunks[op.id].content == op.data)
      && (Measured(pc) ==> op.id in chunks && |chunks[op.id].content| == pc.size)
      && ((pc.Start? || pc.WaitLock? || pc.WaitInner? || pc.Probe? || pc.Stat? || Measured(pc)) ==> !blind)
  }

  predicate LockOk(s: State, t: nat)
    requires t < |s.procs|
  {
    Holds(s.procs[t]) ==>
      var k := Stripe(s.procs[t].op.id);
      k in s.locks && s.locks[k] == Owner(t, Depth(s.procs[t]))
  }

  predicate OwnerOk(s: State, k: nat)
    requires k in s.locks
  {
    var t := s.locks[k].thread;
    t < |s.procs| && Holds(s.procs[t]) && Stripe(s.procs[t].op.id) == k
  }

  ghost predicate FileOk(h: HashFn, id: Digest, f: File)
  {
    f.synced && h(f.content) == id
  }

  ghost predicate DiskOk(h: HashFn, s: State)
  {
    && (forall id :: id in s.chunks ==> FileOk(h, id, s.chunks[id]))
    && (forall id, f :: id in s.pending && Some(f) in s.pending[id] ==> FileOk(h, id, f))
    && (forall name :: name in s.temps ==> IsUuid(name.uuid))
    && s.durableShards <= s.shards
  }

  ghost predicate Inv(h: HashFn, s: State)
  {
    && (forall t :: 0 <= t < |s.procs| ==> LockOk(s, t) && ProcOk(h, s.chunks, s.temps, s.procs[t]))
    && (forall k :: k in s.locks ==> OwnerOk(s, k))
    && DiskOk(h, s)
  }

  /** The rename and the remove are the only steps that change what is stored. */
  lemma NextContents(s: State, op: Op, pc: Pc, c: Choice)
    ensures Bodies(NextChunks(s, op, pc, c)) ==
            if Renames(s.temps, pc, c) then Contents(s)[op.id := s.temps[pc.tmp].content]
            else if Removes(s.chunks, op, pc, c) then Contents(s) - {op.id}
            else Contents(s)
  {
  }

  /** Two threads inside critical sections work on different chunks. */
  lemma Exclusion(h: HashFn, s: State, t: nat, u: nat)
    requires Inv(h, s) && t < |s.procs| && u < |s.procs| && t != u
    requires Holds(s.procs[t]) && Holds(s.procs[u])
    ensures Stripe(s.procs[t].op.id) != Stripe(s.procs[u].op.id)
    ensures s.procs[t].op.id != s.procs[u].op.id
  {
    assert LockOk(s, t) && LockOk(s, u);
  }

  /** A step of `t` leaves all other threads alone and touches only its own chunk and temporary files,
      and those only inside its critical section. */
  lemma StepFrame(cfg: Config, s: State, t: nat, c: Choice)
    requires Inv(cfg.h, s) && Enabled(cfg, s, Step(t, c))
    ensures var s' := StepProc(cfg, s, t, c); var id := s.procs[t].op.id;
      && |s'.procs| == |s.procs|
      && (forall u :: 0 <= u < |s.procs| && u != t ==> s'.procs[u] == s.procs[u])
      && (s'.procs[t].Busy? ==> s'.procs[t].op == s.procs[t].op)
      && (forall k :: k != id ==> Entry(s', k) == Entry(s, k))
      && (forall name: TempName :: name.id != id ==>
            (name in s'.temps <==> name in s.temps) && (name in s.temps ==> s'.temps[name] == s.temps[name]))
      && (!Holds(s.procs[t]) ==> s'.chunks == s.chunks && s'.temps == s.temps)
  {
    var p := s.procs[t];
    assert ProcOk(cfg.h, s.chunks, s.temps, p);
    TempsFrame(s.temps, p, c);
    ChunksFrame(s, p, c);
    var s' := StepProc(cfg, s, t, c);
    assert s'.temps == NextTemps(s.temps, p.op, p.pc, c) && s'.chunks == NextChunks(s, p.op, p.pc, c);
  }

  lemma ChunksFrame(s: State, p: Proc, c: Choice)
    requires p.Busy?
    ensures var chunks' := NextChunks(s, p.op, p.pc, c);
      && (forall k :: k != p.op.id ==> (k in chunks' <==> k in s.chunks) && (k in s.chunks ==> chunks'[k] == s.chunks[k]))
      && (!Holds(p) ==> chunks' == s.chunks)
  {
  }

  lemma TempsFrame(temps: map<TempName, File>, p: Proc, c: Choice)
    requires p.Busy? && WellTyped(p.op, p.pc) && (p.op.Put? ==> TempOk(temps, p.op, p.pc))
    ensures var temps' := NextTemps(temps, p.op, p.pc, c);
      && (forall name: TempName :: name.id != p.op.id ==>
            (name in temps' <==> name in temps) && (name in temps ==> temps'[name] == temps[name]))
      && (!Holds(p) ==> temps' == temps)
  {
  }

  /** What a successful rename brings to the final path is complete, synced and hashes to the id. */
  lemma StepDisk(cfg: Config, s: State, t: nat, c: Choice)
    requires Inv(cfg.h, s) && Enabled(cfg, s, Step(t, c))
    ensures DiskOk(cfg.h, StepProc(cfg, s, t, c))
  {
    var p := s.procs[t];
    assert ProcOk(cfg.h, s.chunks, s.temps, p);
    var s' := StepProc(cfg, s, t, c);
    if Renames(s.temps, p.pc, c) {
      assert FileOk(cfg.h, p.op.id, s.temps[p.pc.tmp]);
    }
    TempNames(s.temps, p.op, p.pc, c);
    PendingOk(cfg.h, s, p.op, p.pc, c);
  }

  lemma TempNames(temps: map<TempName, File>, op: Op, pc: Pc, c: Choice)
    requires forall name :: name in temps ==> IsUuid(name.uuid)
    requires pc.OpenTemp? && c.ok ==> IsUuid(c.uuid)
    requires op.Put? ==> TempOk(temps, op, pc)
    ensures forall name :: name in NextTemps(temps, op, pc, c) ==> IsUuid(name.uuid)
  {
  }

  lemma PendingOk(h: HashFn, s: State, op: Op, pc: Pc, c: Choice)
    requires DiskOk(h, s)
    ensures var pending' := NextPending(s, op, pc, c);
      forall id, f :: id in pending' && Some(f) in pending'[id] ==> FileOk(h, id, f)
  {
  }

  /** A Put learns and keeps what the next position of its code relies on. */
  lemma PutLearns(h: HashFn, s: State, p: Proc, c: Choice)
    requires p.Busy? && p.op.Put? && ProcOk(h, s.chunks, s.temps, p)
    requires p.pc.Write? && !c.ok ==> c.written <= |p.op.data|
    ensures ProcOk(h, NextChunks(s, p.op, p.pc, c), NextTemps(s.temps, p.op, p.pc, c),
                   NextProc(h, p, Entry(s, p.op.id), c))
  {
  }

  lemma OthersLearn(h: HashFn, s: State, p: Proc, c: Choice)
    requires p.Busy? && !p.op.Put? && ProcOk(h, s.chunks, s.temps, p)
    ensures ProcOk(h, NextChunks(s, p.op, p.pc, c), NextTemps(s.temps, p.op, p.pc, c),
                   NextProc(h, p, Entry(s, p.op.id), c))
  {
  }

  lemma StepOwn(cfg: Config, s: State, t: nat, c: Choice)
    requires Inv(cfg.h, s) && Enabled(cfg, s, Step(t, c))
    ensures var s' := StepProc(cfg, s, t, c);
      |s'.procs| == |s.procs| && ProcOk(cfg.h, s'.chunks, s'.temps, s'.procs[t])
  {
    var p := s.procs[t];
    assert ProcOk(cfg.h, s.chunks, s.temps, p);
    if p.op.Put? { PutLearns(cfg.h, s, p, c); } else { OthersLearn(cfg.h, s, p, c); }
  }

  /** A thread enters its critical section at its first lock and leaves it at the unlock. */
  lemma HoldsNext(h: HashFn, p: Proc, file: Option<File>, c: Choice)
    requires p.Busy? && WellTyped(p.op, p.pc)
    ensures var p' := NextProc(h, p, file, c);
      && (Holds(p') <==> p.pc.WaitLock? || (Holds(p) && !p.pc.Unlock?))
      && (Holds(p') ==> p'.op == p.op && Depth(p') == if p.pc.WaitInner? then 2 else 1)
  {
  }

  lemma StepLocks(cfg: Config, s: State, t: nat, c: Choice)
    requires Inv(cfg.h, s) && Enabled(cfg, s, Step(t, c))
    ensures var s' := StepProc(cfg, s, t, c); var k := Stripe(s.procs[t].op.id);
      && |s'.procs| == |s.procs|
      && (Holds(s'.procs[t]) ==> k in s'.locks && s'.locks[k] == Owner(t, Depth(s'.procs[t])))
      && (!Holds(s'.procs[t]) && k in s'.locks ==> k in s.locks && s'.locks[k] == s.locks[k] && s.locks[k].thread != t)
      && (forall j :: j != k ==> (j in s'.locks <==> j in s.locks) && (j in s.locks ==> s'.locks[j] == s.locks[j]))
      && (Holds(s'.procs[t]) && !Holds(s.procs[t]) ==> k !in s.locks)
  {
    var p := s.procs[t];
    assert ProcOk(cfg.h, s.chunks, s.temps, p) && LockOk(s, t);
    HoldsNext(cfg.h, p, Entry(s, p.op.id), c);
    var k := Stripe(p.op.id);
    if k in s.locks {
      assert OwnerOk(s, k);
    }
  }

  /** What a thread knows depends only on its own chunk and its own temporary files. */
  lemma ProcFrame(h: HashFn, s: State, s': State, p: Proc)
    requires ProcOk(h, s.chunks, s.temps, p) && p.Busy?
    requires Holds(p) ==> Entry(s', p.op.id) == Entry(s, p.op.id)
    requires Holds(p) ==> forall name: TempName :: name.id == p.op.id && name in s.temps ==>
                name in s'.temps && s'.temps[name] == s.temps[name]
    ensures ProcOk(h, s'.chunks, s'.temps, p)
  {
  }

  /** What another thread knows survives a step of `t`. */
  lemma StepOther(cfg: Config, s: State, t: nat, c: Choice, s': State, u: nat)
    requires Inv(cfg.h, s) && Enabled(cfg, s, Step(t, c)) && u < |s.procs| && u != t
    requires s' == StepProc(cfg, s, t, c)
    ensures u < |s'.procs| && LockOk(s', u) && ProcOk(cfg.h, s'.chunks, s'.temps, s'.procs[u])
  {
    StepFrame(cfg, s, t, c);
    StepLocks(cfg, s, t, c);
    var p := s.procs[u];
    assert LockOk(s, u) && ProcOk(cfg.h, s.chunks, s.temps, p);
    if Holds(p) && Holds(s.procs[t]) {
      Exclusion(cfg.h, s, t, u);
    }
    if p.Busy? {
      ProcFrame(cfg.h, s, s', p);
    }
  }

  lemma StepOwner(cfg: Config, s: State, t: nat, c: Choice, j: nat)
    requires Inv(cfg.h, s) && Enabled(cfg, s, Step(t, c))
    requires j in StepProc(cfg, s, t, c).locks
    ensures OwnerOk(StepProc(cfg, s, t, c), j)
  {
    StepFrame(cfg, s, t, c);
    StepLocks(cfg, s, t, c);
    if j in s.locks {
      assert OwnerOk(s, j);
    }
  }

  lemma StepKeeps(cfg: Config, s: State, t: nat, c: Choice)
    requires Inv(cfg.h, s) && Enabled(cfg, s, Step(t, c))
    ensures Inv(cfg.h, StepProc(cfg, s, t, c))
  {
    var s' := StepProc(cfg, s, t, c);
    StepFrame(cfg, s, t, c);
    StepOwn(cfg, s, t, c);
    StepLocks(cfg, s, t, c);
    StepDisk(cfg, s, t, c);
    forall u | 0 <= u < |s'.procs|
      ensures LockOk(s', u) && ProcOk(cfg.h, s'.chunks, s'.temps, s'.procs[u])
    {
      if u != t { StepOther(cfg, s, t, c, s', u); }
    }
    forall j | j in s'.locks ensures OwnerOk(s', j) {
      StepOwner(cfg, s, t, c, j);
    }
  }

  /** Whatever a crash brings back under a final path was complete and hashes to the id. */
  lemma CrashKeeps(cfg: Config, s: State, image: map<Digest, Bytes>, lost: set<Shard>, leftovers: map<TempName, File>)
    requires Inv(cfg.h, s) && Enabled(cfg, s, Crash(image, lost, leftovers))
    ensures Inv(cfg.h, Restart(s, image, lost, leftovers))
  {
    forall id | id in image ensures cfg.h(image[id]) == id {
      var f :| Some(f) in Images(s, id) && (f.synced ==> image[id] == f.content);
      assert FileOk(cfg.h, id, f);
    }
  }

  lemma InvoKeeps(cfg: Config, s: State, t: nat, op: Op)
    requires Inv(cfg.h, s) && Enabled(cfg, s, Invoke(t, op))
    ensures Inv(cfg.h, Apply(cfg, s, Invoke(t, op)))
  {
    var s' := Apply(cfg, s, Invoke(t, op));
    forall u | 0 <= u < |s'.procs|
      ensures LockOk(s', u) && ProcOk(cfg.h, s'.chunks, s'.temps, s'.procs[u])
    {
      assert LockOk(s, u);
    }
    forall j | j in s'.locks ensures OwnerOk(s', j) {
      assert OwnerOk(s, j);
    }
  }

  lemma ActionKeeps(cfg: Config, s: State, a: Action)
    requires Inv(cfg.h, s) && Enabled(cfg, s, a)
    ensures Inv(cfg.h, Apply(cfg, s, a))
    ensures |Apply(cfg, s, a).procs| == |s.procs|
  {
    match a
    case Invoke(t, op) => InvoKeeps(cfg, s, t, op);
    case Step(t, c) => StepKeeps(cfg, s, t, c); StepFrame(cfg, s, t, c);
    case Flush(shard) =>
      var s' := Apply(cfg, s, a);
      assert forall u :: 0 <= u < |s.procs| ==> LockOk(s, u) && LockOk(s', u);
      assert forall j :: j in s.locks ==> OwnerOk(s, j) && OwnerOk(s', j);
    case Crash(image, lost, leftovers) => CrashKeeps(cfg, s, image, lost, leftovers);
  }

  /** The invariant holds along every run, across any number of crashes. */
  lemma {:induction false} RunKeeps(cfg: Config, s: State, run: seq<Action>)
    requires Inv(cfg.h, s) && Legal(cfg, s, run)
    ensures Inv(cfg.h, After(cfg, s, run))
    ensures |After(cfg, s, run).procs| == |s.procs|
    decreases |run|
  {
    if run != [] {
      ActionKeeps(cfg, s, run[0]);
      RunKeeps(cfg, Apply(cfg, s, run[0]), run[1..]);
    }
  }

  lemma InitInv(h: HashFn, n: nat)
    ensures Inv(h, Init(n))
  {
  }
}
