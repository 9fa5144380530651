/** What a reply says about the store at the moment it is given, over every run. */
module DiskReplies {
  import opened Prelude
  import opened AtomicStore
  import opened DiskMachine
  import opened DiskInvariant
  import opened DiskCrash
  import opened DiskLinearizability

  /** What a call that has fixed its reply, and still holds its lock, knows about the file at its final path.
      A `blind` call is one whose `exists` or `file_size` reported an error. */
  predicate Truthful(file: Option<File>, p: Proc)
  {
    p.Busy? ==>
      var Busy(op, pc, blind) := p;
      match op
      case Put(_, _) => pc == Unlock(Done) ==> file.Some?
      case Delete(_) => !blind && (pc.SubCount? || pc.SubBytes? || pc == Unlock(Done)) ==> file.None?
      case Get(_) =>
        && (pc.Unlock? && pc.reply.Payload? ==> file.Some? && file.value.content == pc.reply.bytes)
        && (!blind && pc == Unlock(Failed(NotFound)) ==> file.None?)
      case Exists(_) => pc.Unlock? && pc.reply.Flag? ==> (pc.reply.present <==> !blind && file.Some?)
  }

  ghost predicate RepliesOk(s: State)
  {
    forall t :: 0 <= t < |s.procs| && s.procs[t].Busy? ==> Truthful(Entry(s, s.procs[t].op.id), s.procs[t])
  }

  function EntryIn(chunks: map<Digest, File>, id: Digest): Option<File>
  {
    if id in chunks then Some(chunks[id]) else None
  }

  lemma OwnReply(h: HashFn, s: State, p: Proc, c: Choice)
    requires p.Busy? && ProcOk(h, s.chunks, s.temps, p) && Truthful(Entry(s, p.op.id), p)
    ensures Truthful(EntryIn(NextChunks(s, p.op, p.pc, c), p.op.id), NextProc(h, p, Entry(s, p.op.id), c))
  {
    if p.pc.Read? {
      assert s.chunks[p.op.id].content[..p.pc.size] == s.chunks[p.op.id].content;
    }
  }

  lemma OpenReply(file: Option<File>, file': Option<File>, p: Proc)
    requires Truthful(file, p) && (Holds(p) ==> file' == file)
    ensures Truthful(file', p)
  {
  }

  lemma StepReplies(cfg: Config, s: State, t: nat, c: Choice)
    requires Inv(cfg.h, s) && RepliesOk(s) && Enabled(cfg, s, Step(t, c))
    ensures RepliesOk(StepProc(cfg, s, t, c))
  {
    var s' := StepProc(cfg, s, t, c);
    StepFrame(cfg, s, t, c);
    forall u | 0 <= u < |s'.procs| && s'.procs[u].Busy?
      ensures Truthful(Entry(s', s'.procs[u].op.id), s'.procs[u])
    {
      if u == t {
        assert ProcOk(cfg.h, s.chunks, s.temps, s.procs[t]);
        OwnReply(cfg.h, s, s.procs[t], c);
      } else {
        if Holds(s.procs[u]) && Holds(s.procs[t]) { Exclusion(cfg.h, s, t, u); }
        OpenReply(Entry(s, s.procs[u].op.id), Entry(s', s.procs[u].op.id), s.procs[u]);
      }
    }
  }

  lemma OtherReplies(cfg: Config, s: State, a: Action)
    requires RepliesOk(s) && Enabled(cfg, s, a) && !a.Step?
    ensures RepliesOk(Apply(cfg, s, a))
  {
  }

  lemma {:induction false} RunReplies(cfg: Config, s: State, run: seq<Action>)
    requires Inv(cfg.h, s) && RepliesOk(s) && Legal(cfg, s, run)
    ensures RepliesOk(After(cfg, s, run))
    decreases |run|
  {
    if run != [] {
      var a := run[0];
      if a.Step? { StepReplies(cfg, s, a.t, a.c); } else { OtherReplies(cfg, s, a); }
      ActionKeeps(cfg, s, a);
      RunReplies(cfg, Apply(cfg, s, a), run[1..]);
    }
  }

  /** In every reachable state, a call about to release its lock with its reply tells the truth about the
      store as it is then: Put's Ok means present; unless the call was blind, Delete's Ok and Get's NotFound
      mean absent and Exists is exact; Get's bytes are the stored ones. */
  lemma RepliesAreTruthful(cfg: Config, n: nat, run: seq<Action>, t: nat)
    requires Legal(cfg, Init(n), run) && t < n
    ensures var s := After(cfg, Init(n), run);
      && t < |s.procs|
      && (s.procs[t].Busy? ==> Truthful(Entry(s, s.procs[t].op.id), s.procs[t]))
  {
    InitInv(cfg.h, n);
    RunKeeps(cfg, Init(n), run);
    RunReplies(cfg, Init(n), run);
  }

  /** A failing system call that the call cannot do without. */
  predicate Fatal(pc: Pc)
  {
    || pc.MakeDir? || pc.OpenTemp? || pc.Write? || pc.Sync? || pc.Rename?
    || pc.OpenRead? || pc.Remove? || (pc.Read? && pc.size > 0)
  }

  /** A call that has not decided on its reply decides on IoError exactly when such a system call fails. */
  lemma IoErrorExactly(h: HashFn, s: State, p: Proc, c: Choice)
    requires p.Busy? && ProcOk(h, s.chunks, s.temps, p) && Verdict(p.pc).None?
    ensures Verdict(NextPc(h, p.op, p.pc, Entry(s, p.op.id), c)) == Some(Failed(IoError)) <==> !c.ok && Fatal(p.pc)
  {
  }

  /** The exact fate of an acknowledged Put in every interleaving: when it is about to answer Ok its chunk is
      in place, and a crash may then lose it iff the chunk was absent at some moment since the last
      successful fsync of its directory, or the shard directory never reached the disk. */
  lemma AcknowledgedPutLoss(cfg: Config, n: nat, run: seq<Action>, t: nat)
    requires Legal(cfg, Init(n), run) && t < n
    requires var s := After(cfg, Init(n), run);
      t < |s.procs| && s.procs[t].Busy? && s.procs[t].op.Put? && s.procs[t].pc == Unlock(Done)
    ensures var s := After(cfg, Init(n), run); var id := s.procs[t].op.id;
      && id in Contents(s) && cfg.h(Contents(s)[id]) == id
      && ((exists lost :: CanDrop(cfg, s, id, lost)) <==>
            Held(cfg, Init(n), run, id, None) || !Written(cfg, Init(n), run, ShardOf(id)))
  {
    var s := After(cfg, Init(n), run);
    var id := s.procs[t].op.id;
    RepliesAreTruthful(cfg, n, run, t);
    CrashOutcomes(cfg, n, run, id, []);
    InitInv(cfg.h, n);
    RunKeeps(cfg, Init(n), run);
    assert FileOk(cfg.h, id, s.chunks[id]);
  }
}
