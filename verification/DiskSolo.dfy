/** One call running alone, system call by system call: exactly what it leaves behind, and with that the
    inputs on which the store does less than its answer says. */
module DiskSolo {
  import opened Prelude
  import opened AtomicStore
  import opened DiskMachine
  import opened DiskInvariant
  import opened DiskAccounting
  import opened DiskCrash
  import opened DiskProgress

  predicate Unprobed(pc: Pc)
  {
    pc.Start? || pc.WaitLock? || pc.WaitInner? || pc.Probe?
  }

  predicate Unrenamed(pc: Pc)
  {
    Unopened(pc) || pc.Write? || pc.Sync? || pc.Rename?
  }

  predicate OnTrack(pc: Pc)
  {
    Unrenamed(pc) || AfterRename(pc) || pc == Unlock(Done)
  }

  /** The Put is going to rename, because it will not find, or has not found, the chunk `present`. */
  predicate WillRename(pc: Pc, probeOk: bool, present: bool)
  {
    Unrenamed(pc) && !(Unprobed(pc) && probeOk && present)
  }

  /** All system calls succeed, except the existence probe if `!probeOk` and the directory fsync if `!dirOk`. */
  function SoloChoice(pc: Pc, uuid: string, probeOk: bool, dirOk: bool): Choice
  {
    Choice(if pc.Probe? then probeOk else if pc.SyncDir? then dirOk else true, 0, uuid)
  }

  /** The run consists of such steps of thread `t`. */
  ghost predicate Solo(cfg: Config, s: State, run: seq<Action>, t: nat, uuid: string, probeOk: bool, dirOk: bool)
    requires Legal(cfg, s, run)
    decreases |run|
  {
    run == [] ||
    (&& t < |s.procs| && s.procs[t].Busy? && run[0] == Step(t, SoloChoice(s.procs[t].pc, uuid, probeOk, dirOk))
     && Solo(cfg, Apply(cfg, s, run[0]), run[1..], t, uuid, probeOk, dirOk))
  }

  predicate SoloReady(cfg: Config, s: State, t: nat, uuid: string)
  {
    && cfg.reentrant && IsUuid(uuid)
    && t < |s.procs| && s.procs[t].Busy? && s.procs[t].op.Put? && OnTrack(s.procs[t].pc)
    && var Busy(op, pc, _) := s.procs[t];
       && cfg.h(op.data) == op.id
       && (pc.WaitLock? || pc.Start? ==> Stripe(op.id) !in s.locks)
       && (Unopened(pc) ==> TempName(op.id, uuid) !in s.temps)
       && (pc == Unlock(Done) ==> op.id in s.chunks)
  }

  // ---------------------------------------------------------------------------------------------
  // One step

  lemma SoloEnabled(cfg: Config, s: State, t: nat, uuid: string, probeOk: bool, dirOk: bool)
    requires Inv(cfg.h, s) && SoloReady(cfg, s, t, uuid)
    ensures Enabled(cfg, s, Step(t, SoloChoice(s.procs[t].pc, uuid, probeOk, dirOk)))
  {
    assert LockOk(s, t);
  }

  lemma SoloControl(h: HashFn, p: Proc, file: Option<File>, uuid: string, probeOk: bool, dirOk: bool)
    requires p.Busy? && p.op.Put? && OnTrack(p.pc) && h(p.op.data) == p.op.id
    ensures var c := SoloChoice(p.pc, uuid, probeOk, dirOk); var pc' := NextPc(h, p.op, p.pc, file, c);
      && NextProc(h, p, file, c).Busy? && NextProc(h, p, file, c).op == p.op && NextProc(h, p, file, c).pc == pc'
      && (if p.pc == Unlock(Done) then pc' == Return(Done) else OnTrack(pc') && Rank(pc') < Rank(p.pc))
      && (WillRename(p.pc, probeOk, file.Some?) <==> p.pc.Rename? || WillRename(pc', probeOk, file.Some?))
      && (pc'.SyncDir? <==> p.pc.Rename?) && (pc'.AddCount? <==> p.pc.SyncDir?) && (pc'.AddBytes? <==> p.pc.AddCount?)
  {
  }

  /** Where the next position still waits, the files it waits for are as they were. */
  lemma SoloWaits(h: HashFn, s: State, t: nat, p: Proc, c: Choice)
    requires p.Busy? && p.op.Put? && OnTrack(p.pc)
    ensures var pc' := NextPc(h, p.op, p.pc, Entry(s, p.op.id), c);
      && !pc'.Start? && (pc'.WaitLock? ==> p.pc.Start? && NextLocks(s, t, p.op, p.pc) == s.locks)
      && (Unopened(pc') ==> Unopened(p.pc) && NextTemps(s.temps, p.op, p.pc, c) == s.temps)
  {
  }

  /** The only file change is the rename, which publishes the payload. */
  lemma SoloChunks(h: HashFn, s: State, p: Proc, c: Choice)
    requires p.Busy? && p.op.Put? && OnTrack(p.pc) && ProcOk(h, s.chunks, s.temps, p) && (p.pc.Rename? ==> c.ok)
    ensures NextChunks(s, p.op, p.pc, c) ==
            if p.pc.Rename? then s.chunks[p.op.id := File(p.op.data, true)] else s.chunks
    ensures p.pc != Unlock(Done) && NextPc(h, p.op, p.pc, Entry(s, p.op.id), c) == Unlock(Done) ==>
      p.op.id in NextChunks(s, p.op, p.pc, c)
  {
  }

  lemma SoloStep(cfg: Config, s: State, t: nat, uuid: string, probeOk: bool, dirOk: bool)
    requires Inv(cfg.h, s) && SoloReady(cfg, s, t, uuid) && s.procs[t].pc != Unlock(Done)
    ensures SoloReady(cfg, StepProc(cfg, s, t, SoloChoice(s.procs[t].pc, uuid, probeOk, dirOk)), t, uuid)
  {
    var p, c := s.procs[t], SoloChoice(s.procs[t].pc, uuid, probeOk, dirOk);
    assert ProcOk(cfg.h, s.chunks, s.temps, p);
    SoloControl(cfg.h, p, Entry(s, p.op.id), uuid, probeOk, dirOk);
    SoloWaits(cfg.h, s, t, p, c);
    SoloChunks(cfg.h, s, p, c);
    var s' := StepProc(cfg, s, t, c);
    assert s'.procs[t] == NextProc(cfg.h, p, Entry(s, p.op.id), c);
  }

  // ---------------------------------------------------------------------------------------------
  // What is still to come

  /** What the rest of the Put will leave behind: the chunks, whether an absence can be undone, and the counters. */
  datatype Forecast = Forecast(chunks: map<Digest, File>, absent: bool, count: nat, bytes: nat, over: nat)

  ghost function Ahead(s: State, t: nat, probeOk: bool, dirOk: bool): Forecast
    requires t < |s.procs| && s.procs[t].Busy? && s.procs[t].op.Put?
  {
    var Busy(op, pc, _) := s.procs[t];
    var renames := WillRename(pc, probeOk, op.id in s.chunks);
    Forecast(
      if renames then s.chunks[op.id := File(op.data, true)] else s.chunks,
      None in Images(s, op.id) && !(dirOk && (renames || pc.SyncDir?)),
      if renames || pc.SyncDir? || pc.AddCount? then Wrap64(s.count + 1) else s.count,
      if renames || AfterRename(pc) then Wrap64(s.bytes + |op.data|) else s.bytes,
      s.overCount + (if renames && op.id in s.chunks then 1 else 0))
  }

  lemma SoloImages(cfg: Config, s: State, t: nat, c: Choice)
    requires Inv(cfg.h, s) && Enabled(cfg, s, Step(t, c)) && s.procs[t].op.Put?
    requires s.procs[t].pc.Rename? ==> c.ok
    ensures var id := s.procs[t].op.id;
      None in Images(StepProc(cfg, s, t, c), id) <==> None in Images(s, id) && !(s.procs[t].pc.SyncDir? && c.ok)
  {
    var p := s.procs[t];
    assert ProcOk(cfg.h, s.chunks, s.temps, p);
    ImagesStep(cfg, s, Step(t, c), p.op.id);
    PutNeverRemoves(cfg.h, s, p, c);
  }

  lemma PutNeverRemoves(h: HashFn, s: State, p: Proc, c: Choice)
    requires p.Busy? && p.op.Put? && ProcOk(h, s.chunks, s.temps, p)
    ensures p.op.id in s.chunks ==> p.op.id in NextChunks(s, p.op, p.pc, c)
    ensures p.pc.SyncDir? ==> p.op.id in NextChunks(s, p.op, p.pc, c)
  {
  }

  /** A step of a Put on its way, seen from outside. */
  ghost predicate SoloMove(s: State, s': State, t: nat, probeOk: bool, dirOk: bool)
    requires t < |s.procs| && s.procs[t].Busy? && s.procs[t].op.Put?
  {
    var Busy(op, pc, _) := s.procs[t];
    && t < |s'.procs| && s'.procs[t].Busy? && s'.procs[t].op == op && s'.durableShards == s.durableShards
    && var pc' := s'.procs[t].pc; var present := op.id in s.chunks;
       && (WillRename(pc, probeOk, present) <==> pc.Rename? || WillRename(pc', probeOk, present))
       && (pc'.SyncDir? <==> pc.Rename?) && (pc'.AddCount? <==> pc.SyncDir?) && (pc'.AddBytes? <==> pc.AddCount?)
       && s'.chunks == (if pc.Rename? then s.chunks[op.id := File(op.data, true)] else s.chunks)
       && (None in Images(s', op.id) <==> None in Images(s, op.id) && !(pc.SyncDir? && dirOk))
       && s'.count == NextCount(s.count, pc) && s'.bytes == NextBytes(s.bytes, op, pc)
       && s'.overCount == s.overCount + (if pc.Rename? && present then 1 else 0)
  }

  lemma SoloMoves(cfg: Config, s: State, t: nat, uuid: string, probeOk: bool, dirOk: bool)
    requires Inv(cfg.h, s) && SoloReady(cfg, s, t, uuid)
    ensures SoloMove(s, StepProc(cfg, s, t, SoloChoice(s.procs[t].pc, uuid, probeOk, dirOk)), t, probeOk, dirOk)
  {
    var p, c := s.procs[t], SoloChoice(s.procs[t].pc, uuid, probeOk, dirOk);
    assert ProcOk(cfg.h, s.chunks, s.temps, p);
    SoloControl(cfg.h, p, Entry(s, p.op.id), uuid, probeOk, dirOk);
    SoloChunks(cfg.h, s, p, c);
    SoloEnabled(cfg, s, t, uuid, probeOk, dirOk);
    SoloImages(cfg, s, t, c);
  }

  /** Every step keeps the forecast. */
  lemma AheadKept(s: State, s': State, t: nat, probeOk: bool, dirOk: bool)
    requires t < |s.procs| && s.procs[t].Busy? && s.procs[t].op.Put? && OnTrack(s.procs[t].pc)
    requires SoloMove(s, s', t, probeOk, dirOk)
    ensures Ahead(s', t, probeOk, dirOk) == Ahead(s, t, probeOk, dirOk)
  {
  }

  /** The Put has come to `return Ok`, with the forecast fulfilled. */
  ghost predicate Arrived(end: State, t: nat, op: Op, e: Forecast, durableShards: set<Shard>)
  {
    && t < |end.procs| && end.procs[t].Busy? && end.procs[t].op == op && end.procs[t].pc == Return(Done)
    && end.chunks == e.chunks && op.id in end.chunks && (None in Images(end, op.id) <==> e.absent)
    && end.count == e.count && end.bytes == e.bytes && end.overCount == e.over && end.durableShards == durableShards
  }

  lemma SoloArrives(cfg: Config, s: State, t: nat, uuid: string, probeOk: bool, dirOk: bool)
    requires Inv(cfg.h, s) && SoloReady(cfg, s, t, uuid) && s.procs[t].pc == Unlock(Done)
    ensures Arrived(StepProc(cfg, s, t, SoloChoice(s.procs[t].pc, uuid, probeOk, dirOk)), t, s.procs[t].op,
                    Ahead(s, t, probeOk, dirOk), s.durableShards)
  {
    SoloMoves(cfg, s, t, uuid, probeOk, dirOk);
    SoloControl(cfg.h, s.procs[t], Entry(s, s.procs[t].op.id), uuid, probeOk, dirOk);
  }

  lemma Continue(cfg: Config, s: State, a: Action, rest: seq<Action>, run: seq<Action>)
    requires Enabled(cfg, s, a) && Legal(cfg, Apply(cfg, s, a), rest) && run == [a] + rest
    ensures Legal(cfg, s, run) && After(cfg, s, run) == After(cfg, Apply(cfg, s, a), rest)
    ensures run[0] == a && run[1..] == rest
  {
    assert run[1..] == rest;
  }

  /** The run of one Put that answers Ok, and exactly what it leaves behind. */
  lemma {:induction false} SoloPut(cfg: Config, s: State, t: nat, uuid: string, probeOk: bool, dirOk: bool)
    returns (run: seq<Action>)
    requires Inv(cfg.h, s) && SoloReady(cfg, s, t, uuid)
    ensures Legal(cfg, s, run) && Solo(cfg, s, run, t, uuid, probeOk, dirOk)
    ensures Arrived(After(cfg, s, run), t, s.procs[t].op, Ahead(s, t, probeOk, dirOk), s.durableShards)
    decreases Rank(s.procs[t].pc)
  {
    var p, c := s.procs[t], SoloChoice(s.procs[t].pc, uuid, probeOk, dirOk);
    var s' := StepProc(cfg, s, t, c);
    SoloEnabled(cfg, s, t, uuid, probeOk, dirOk);
    var rest := [];
    if p.pc == Unlock(Done) {
      SoloArrives(cfg, s, t, uuid, probeOk, dirOk);
    } else {
      SoloControl(cfg.h, p, Entry(s, p.op.id), uuid, probeOk, dirOk);
      SoloMoves(cfg, s, t, uuid, probeOk, dirOk);
      AheadKept(s, s', t, probeOk, dirOk);
      StepKeeps(cfg, s, t, c);
      SoloStep(cfg, s, t, uuid, probeOk, dirOk);
      rest := SoloPut(cfg, s', t, uuid, probeOk, dirOk);
    }
    run := [Step(t, c)] + rest;
    Continue(cfg, s, Step(t, c), rest, run);
  }

  // ---------------------------------------------------------------------------------------------
  // An acknowledged Put that a crash may lose

  /** The thread is about to start a Put of matching data, and its stripe is free. */
  predicate Starts(cfg: Config, s: State, t: nat, uuid: string)
  {
    SoloReady(cfg, s, t, uuid) && s.procs[t].pc.Start?
  }

  /** The Put that deduplicates: it finds the chunk and writes nothing. */
  predicate Dedups(s: State, t: nat, probeOk: bool)
    requires t < |s.procs| && s.procs[t].Busy?
  {
    probeOk && s.procs[t].op.id in s.chunks
  }

  /** Exactly when the chunk of a Put that has answered Ok may be lost in a crash. Either the entry of its
      shard directory is not on disk; or the chunk's own entry could be found absent before the call, and
      the call has not fsynced the directory, because the fsync failed or because it deduplicated. */
  lemma OkPutLossExactly(cfg: Config, s: State, t: nat, uuid: string, probeOk: bool, dirOk: bool)
    returns (run: seq<Action>)
    requires Inv(cfg.h, s) && Starts(cfg, s, t, uuid)
    ensures Legal(cfg, s, run) && Solo(cfg, s, run, t, uuid, probeOk, dirOk)
    ensures var end := After(cfg, s, run); var id := s.procs[t].op.id;
      && t < |end.procs| && end.procs[t].Busy? && end.procs[t].pc == Return(Done) && id in end.chunks
      && (CanDrop(cfg, end, id, {}) <==> None in Images(s, id) && (!dirOk || Dedups(s, t, probeOk)))
      && ((exists lost :: CanDrop(cfg, end, id, lost)) <==>
            ShardOf(id) !in s.durableShards || (None in Images(s, id) && (!dirOk || Dedups(s, t, probeOk))))
  {
    run := SoloPut(cfg, s, t, uuid, probeOk, dirOk);
    var end, id := After(cfg, s, run), s.procs[t].op.id;
    CrashDrops(cfg, end, id, {});
    CrashMayDrop(cfg, end, id);
  }

  /** First cause: the directory fsync fails, which the code only logs. The Put of an absent chunk still
      answers Ok, and a crash that loses no directory at all may find no chunk. */
  lemma OkPutMayBeLost(cfg: Config, s: State, t: nat, uuid: string) returns (run: seq<Action>)
    requires Inv(cfg.h, s) && Starts(cfg, s, t, uuid) && s.procs[t].op.id !in s.chunks
    ensures Legal(cfg, s, run) && Solo(cfg, s, run, t, uuid, true, false)
    ensures var end := After(cfg, s, run); var id := s.procs[t].op.id;
      && t < |end.procs| && end.procs[t].Busy? && end.procs[t].pc == Return(Done) && id in end.chunks
      && CanDrop(cfg, end, id, {})
  {
    run := OkPutLossExactly(cfg, s, t, uuid, true, false);
  }

  /** Second cause: every system call succeeds, but nobody fsyncs the parent of a new shard directory. The
      chunk's own entry is safe, and is lost together with the directory it is in. */
  lemma OkPutMayBeLostWithShard(cfg: Config, s: State, t: nat, uuid: string) returns (run: seq<Action>)
    requires Inv(cfg.h, s) && Starts(cfg, s, t, uuid) && s.procs[t].op.id !in s.chunks
    requires ShardOf(s.procs[t].op.id) !in s.durableShards
    ensures Legal(cfg, s, run) && Solo(cfg, s, run, t, uuid, true, true)
    ensures var end := After(cfg, s, run); var id := s.procs[t].op.id;
      && t < |end.procs| && end.procs[t].Busy? && end.procs[t].pc == Return(Done) && id in end.chunks
      && !CanDrop(cfg, end, id, {}) && CanDrop(cfg, end, id, {ShardOf(id)})
  {
    run := SoloPut(cfg, s, t, uuid, true, true);
    var end, id := After(cfg, s, run), s.procs[t].op.id;
    CrashDrops(cfg, end, id, {});
    CrashDrops(cfg, end, id, {ShardOf(id)});
  }

  /** Third cause: a Put that finds the chunk answers Ok at once and fsyncs nothing, although the chunk it
      has found may not have reached the disk. */
  lemma DuplicatePutMayBeLost(cfg: Config, s: State, t: nat, uuid: string) returns (run: seq<Action>)
    requires Inv(cfg.h, s) && Starts(cfg, s, t, uuid)
    requires s.procs[t].op.id in s.chunks && None in Images(s, s.procs[t].op.id)
    ensures Legal(cfg, s, run) && Solo(cfg, s, run, t, uuid, true, true)
    ensures var end := After(cfg, s, run); var id := s.procs[t].op.id;
      && t < |end.procs| && end.procs[t].Busy? && end.procs[t].pc == Return(Done)
      && end.chunks == s.chunks && CanDrop(cfg, end, id, {})
  {
    run := SoloPut(cfg, s, t, uuid, true, true);
    CrashDrops(cfg, After(cfg, s, run), s.procs[t].op.id, {});
  }

  /** The count can drift: a Put whose existence probe fails on a present chunk renames over it and counts
      it a second time, although the number of files is the same. */
  lemma BlindPutOverCounts(cfg: Config, s: State, t: nat, uuid: string) returns (run: seq<Action>)
    requires Inv(cfg.h, s) && Starts(cfg, s, t, uuid) && s.procs[t].op.id in s.chunks
    ensures Legal(cfg, s, run) && Solo(cfg, s, run, t, uuid, false, true)
    ensures var end := After(cfg, s, run);
      && t < |end.procs| && end.procs[t].Busy? && end.procs[t].pc == Return(Done)
      && end.chunks.Keys == s.chunks.Keys && end.count == Wrap64(s.count + 1)
      && end.bytes == Wrap64(s.bytes + |s.procs[t].op.data|) && end.overCount == s.overCount + 1
  {
    run := SoloPut(cfg, s, t, uuid, false, true);
  }

  // ---------------------------------------------------------------------------------------------
  // A Get or a Delete whose `file_size` fails on a present chunk

  function BlindReply(op: Op): Reply
  {
    if op.Delete? then Done else Failed(NotFound)
  }

  /** Exactly when a Delete goes on to answer Ok, or a Get NotFound, with the chunk in place. */
  lemma FailedStat(cfg: Config, s: State, t: nat, c: Choice)
    requires Inv(cfg.h, s) && Enabled(cfg, s, Step(t, c)) && s.procs[t].pc.Stat?
    ensures var id := s.procs[t].op.id; var s' := StepProc(cfg, s, t, c);
      && s'.procs[t].Busy? && s'.chunks == s.chunks
      && (s'.procs[t].pc == Unlock(BlindReply(s.procs[t].op)) && id in s'.chunks <==> !c.ok && id in s.chunks)
  {
    assert ProcOk(cfg.h, s.chunks, s.temps, s.procs[t]);
  }

  lemma TakesFreeLock(cfg: Config, s: State, t: nat, c: Choice)
    requires t < |s.procs| && s.procs[t].Busy? && s.procs[t].pc.WaitLock? && Stripe(s.procs[t].op.id) !in s.locks
    requires s.procs[t].op.Delete? || s.procs[t].op.Get?
    ensures Enabled(cfg, s, Step(t, c))
    ensures var s' := StepProc(cfg, s, t, c);
      && t < |s'.procs| && s'.procs[t].Busy? && s'.procs[t].op == s.procs[t].op
      && s'.procs[t].pc == Stat && s'.chunks == s.chunks
  {
  }

  lemma Unlocks(cfg: Config, s: State, t: nat, c: Choice)
    requires t < |s.procs| && s.procs[t].Busy? && s.procs[t].pc.Unlock?
    ensures Legal(cfg, s, [Step(t, c)])
    ensures var s' := After(cfg, s, [Step(t, c)]);
      && t < |s'.procs| && s'.procs[t].Busy? && s'.procs[t].op == s.procs[t].op
      && s'.procs[t].pc == Return(s.procs[t].pc.reply) && s'.chunks == s.chunks
  {
    assert [Step(t, c)][1..] == [];
  }

  /** Such a run from any state where the call can take its lock: the answer is given, nothing was deleted. */
  lemma BlindAnswer(cfg: Config, s: State, t: nat) returns (run: seq<Action>)
    requires Inv(cfg.h, s) && t < |s.procs| && s.procs[t].Busy? && s.procs[t].pc.WaitLock?
    requires s.procs[t].op.Delete? || s.procs[t].op.Get?
    requires s.procs[t].op.id in s.chunks && Stripe(s.procs[t].op.id) !in s.locks
    ensures Legal(cfg, s, run) && |run| == 3 && forall a :: a in run ==> a.Step? && a.t == t
    ensures var end := After(cfg, s, run);
      && t < |end.procs| && end.procs[t].Busy? && end.procs[t].op == s.procs[t].op
      && end.procs[t].pc == Return(BlindReply(s.procs[t].op)) && end.chunks == s.chunks
  {
    var ok, no := Choice(true, 0, []), Choice(false, 0, []);
    TakesFreeLock(cfg, s, t, ok);
    StepKeeps(cfg, s, t, ok);
    var s1 := StepProc(cfg, s, t, ok);
    FailedStat(cfg, s1, t, no);
    StepFrame(cfg, s1, t, no);
    Unlocks(cfg, StepProc(cfg, s1, t, no), t, ok);
    var tail := [Step(t, no)] + [Step(t, ok)];
    Continue(cfg, s1, Step(t, no), [Step(t, ok)], tail);
    run := [Step(t, ok)] + tail;
    Continue(cfg, s, Step(t, ok), tail, run);
  }
}
