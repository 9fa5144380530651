/** The statistics counters under concurrency, and the number of steps that remain. */
module DiskAccounting {
  import opened Prelude
  import opened AtomicStore
  import opened DiskMachine
  import opened DiskInvariant
  import opened Sums
  import L = DiskLinearizability

  /** Three quantities summed over the threads: files and bytes by which the counters lag behind the
      disk because an operation is between its file change and its counter update, and steps left. */
  datatype Weight = FilesOwed | BytesOwed | StepsLeft

  function Rank(pc: Pc): nat
  {
    match pc
    case Start => 14
    case WaitLock => 13
    case WaitInner => 12
    case Probe => 11
    case MakeDir => 10
    case OpenTemp => 9
    case Write(_) => 8
    case Sync(_) => 7
    case Rename(_) => 6
    case Stat => 6
    case SyncDir => 5
    case Remove(_) => 5
    case AddCount => 4
    case SubCount(_) => 4
    case OpenRead(_) => 4
    case CleanTemp(_) => 3
    case AddBytes => 3
    case SubBytes(_) => 3
    case Read(_) => 3
    case Unlock(_) => 2
    case Return(_) => 1
  }

  function WeightOf(p: Proc, w: Weight): int
  {
    if p.Idle? then 0 else
    match w
    case FilesOwed =>
      if p.op.Put? && (p.pc.SyncDir? || p.pc.AddCount?) then 1 else if p.pc.SubCount? then -1 else 0
    case BytesOwed =>
      if p.op.Put? && AfterRename(p.pc) then |p.op.data|
      else if p.pc.SubCount? || p.pc.SubBytes? then 0 - p.pc.size else 0
    case StepsLeft => Rank(p.pc)
  }

  function Tally(procs: seq<Proc>, w: Weight): int
  {
    if procs == [] then 0 else Tally(procs[..|procs| - 1], w) + WeightOf(procs[|procs| - 1], w)
  }

  lemma {:induction false} TallyUpdate(procs: seq<Proc>, t: nat, p: Proc, w: Weight)
    requires t < |procs|
    ensures Tally(procs[t := p], w) == Tally(procs, w) - WeightOf(procs[t], w) + WeightOf(p, w)
    decreases |procs|
  {
    var n := |procs| - 1;
    if t == n {
      assert procs[t := p][..n] == procs[..n];
    } else {
      TallyUpdate(procs[..n], t, p, w);
      assert procs[t := p][..n] == procs[..n][t := p];
    }
  }

  lemma {:induction false} TallyIdle(procs: seq<Proc>, w: Weight)
    requires forall t :: 0 <= t < |procs| ==> procs[t].Idle?
    ensures Tally(procs, w) == 0
    decreases |procs|
  {
    if procs != [] {
      TallyIdle(procs[..|procs| - 1], w);
    }
  }

  /** The exact value the file counter stands for, before reduction to 64 bits. */
  ghost function ExactCount(s: State): int
  {
    |s.chunks| + s.overCount - Tally(s.procs, FilesOwed)
  }

  ghost function ExactBytes(s: State): int
  {
    TotalSize(Contents(s)) + s.overBytes - Tally(s.procs, BytesOwed)
  }

  ghost predicate Accounted(s: State)
  {
    s.count == Wrap64(ExactCount(s)) && s.bytes == Wrap64(ExactBytes(s))
  }

  lemma SameKeys(chunks: map<Digest, File>)
    ensures |Bodies(chunks)| == |chunks|
  {
    assert Bodies(chunks).Keys == chunks.Keys;
  }

  function CountDelta(pc: Pc): int
  {
    if pc.AddCount? then 1 else if pc.SubCount? then -1 else 0
  }

  function BytesDelta(op: Op, pc: Pc): int
  {
    if pc.AddBytes? && op.Put? then |op.data| else if pc.SubBytes? then 0 - pc.size else 0
  }

  /** What a thread owes grows with its file change and shrinks with its counter update. */
  lemma OwedDelta(h: HashFn, s: State, p: Proc, c: Choice)
    requires p.Busy? && ProcOk(h, s.chunks, s.temps, p)
    ensures var p' := NextProc(h, p, Entry(s, p.op.id), c);
      var renames := Renames(s.temps, p.pc, c); var removes := Removes(s.chunks, p.op, p.pc, c);
      && WeightOf(p', FilesOwed) - WeightOf(p, FilesOwed)
         == (if renames then 1 else if removes then -1 else 0) - CountDelta(p.pc)
      && WeightOf(p', BytesOwed) - WeightOf(p, BytesOwed)
         == (if renames then |p.op.data| else if removes then 0 - p.pc.size else 0) - BytesDelta(p.op, p.pc)
  {
  }

  lemma RenameSize(h: HashFn, s: State, p: Proc, c: Choice)
    requires p.Busy? && ProcOk(h, s.chunks, s.temps, p) && Renames(s.temps, p.pc, c)
    ensures var m := Contents(s); var m' := Bodies(NextChunks(s, p.op, p.pc, c)); var over := p.op.id in s.chunks;
      && |m'| + (if over then 1 else 0) == |m| + 1
      && TotalSize(m') + (if over then |s.chunks[p.op.id].content| else 0) == TotalSize(m) + |p.op.data|
  {
    NextContents(s, p.op, p.pc, c);
    var m := Contents(s);
    if p.op.id in m { TotalSizeReplace(m, p.op.id, p.op.data); } else { TotalSizeInsert(m, p.op.id, p.op.data); }
  }

  lemma RemoveSize(h: HashFn, s: State, p: Proc, c: Choice)
    requires p.Busy? && ProcOk(h, s.chunks, s.temps, p) && Removes(s.chunks, p.op, p.pc, c)
    ensures var m := Contents(s); var m' := Bodies(NextChunks(s, p.op, p.pc, c));
      |m'| == |m| - 1 && TotalSize(m') == TotalSize(m) - p.pc.size
  {
    NextContents(s, p.op, p.pc, c);
    TotalSizeSplit(Contents(s), p.op.id);
  }

  /** A step changes the exact counter values only by what it adds to the counters. */
  lemma StepExact(cfg: Config, s: State, t: nat, c: Choice, s': State)
    requires Inv(cfg.h, s) && Enabled(cfg, s, Step(t, c)) && s' == StepProc(cfg, s, t, c)
    ensures ExactCount(s') == ExactCount(s) + CountDelta(s.procs[t].pc)
    ensures ExactBytes(s') == ExactBytes(s) + BytesDelta(s.procs[t].op, s.procs[t].pc)
  {
    var p := s.procs[t];
    assert ProcOk(cfg.h, s.chunks, s.temps, p);
    TallyUpdate(s.procs, t, s'.procs[t], FilesOwed);
    TallyUpdate(s.procs, t, s'.procs[t], BytesOwed);
    SameKeys(s.chunks);
    SameKeys(s'.chunks);
    OwedDelta(cfg.h, s, p, c);
    if Renames(s.temps, p.pc, c) { RenameSize(cfg.h, s, p, c); }
    else if Removes(s.chunks, p.op, p.pc, c) { RemoveSize(cfg.h, s, p, c); }
  }

  lemma CounterDelta(x: int, y: int, op: Op, pc: Pc)
    ensures NextCount(Wrap64(x), pc) == Wrap64(x + CountDelta(pc))
    ensures NextBytes(Wrap64(y), op, pc) == Wrap64(y + BytesDelta(op, pc))
  {
    WrapAdd(x, CountDelta(pc));
    WrapAdd(y, BytesDelta(op, pc));
  }

  lemma AccountedStep(s: State, s': State, op: Op, pc: Pc)
    requires Accounted(s)
    requires s'.count == NextCount(s.count, pc) && s'.bytes == NextBytes(s.bytes, op, pc)
    requires ExactCount(s') == ExactCount(s) + CountDelta(pc)
    requires ExactBytes(s') == ExactBytes(s) + BytesDelta(op, pc)
    ensures Accounted(s')
  {
    CounterDelta(ExactCount(s), ExactBytes(s), op, pc);
  }

  lemma StepAccounted(cfg: Config, s: State, t: nat, c: Choice)
    requires Inv(cfg.h, s) && Accounted(s) && Enabled(cfg, s, Step(t, c))
    ensures Accounted(StepProc(cfg, s, t, c))
  {
    var s' := StepProc(cfg, s, t, c);
    StepExact(cfg, s, t, c, s');
    AccountedStep(s, s', s.procs[t].op, s.procs[t].pc);
  }

  lemma RestartAccounted(s: State, image: map<Digest, Bytes>, lost: set<Shard>, leftovers: map<TempName, File>)
    ensures Accounted(Restart(s, image, lost, leftovers))
  {
    var s' := Restart(s, image, lost, leftovers);
    TallyIdle(s'.procs, FilesOwed);
    TallyIdle(s'.procs, BytesOwed);
    assert Contents(s') == image;
    SameKeys(s'.chunks);
  }

  /** A call that has not started owes nothing. */
  lemma InvokeAccounted(s: State, t: nat, p: Proc)
    requires Accounted(s) && t < |s.procs| && s.procs[t].Idle? && p.Busy? && (p.pc.Start? || p.pc.WaitLock?)
    ensures Accounted(s.(procs := s.procs[t := p]))
  {
    TallyUpdate(s.procs, t, p, FilesOwed);
    TallyUpdate(s.procs, t, p, BytesOwed);
  }

  lemma FlushAccounted(s: State, shards: set<Shard>)
    requires Accounted(s)
    ensures Accounted(s.(durableShards := shards))
  {
    var s' := s.(durableShards := shards);
    assert ExactCount(s') == ExactCount(s) && ExactBytes(s') == ExactBytes(s);
  }

  lemma ActionAccounted(cfg: Config, s: State, a: Action)
    requires Inv(cfg.h, s) && Accounted(s) && Enabled(cfg, s, a)
    ensures Accounted(Apply(cfg, s, a))
  {
    match a
    case Step(t, c) => StepAccounted(cfg, s, t, c);
    case Invoke(t, op) => InvokeAccounted(s, t, Busy(op, if op.Put? then Start else WaitLock, false));
    case Flush(shard) => FlushAccounted(s, s.durableShards + {shard});
    case Crash(image, lost, leftovers) => RestartAccounted(s, image, lost, leftovers);
  }

  /** Counter accounting: at every moment of every run the counters are the number and total size of
      the files, plus what Puts have renamed over, less what operations in flight still owe. */
  lemma {:induction false} RunAccounted(cfg: Config, s: State, run: seq<Action>)
    requires Inv(cfg.h, s) && Accounted(s) && Legal(cfg, s, run)
    ensures Accounted(After(cfg, s, run))
    decreases |run|
  {
    if run != [] {
      ActionAccounted(cfg, s, run[0]);
      ActionKeeps(cfg, s, run[0]);
      RunAccounted(cfg, Apply(cfg, s, run[0]), run[1..]);
    }
  }

  ghost predicate AtRest(s: State)
  {
    forall t :: 0 <= t < |s.procs| ==> s.procs[t].Idle?
  }

  /** The counters are the truth plus what was renamed over; short of 2^64 files the count is exact
      if and only if nothing was. */
  ghost predicate TruthfulStats(s: State)
  {
    && s.count == Wrap64(|s.chunks| + s.overCount)
    && s.bytes == Wrap64(TotalSize(Contents(s)) + s.overBytes)
    && (|s.chunks| + s.overCount < U64 ==> (s.count == |s.chunks| <==> s.overCount == 0))
    && (TotalSize(Contents(s)) + s.overBytes < U64 ==> (s.bytes == TotalSize(Contents(s)) <==> s.overBytes == 0))
  }

  lemma RestStats(s: State)
    requires Accounted(s) && AtRest(s)
    ensures TruthfulStats(s)
  {
    TallyIdle(s.procs, FilesOwed);
    TallyIdle(s.procs, BytesOwed);
  }

  lemma InitAccounted(n: nat)
    ensures Accounted(Init(n))
  {
    TallyIdle(Init(n).procs, FilesOwed);
    TallyIdle(Init(n).procs, BytesOwed);
    assert Contents(Init(n)) == map[];
  }

  /** Whenever a run comes to rest, the statistics are exact if and only if no Put since the last
      restart has replaced a present file. */
  lemma QuiescentStats(cfg: Config, s: State, run: seq<Action>)
    requires Inv(cfg.h, s) && Accounted(s)
    requires Legal(cfg, s, run) && AtRest(After(cfg, s, run))
    ensures TruthfulStats(After(cfg, s, run))
  {
    RunAccounted(cfg, s, run);
    RestStats(After(cfg, s, run));
  }

  // ---------------------------------------------------------------------------------------------
  // The unsigned subtractions never go below zero

  predicate Counting(p: Proc)
  {
    p.Busy? && p.op.Put? && AfterRename(p.pc)
  }

  ghost function Room(m: map<Digest, Bytes>, w: Weight): int
  {
    if w.FilesOwed? then |m| else TotalSize(m)
  }

  /** Puts in flight account for different files, each one on disk. */
  ghost predicate Covered(procs: seq<Proc>, m: map<Digest, Bytes>)
  {
    && (forall u, v :: 0 <= u < v < |procs| && Counting(procs[u]) && Counting(procs[v]) ==> procs[u].op.id != procs[v].op.id)
    && (forall u :: 0 <= u < |procs| && Counting(procs[u]) ==>
          procs[u].op.id in m && m[procs[u].op.id] == procs[u].op.data)
  }

  lemma OneOwes(p: Proc, m: map<Digest, Bytes>, w: Weight)
    requires w != StepsLeft
    requires Counting(p) ==> p.op.id in m && m[p.op.id] == p.op.data
    ensures Counting(p) ==> WeightOf(p, w) <= Room(m, w) - Room(m - {p.op.id}, w)
    ensures !Counting(p) ==> WeightOf(p, w) <= 0
  {
    if Counting(p) {
      TotalSizeSplit(m, p.op.id);
    }
  }

  /** So what they owe fits into what is on disk, with room for what thread `t` will subtract. */
  lemma {:induction false} OwedFits(procs: seq<Proc>, m: map<Digest, Bytes>, t: nat, w: Weight)
    requires Covered(procs, m) && w != StepsLeft
    requires t < |procs| ==> !Counting(procs[t])
    ensures Tally(procs, w) <= Room(m, w) + (if t < |procs| then WeightOf(procs[t], w) else 0)
    decreases |procs|
  {
    if procs != [] {
      var n := |procs| - 1;
      var m' := if Counting(procs[n]) then m - {procs[n].op.id} else m;
      OneOwes(procs[n], m, w);
      assert forall u :: 0 <= u < n ==> procs[..n][u] == procs[u];
      assert Covered(procs[..n], m');
      OwedFits(procs[..n], m', t, w);
    }
  }

  lemma CoveredByDisk(h: HashFn, s: State)
    requires Inv(h, s)
    ensures Covered(s.procs, Contents(s))
  {
    forall u | 0 <= u < |s.procs| && Counting(s.procs[u])
      ensures s.procs[u].op.id in Contents(s) && Contents(s)[s.procs[u].op.id] == s.procs[u].op.data
    {
      assert ProcOk(h, s.chunks, s.temps, s.procs[u]);
    }
    forall u, v | 0 <= u < v < |s.procs| && Counting(s.procs[u]) && Counting(s.procs[v])
      ensures s.procs[u].op.id != s.procs[v].op.id
    {
      Exclusion(h, s, u, v);
    }
  }

  /** A Delete that is about to subtract finds at least that much in the exact values. */
  lemma RoomToSubtract(h: HashFn, s: State, t: nat)
    requires Inv(h, s) && t < |s.procs| && s.procs[t].Busy?
    ensures s.procs[t].pc.SubCount? ==> ExactCount(s) >= 1
    ensures s.procs[t].pc.SubBytes? ==> ExactBytes(s) >= s.procs[t].pc.size
  {
    assert ProcOk(h, s.chunks, s.temps, s.procs[t]);
    CoveredByDisk(h, s);
    SameKeys(s.chunks);
    if s.procs[t].pc.SubCount? { OwedFits(s.procs, Contents(s), t, FilesOwed); }
    if s.procs[t].pc.SubBytes? { OwedFits(s.procs, Contents(s), t, BytesOwed); }
  }

  /** Counters, too, never go below zero: in every run of a store of fewer than 2^64 files and bytes,
      `fetch_sub` takes away what the counter holds at least, so it subtracts without wrapping. */
  lemma SubtractionsNeverWrap(cfg: Config, n: nat, run: seq<Action>, t: nat)
    requires Legal(cfg, Init(n), run) && t < n
    requires var s := After(cfg, Init(n), run); ExactCount(s) < U64 && ExactBytes(s) < U64
    ensures var s := After(cfg, Init(n), run);
      && t < |s.procs|
      && (s.procs[t].Busy? && s.procs[t].pc.SubCount? ==>
            s.count >= 1 && NextCount(s.count, s.procs[t].pc) == s.count - 1)
      && (s.procs[t].Busy? && s.procs[t].pc.SubBytes? ==>
            s.bytes >= s.procs[t].pc.size && NextBytes(s.bytes, s.procs[t].op, s.procs[t].pc) == s.bytes - s.procs[t].pc.size)
  {
    InitInv(cfg.h, n);
    InitAccounted(n);
    RunKeeps(cfg, Init(n), run);
    RunAccounted(cfg, Init(n), run);
    var s := After(cfg, Init(n), run);
    if s.procs[t].Busy? { RoomToSubtract(cfg.h, s, t); }
  }

  /** The over-count grows only when a Put whose existence probe failed renames over a present chunk. */
  lemma OverCountNeedsBlindPut(cfg: Config, s: State, t: nat, c: Choice)
    requires Inv(cfg.h, s) && Enabled(cfg, s, Step(t, c))
    ensures var s' := StepProc(cfg, s, t, c); var p := s.procs[t];
      && (s'.overCount != s.overCount <==> Renames(s.temps, p.pc, c) && p.blind && p.op.id in s.chunks)
      && (s'.overCount == s.overCount ==> s'.overBytes == s.overBytes)
  {
    assert ProcOk(cfg.h, s.chunks, s.temps, s.procs[t]);
  }

  /** If no existence probe fails along a run, nothing is renamed over, so by QuiescentStats the
      statistics are exact whenever the run comes to rest. */
  lemma {:induction false} NoProbeFaultNoDrift(cfg: Config, s: State, run: seq<Action>)
    requires Inv(cfg.h, s) && L.Sighted(s) && Legal(cfg, s, run) && L.ProbesSucceed(cfg, s, run)
    requires s.overCount == 0 && s.overBytes == 0
    ensures After(cfg, s, run).overCount == 0 && After(cfg, s, run).overBytes == 0
    decreases |run|
  {
    if run != [] {
      var a := run[0];
      if a.Step? {
        OverCountNeedsBlindPut(cfg, s, a.t, a.c);
      }
      L.SightedStep(cfg, s, a);
      ActionKeeps(cfg, s, a);
      NoProbeFaultNoDrift(cfg, Apply(cfg, s, a), run[1..]);
    }
  }
}
