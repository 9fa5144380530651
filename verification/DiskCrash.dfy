/** What a crash can and cannot do to the chunk store, said in terms of the history of a run. */
module DiskCrash {
  import opened Prelude
  import opened AtomicStore
  import opened DiskMachine
  import opened DiskInvariant

  // ---------------------------------------------------------------------------------------------
  // Which values of a directory entry a crash may bring back

  /** The action leaves only the current value of the entry of `id` on disk: a successful fsync of its
      directory by whichever Put, or a restart. */
  predicate Settles(s: State, a: Action, id: Digest)
  {
    || a.Crash?
    || (a.Step? && a.t < |s.procs| && s.procs[a.t].Busy? && s.procs[a.t].pc.SyncDir? && a.c.ok
        && ShardOf(s.procs[a.t].op.id) == ShardOf(id))
  }

  ghost predicate Unsettled(cfg: Config, s: State, run: seq<Action>, id: Digest)
    requires Legal(cfg, s, run)
    decreases |run|
  {
    run == [] || (!Settles(s, run[0], id) && Unsettled(cfg, Apply(cfg, s, run[0]), run[1..], id))
  }

  /** At some moment of the run the entry of `id` was `v`, and nothing has settled it since. */
  ghost predicate Held(cfg: Config, s: State, run: seq<Action>, id: Digest, v: Option<File>)
    requires Legal(cfg, s, run)
    decreases |run|
  {
    || (Entry(s, id) == v && Unsettled(cfg, s, run, id))
    || (run != [] && Held(cfg, Apply(cfg, s, run[0]), run[1..], id, v))
  }

  lemma ImagesStep(cfg: Config, s: State, a: Action, id: Digest)
    requires Enabled(cfg, s, a)
    ensures var s' := Apply(cfg, s, a);
      Images(s', id) == (if Settles(s, a, id) then {} else Images(s, id)) + {Entry(s', id)}
  {
  }

  /** What a crash may bring back is exactly what the entry has been since it was last settled. */
  lemma {:induction false} ImagesAreHistory(cfg: Config, s: State, run: seq<Action>, id: Digest, v: Option<File>)
    requires Legal(cfg, s, run)
    ensures v in Images(After(cfg, s, run), id) <==>
      Held(cfg, s, run, id, v) || (v in Images(s, id) && Unsettled(cfg, s, run, id))
    decreases |run|
  {
    if run != [] {
      ImagesStep(cfg, s, run[0], id);
      ImagesAreHistory(cfg, Apply(cfg, s, run[0]), run[1..], id, v);
    }
  }

  /** The shard directory's own entry has reached the disk, by write-back or by surviving a crash. */
  ghost predicate Written(cfg: Config, s: State, run: seq<Action>, shard: Shard)
    requires Legal(cfg, s, run)
    decreases |run|
  {
    run != [] &&
    (|| run[0] == Flush(shard)
     || (run[0].Crash? && shard in s.shards && shard !in run[0].lost)
     || Written(cfg, Apply(cfg, s, run[0]), run[1..], shard))
  }

  lemma DurableStep(cfg: Config, s: State, a: Action)
    requires Inv(cfg.h, s) && Enabled(cfg, s, a)
    ensures s.durableShards <= Apply(cfg, s, a).durableShards
  {
  }

  lemma {:induction false} DurableHistory(cfg: Config, s: State, run: seq<Action>, shard: Shard)
    requires Inv(cfg.h, s) && Legal(cfg, s, run)
    ensures shard in After(cfg, s, run).durableShards <==> shard in s.durableShards || Written(cfg, s, run, shard)
    decreases |run|
  {
    if run != [] {
      DurableStep(cfg, s, run[0]);
      ActionKeeps(cfg, s, run[0]);
      DurableHistory(cfg, Apply(cfg, s, run[0]), run[1..], shard);
    }
  }

  // ---------------------------------------------------------------------------------------------
  // What one crash can do

  /** A crash may leave the chunk with content `b`. */
  ghost predicate CanShow(cfg: Config, s: State, id: Digest, b: Bytes)
  {
    exists image, lost :: Enabled(cfg, s, Crash(image, lost, map[])) && id in image && image[id] == b
  }

  /** A crash that loses exactly the shard directories `lost` may leave no chunk `id`. */
  ghost predicate CanDrop(cfg: Config, s: State, id: Digest, lost: set<Shard>)
  {
    exists image :: Enabled(cfg, s, Crash(image, lost, map[])) && id !in image
  }

  lemma CrashShows(cfg: Config, s: State, id: Digest, b: Bytes)
    requires Inv(cfg.h, s)
    ensures CanShow(cfg, s, id, b) <==> Some(File(b, true)) in Images(s, id)
  {
    forall image: map<Digest, Bytes>, lost | Enabled(cfg, s, Crash(image, lost, map[])) && id in image
      ensures Some(File(image[id], true)) in Images(s, id)
    {
      SurvivorIsImage(cfg, s, image, lost, id);
    }
    if Some(File(b, true)) in Images(s, id) {
      var image := Contents(s)[id := b];
      forall k | k in image
        ensures exists f :: Some(f) in Images(s, k) && (f.synced ==> image[k] == f.content)
      {
        var f := if k == id then File(b, true) else s.chunks[k];
        assert Some(f) in Images(s, k) && image[k] == f.content;
      }
      assert CrashImage(s, image, {});
      assert Enabled(cfg, s, Crash(image, {}, map[]));
    }
  }

  lemma SurvivorIsImage(cfg: Config, s: State, image: map<Digest, Bytes>, lost: set<Shard>, id: Digest)
    requires Inv(cfg.h, s) && CrashImage(s, image, lost) && id in image
    ensures cfg.h(image[id]) == id && Some(File(image[id], true)) in Images(s, id)
  {
    var f :| Some(f) in Images(s, id) && (f.synced ==> image[id] == f.content);
    assert FileOk(cfg.h, id, f);
    assert f == File(image[id], true);
  }

  /** The chunks that survive a crash in which `id` and the shards `lost` do not. */
  ghost function Survivors(s: State, id: Digest, lost: set<Shard>): map<Digest, Bytes>
  {
    map k | k in s.chunks && k != id && ShardOf(k) !in lost :: s.chunks[k].content
  }

  lemma CrashDrops(cfg: Config, s: State, id: Digest, lost: set<Shard>)
    ensures CanDrop(cfg, s, id, lost) <==> lost !! s.durableShards && (None in Images(s, id) || ShardOf(id) in lost)
  {
    if lost !! s.durableShards && (None in Images(s, id) || ShardOf(id) in lost) {
      var image := Survivors(s, id, lost);
      forall k | k in image
        ensures exists f :: Some(f) in Images(s, k) && (f.synced ==> image[k] == f.content)
      {
        assert Some(s.chunks[k]) in Images(s, k);
      }
      assert CrashImage(s, image, lost);
      assert Enabled(cfg, s, Crash(image, lost, map[]));
    }
  }

  // ---------------------------------------------------------------------------------------------
  // The theorems

  /** Crash atomicity: cut any run of any number of threads at any point; every final path is then
      absent or holds complete bytes that hash to its id, and those bytes were there at some earlier
      moment with no successful fsync of the directory and no restart since. */
  lemma CrashAtomicity(cfg: Config, n: nat, run: seq<Action>, image: map<Digest, Bytes>,
                       lost: set<Shard>, leftovers: map<TempName, File>)
    requires Legal(cfg, Init(n), run)
    requires Enabled(cfg, After(cfg, Init(n), run), Crash(image, lost, leftovers))
    ensures forall id :: id in image ==>
      cfg.h(image[id]) == id && Held(cfg, Init(n), run, id, Some(File(image[id], true)))
  {
    InitInv(cfg.h, n);
    RunKeeps(cfg, Init(n), run);
    var s := After(cfg, Init(n), run);
    forall id | id in image
      ensures cfg.h(image[id]) == id && Held(cfg, Init(n), run, id, Some(File(image[id], true)))
    {
      SurvivorIsImage(cfg, s, image, lost, id);
      ImagesAreHistory(cfg, Init(n), run, id, Some(File(image[id], true)));
    }
  }

  /** The outcomes of a crash, exactly, from the history alone. A chunk may come out with bytes `b` iff it
      had them at some moment not settled since; it may be gone iff it was absent at such a moment, or
      its shard directory never reached the disk. */
  lemma CrashOutcomes(cfg: Config, n: nat, run: seq<Action>, id: Digest, b: Bytes)
    requires Legal(cfg, Init(n), run)
    ensures CanShow(cfg, After(cfg, Init(n), run), id, b) <==> Held(cfg, Init(n), run, id, Some(File(b, true)))
    ensures (exists lost :: CanDrop(cfg, After(cfg, Init(n), run), id, lost)) <==>
      Held(cfg, Init(n), run, id, None) || !Written(cfg, Init(n), run, ShardOf(id))
  {
    InitInv(cfg.h, n);
    RunKeeps(cfg, Init(n), run);
    var s := After(cfg, Init(n), run);
    CrashShows(cfg, s, id, b);
    ImagesAreHistory(cfg, Init(n), run, id, Some(File(b, true)));
    ImagesAreHistory(cfg, Init(n), run, id, None);
    DurableHistory(cfg, Init(n), run, ShardOf(id));
    CrashMayDrop(cfg, s, id);
  }

  /** In a state: an unsettled absence, or a shard directory that is not on disk. */
  lemma CrashMayDrop(cfg: Config, s: State, id: Digest)
    ensures (exists lost :: CanDrop(cfg, s, id, lost)) <==> None in Images(s, id) || ShardOf(id) !in s.durableShards
  {
    forall lost ensures CanDrop(cfg, s, id, lost) ==> None in Images(s, id) || ShardOf(id) !in s.durableShards {
      CrashDrops(cfg, s, id, lost);
    }
    if None in Images(s, id) {
      CrashDrops(cfg, s, id, {});
    } else if ShardOf(id) !in s.durableShards {
      CrashDrops(cfg, s, id, {ShardOf(id)});
    }
  }

  // ---------------------------------------------------------------------------------------------
  // Durability of a Put

  /** No crash can undo the directory entry of this chunk. */
  ghost predicate Settled(s: State, id: Digest)
  {
    id in s.chunks && None !in Images(s, id)
  }

  predicate RemovesChunk(s: State, a: Action, id: Digest)
  {
    a.Step? && a.t < |s.procs| && s.procs[a.t].Busy? && s.procs[a.t].op.id == id
    && Removes(s.chunks, s.procs[a.t].op, s.procs[a.t].pc, a.c)
  }

  predicate LosesShard(a: Action, id: Digest)
  {
    a.Crash? && ShardOf(id) in a.lost
  }

  /** No removal of `id` along the run and, unless `shards`, no loss of its shard directory. */
  ghost predicate Undisturbed(cfg: Config, s: State, run: seq<Action>, id: Digest, shards: bool)
    requires Legal(cfg, s, run)
    decreases |run|
  {
    run == [] || (!RemovesChunk(s, run[0], id) && (shards || !LosesShard(run[0], id))
                  && Undisturbed(cfg, Apply(cfg, s, run[0]), run[1..], id, shards))
  }

  lemma StaysSettled(cfg: Config, s: State, a: Action, id: Digest)
    requires Settled(s, id) && Enabled(cfg, s, a)
    requires !RemovesChunk(s, a, id) && !LosesShard(a, id)
    ensures Settled(Apply(cfg, s, a), id)
  {
    ImagesStep(cfg, s, a, id);
    if a.Crash? {
      assert id in a.image;
    }
  }

  lemma {:induction false} SettledForever(cfg: Config, s: State, run: seq<Action>, id: Digest)
    requires Settled(s, id) && Legal(cfg, s, run) && Undisturbed(cfg, s, run, id, false)
    ensures Settled(After(cfg, s, run), id)
    decreases |run|
  {
    if run != [] {
      StaysSettled(cfg, s, run[0], id);
      SettledForever(cfg, Apply(cfg, s, run[0]), run[1..], id);
    }
  }

  /** Exactly when the chunk a Put has just renamed may still be undone after its directory fsync: the
      fsync failed, and the entry could be undone before. */
  lemma DirectorySyncSettles(cfg: Config, s: State, t: nat, c: Choice)
    requires Inv(cfg.h, s) && Enabled(cfg, s, Step(t, c)) && s.procs[t].pc.SyncDir?
    ensures var id := s.procs[t].op.id; var s' := StepProc(cfg, s, t, c);
      && id in s'.chunks
      && (None in Images(s', id) <==> !c.ok && None in Images(s, id))
      && (c.ok ==> Settled(s', id))
  {
    assert ProcOk(cfg.h, s.chunks, s.temps, s.procs[t]);
    ImagesStep(cfg, s, Step(t, c), s.procs[t].op.id);
  }

  /** Durability: once a Put's directory fsync has succeeded, its chunk is there at the end of every
      continuation, through any number of crashes, that neither deletes it nor loses the shard
      directory itself; and it still hashes to its id. */
  lemma AcknowledgedPutIsDurable(cfg: Config, s: State, t: nat, c: Choice, run: seq<Action>)
    requires Inv(cfg.h, s) && Enabled(cfg, s, Step(t, c))
    requires s.procs[t].pc.SyncDir? && c.ok
    requires var s' := StepProc(cfg, s, t, c);
      Legal(cfg, s', run) && Undisturbed(cfg, s', run, s.procs[t].op.id, false)
    ensures var id := s.procs[t].op.id; var end := After(cfg, StepProc(cfg, s, t, c), run);
      id in Contents(end) && cfg.h(Contents(end)[id]) == id
  {
    var s' := StepProc(cfg, s, t, c);
    var id := s.procs[t].op.id;
    DirectorySyncSettles(cfg, s, t, c);
    StepKeeps(cfg, s, t, c);
    SettledForever(cfg, s', run, id);
    RunKeeps(cfg, s', run);
    var end := After(cfg, s', run);
    assert FileOk(cfg.h, id, end.chunks[id]);
  }

  lemma {:induction false} DurableShardIsKept(cfg: Config, s: State, run: seq<Action>, id: Digest)
    requires Inv(cfg.h, s) && Legal(cfg, s, run) && ShardOf(id) in s.durableShards && Undisturbed(cfg, s, run, id, true)
    ensures Undisturbed(cfg, s, run, id, false)
    decreases |run|
  {
    if run != [] {
      DurableStep(cfg, s, run[0]);
      ActionKeeps(cfg, s, run[0]);
      DurableShardIsKept(cfg, Apply(cfg, s, run[0]), run[1..], id);
    }
  }

  /** In a shard whose directory is on disk, only a Delete can take such a chunk away. */
  lemma OnlyDeleteRemoves(cfg: Config, s: State, t: nat, c: Choice, run: seq<Action>)
    requires Inv(cfg.h, s) && Enabled(cfg, s, Step(t, c))
    requires s.procs[t].pc.SyncDir? && c.ok && ShardOf(s.procs[t].op.id) in s.durableShards
    requires var s' := StepProc(cfg, s, t, c);
      Legal(cfg, s', run) && Undisturbed(cfg, s', run, s.procs[t].op.id, true)
    ensures var id := s.procs[t].op.id; var end := After(cfg, StepProc(cfg, s, t, c), run);
      id in Contents(end) && cfg.h(Contents(end)[id]) == id
  {
    StepKeeps(cfg, s, t, c);
    DurableShardIsKept(cfg, StepProc(cfg, s, t, c), run, s.procs[t].op.id);
    AcknowledgedPutIsDurable(cfg, s, t, c, run);
  }

  // ---------------------------------------------------------------------------------------------
  // Undoing a Delete

  ghost predicate AbsentThroughout(cfg: Config, s: State, run: seq<Action>, id: Digest)
    requires Legal(cfg, s, run)
    decreases |run|
  {
    id !in s.chunks && (run == [] || AbsentThroughout(cfg, Apply(cfg, s, run[0]), run[1..], id))
  }

  lemma {:induction false} AbsentNotHeld(cfg: Config, s: State, run: seq<Action>, id: Digest, f: File)
    requires Legal(cfg, s, run) && AbsentThroughout(cfg, s, run, id)
    ensures !Held(cfg, s, run, id, Some(f))
    decreases |run|
  {
    if run != [] {
      AbsentNotHeld(cfg, Apply(cfg, s, run[0]), run[1..], id, f);
    }
  }

  /** Delete fsyncs no directory, so a crash may bring the chunk back, with the bytes it had. As long as
      nobody stores it again, this is possible exactly until some Put into the same shard has fsynced the
      directory, or a restart has found the chunk absent. */
  lemma DeleteMayBeUndone(cfg: Config, s: State, t: nat, c: Choice, run: seq<Action>)
    requires Inv(cfg.h, s) && Enabled(cfg, s, Step(t, c))
    requires Removes(s.chunks, s.procs[t].op, s.procs[t].pc, c)
    requires var s' := StepProc(cfg, s, t, c);
      Legal(cfg, s', run) && AbsentThroughout(cfg, s', run, s.procs[t].op.id)
    ensures var id := s.procs[t].op.id; var s' := StepProc(cfg, s, t, c); var end := After(cfg, s', run);
      && ((exists b :: CanShow(cfg, end, id, b)) <==> Unsettled(cfg, s', run, id))
      && (Unsettled(cfg, s', run, id) ==> CanShow(cfg, end, id, s.chunks[id].content))
  {
    var id := s.procs[t].op.id;
    var s' := StepProc(cfg, s, t, c);
    var end := After(cfg, s', run);
    StepKeeps(cfg, s, t, c);
    RunKeeps(cfg, s', run);
    ImagesStep(cfg, s, Step(t, c), id);
    forall b ensures CanShow(cfg, end, id, b) <==> Some(File(b, true)) in Images(s', id) && Unsettled(cfg, s', run, id) {
      CrashShows(cfg, end, id, b);
      ImagesAreHistory(cfg, s', run, id, Some(File(b, true)));
      AbsentNotHeld(cfg, s', run, id, File(b, true));
    }
    assert FileOk(cfg.h, id, s.chunks[id]);
    assert s.chunks[id] == File(s.chunks[id].content, true);
  }

  // ---------------------------------------------------------------------------------------------
  // Chunks live in shard directories that exist

  predicate NeedsShard(pc: Pc)
  {
    pc.OpenTemp? || pc.Write? || pc.Sync? || pc.Rename?
  }

  ghost predicate Housed(s: State)
  {
    && (forall id: Digest, f: File :: Some(f) in Images(s, id) ==> ShardOf(id) in s.shards)
    && (forall t :: 0 <= t < |s.procs| && s.procs[t].Busy? && NeedsShard(s.procs[t].pc) ==>
          ShardOf(s.procs[t].op.id) in s.shards)
  }

  lemma NeedsShardNext(h: HashFn, op: Op, pc: Pc, file: Option<File>, c: Choice)
    ensures NeedsShard(NextPc(h, op, pc, file, c)) ==> NeedsShard(pc) || (pc.MakeDir? && c.ok)
  {
  }

  /** Directories are only created, and a file appears at a final path only by a rename inside one. */
  lemma StepShards(cfg: Config, s: State, t: nat, c: Choice, id: Digest)
    requires t < |s.procs| && s.procs[t].Busy?
    ensures var Busy(op, pc, _) := s.procs[t]; var s' := StepProc(cfg, s, t, c);
      && s.shards <= s'.shards && (pc.MakeDir? && c.ok ==> ShardOf(op.id) in s'.shards)
      && (Entry(s', id) == Entry(s, id) || Entry(s', id).None? || (op.id == id && NeedsShard(pc)))
  {
  }

  lemma HousedStep(cfg: Config, s: State, t: nat, c: Choice)
    requires Housed(s) && Enabled(cfg, s, Step(t, c))
    ensures Housed(StepProc(cfg, s, t, c))
  {
    var s' := StepProc(cfg, s, t, c);
    var p := s.procs[t];
    StepShards(cfg, s, t, c, p.op.id);
    NeedsShardNext(cfg.h, p.op, p.pc, Entry(s, p.op.id), c);
    forall id: Digest, f: File | Some(f) in Images(s', id) ensures ShardOf(id) in s'.shards {
      ImagesStep(cfg, s, Step(t, c), id);
      StepShards(cfg, s, t, c, id);
    }
  }

  lemma HousedAction(cfg: Config, s: State, a: Action)
    requires Inv(cfg.h, s) && Housed(s) && Enabled(cfg, s, a)
    ensures Housed(Apply(cfg, s, a))
  {
    var s' := Apply(cfg, s, a);
    if a.Step? {
      HousedStep(cfg, s, a.t, a.c);
    } else {
      forall id: Digest, f: File | Some(f) in Images(s', id) ensures ShardOf(id) in s'.shards {
        if a.Crash? {
          SurvivorIsImage(cfg, s, a.image, a.lost, id);
        }
      }
    }
  }

  lemma {:induction false} HousedRun(cfg: Config, s: State, run: seq<Action>)
    requires Inv(cfg.h, s) && Housed(s) && Legal(cfg, s, run)
    ensures Housed(After(cfg, s, run))
    decreases |run|
  {
    if run != [] {
      HousedAction(cfg, s, run[0]);
      ActionKeeps(cfg, s, run[0]);
      HousedRun(cfg, Apply(cfg, s, run[0]), run[1..]);
    }
  }

  /** Whatever a crash may bring back at a final path lies in a shard directory some Put has created. */
  lemma ChunksAreHoused(cfg: Config, n: nat, run: seq<Action>)
    requires Legal(cfg, Init(n), run)
    ensures Housed(After(cfg, Init(n), run))
  {
    InitInv(cfg.h, n);
    HousedRun(cfg, Init(n), run);
  }
}
