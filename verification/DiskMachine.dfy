/** The on-disk chunk store as a step machine: any number of threads inside Put, Get, Delete and
    Exists, one system call per step, any call free to fail, and a crash possible between any two steps. */
module DiskMachine {
  import opened Prelude
  import opened AtomicStore
  import Sums

  /** A regular file; until it is fsynced a crash may leave any content in it. */
  datatype File = File(content: Bytes, synced: bool)

  /** `<hex id>.tmp.<uuid>` in the shard directory of `id`. */
  datatype TempName = TempName(id: Digest, uuid: string)

  datatype Pc =
    | Start                          // Put: hash the payload
    | WaitLock                       // take the stripe lock
    | WaitInner                      // Put: the nested Exists takes the same stripe lock again
    | Probe                          // does the final path exist?
    | MakeDir
    | OpenTemp
    | Write(tmp: TempName)
    | Sync(tmp: TempName)
    | Rename(tmp: TempName)
    | CleanTemp(tmp: TempName)       // remove the temporary file, then fail
    | SyncDir
    | AddCount
    | AddBytes
    | Stat                           // file_size
    | OpenRead(size: nat)
    | Read(size: nat)
    | Remove(size: nat)
    | SubCount(size: nat)
    | SubBytes(size: nat)
    | Unlock(reply: Reply)           // leave the critical section
    | Return(reply: Reply)

  /** `blind` records that the existence probe of this call reported an error. */
  datatype Proc = Idle | Busy(op: Op, pc: Pc, blind: bool)

  datatype Owner = Owner(thread: nat, depth: nat)

  /** The two directory levels under the data root. */
  type Shard = (Byte, Byte)

  /** `chunks` are the files at final paths, as running processes see them. `pending[id]` holds every
      earlier value of the directory entry for `id` that a crash may bring back, because the directory
      was not fsynced since. `shards` are the shard directories there are, `durableShards` those whose
      own entries are on disk.
      `overCount`/`overBytes` are history only: files and bytes that a Put renamed over. */
  datatype State = State(
    procs: seq<Proc>,
    locks: map<nat, Owner>,
    chunks: map<Digest, File>,
    temps: map<TempName, File>,
    pending: map<Digest, set<Option<File>>>,
    shards: set<Shard>,
    durableShards: set<Shard>,
    count: nat,
    bytes: nat,
    overCount: nat,
    overBytes: nat)

  /** The outcome of the system call made by a step: success or failure, how much of a failed write
      reached the file, and the UUID drawn for a temporary name. */
  datatype Choice = Choice(ok: bool, written: nat, uuid: string)

  datatype Action =
    | Invoke(t: nat, op: Op)
    | Step(t: nat, c: Choice)
    | Flush(shard: Shard)            // write-back puts a shard directory's own entry on disk
    | Crash(image: map<Digest, Bytes>, lost: set<Shard>, leftovers: map<TempName, File>)

  /** `reentrant`: may the owner of a stripe lock take it again? */
  datatype Config = Config(h: HashFn, reentrant: bool)

  /** The stripe of a chunk; ChunkIds.StripeIndex derives it from the packed hash. */
  function Stripe(id: Digest): nat { id[7] }

  function ShardOf(id: Digest): Shard { (id[0], id[1]) }

  function Entry(s: State, id: Digest): Option<File>
  {
    if id in s.chunks then Some(s.chunks[id]) else None
  }

  /** Every value the directory entry of `id` may have after a crash, if its shard survives. */
  function Images(s: State, id: Digest): set<Option<File>>
  {
    (if id in s.pending then s.pending[id] else {}) + {Entry(s, id)}
  }

  function Bodies(chunks: map<Digest, File>): map<Digest, Bytes>
  {
    map id | id in chunks :: chunks[id].content
  }

  function Contents(s: State): map<Digest, Bytes>
  {
    Bodies(s.chunks)
  }

  predicate MayLock(cfg: Config, s: State, stripe: nat, t: nat)
  {
    stripe !in s.locks || (cfg.reentrant && s.locks[stripe].thread == t)
  }

  function Acquire(s: State, stripe: nat, t: nat): map<nat, Owner>
  {
    s.locks[stripe := Owner(t, if stripe in s.locks then s.locks[stripe].depth + 1 else 1)]
  }

  function Release(s: State, stripe: nat): map<nat, Owner>
  {
    if stripe in s.locks && s.locks[stripe].depth > 1
    then s.locks[stripe := Owner(s.locks[stripe].thread, s.locks[stripe].depth - 1)]
    else s.locks - {stripe}
  }

  /** UUIDs are 36 characters without a dot. */
  predicate IsUuid(u: string)
  {
    |u| == 36 && forall i :: 0 <= i < |u| ==> u[i] != '.'
  }

  ghost predicate CrashImage(s: State, image: map<Digest, Bytes>, lost: set<Shard>)
  {
    && lost !! s.durableShards
    && (forall id :: id in image ==>
          && ShardOf(id) !in lost
          && exists f :: Some(f) in Images(s, id) && (f.synced ==> image[id] == f.content))
    && (forall id: Digest :: id !in image ==> ShardOf(id) in lost || None in Images(s, id))
  }

  ghost predicate Enabled(cfg: Config, s: State, a: Action)
  {
    match a
    case Invoke(t, op) => t < |s.procs| && s.procs[t].Idle?
    case Flush(shard) => shard in s.shards
    case Crash(image, lost, leftovers) =>
      CrashImage(s, image, lost) && forall name :: name in leftovers ==> IsUuid(name.uuid)
    case Step(t, c) =>
      && t < |s.procs| && s.procs[t].Busy?
      && var Busy(op, pc, _) := s.procs[t];
         match pc
         case WaitLock => MayLock(cfg, s, Stripe(op.id), t)
         case WaitInner => MayLock(cfg, s, Stripe(op.id), t)
         case OpenTemp => c.ok ==> IsUuid(c.uuid) && TempName(op.id, c.uuid) !in s.temps
         case Write(_) => c.ok || (op.Put? && op.data != [] && c.written <= |op.data|)
         case _ => true
  }

  /** Control: the next position in the code, given the file at the call's final path. */
  function NextPc(h: HashFn, op: Op, pc: Pc, file: Option<File>, c: Choice): Pc
  {
    match pc
    case Start => if op.Put? && h(op.data) != op.id then Return(Failed(ChecksumMismatch)) else WaitLock
    case WaitLock => if op.Put? then WaitInner else if op.Exists? then Probe else Stat
    case WaitInner => Probe
    case Probe =>
      var found := c.ok && file.Some?;
      if !op.Put? then Unlock(Flag(found)) else if found then Unlock(Done) else MakeDir
    case MakeDir => if c.ok then OpenTemp else Unlock(Failed(IoError))
    case OpenTemp => if c.ok then Write(TempName(op.id, c.uuid)) else Unlock(Failed(IoError))
    case Write(tmp) => if c.ok then Sync(tmp) else CleanTemp(tmp)
    case Sync(tmp) => if c.ok then Rename(tmp) else CleanTemp(tmp)
    case Rename(tmp) => if c.ok then SyncDir else CleanTemp(tmp)
    case CleanTemp(_) => Unlock(Failed(IoError))
    case SyncDir => AddCount
    case AddCount => AddBytes
    case AddBytes => Unlock(Done)
    case Stat =>
      if !c.ok || file.None? then Unlock(if op.Delete? then Done else Failed(NotFound))
      else if op.Delete? then Remove(|file.value.content|)
      else OpenRead(|file.value.content|)
    case OpenRead(n) => if c.ok then Read(n) else Unlock(Failed(IoError))
    case Read(n) =>
      if (!c.ok && n > 0) || file.None? || |file.value.content| < n then Unlock(Failed(IoError))
      else if h(file.value.content[..n]) == op.id then Unlock(Payload(file.value.content[..n]))
      else Unlock(Failed(CorruptionDetected))
    case Remove(n) => if c.ok && file.Some? then SubCount(n) else Unlock(Failed(IoError))
    case SubCount(n) => SubBytes(n)
    case SubBytes(_) => Unlock(Done)
    case Unlock(reply) => Return(reply)
    case Return(reply) => Return(reply)
  }

  function NextProc(h: HashFn, p: Proc, file: Option<File>, c: Choice): Proc
    requires p.Busy?
  {
    if p.pc.Return? then Idle
    else Busy(p.op, NextPc(h, p.op, p.pc, file, c), p.blind || ((p.pc.Probe? || p.pc.Stat?) && !c.ok))
  }

  /** The nested Exists inside Put releases its lock as soon as it has probed. */
  function NextLocks(s: State, t: nat, op: Op, pc: Pc): map<nat, Owner>
  {
    if pc.WaitLock? || pc.WaitInner? then Acquire(s, Stripe(op.id), t)
    else if pc.Unlock? || (pc.Probe? && op.Put?) then Release(s, Stripe(op.id))
    else s.locks
  }

  function NextTemps(temps: map<TempName, File>, op: Op, pc: Pc, c: Choice): map<TempName, File>
  {
    match pc
    case OpenTemp => if c.ok then temps[TempName(op.id, c.uuid) := File([], false)] else temps
    case Write(tmp) =>
      if !op.Put? then temps
      else temps[tmp := File(if !c.ok && c.written <= |op.data| then op.data[..c.written] else op.data, false)]
    case Sync(tmp) => if c.ok && tmp in temps then temps[tmp := temps[tmp].(synced := true)] else temps
    case Rename(tmp) => if c.ok then temps - {tmp} else temps
    case CleanTemp(tmp) => if c.ok then temps - {tmp} else temps
    case _ => temps
  }

  /** The file that a successful rename moves to the final path. */
  predicate Renames(temps: map<TempName, File>, pc: Pc, c: Choice)
  {
    pc.Rename? && c.ok && pc.tmp in temps
  }

  predicate Removes(chunks: map<Digest, File>, op: Op, pc: Pc, c: Choice)
  {
    pc.Remove? && c.ok && op.id in chunks
  }

  function NextChunks(s: State, op: Op, pc: Pc, c: Choice): map<Digest, File>
  {
    if Renames(s.temps, pc, c) then s.chunks[op.id := s.temps[pc.tmp]]
    else if Removes(s.chunks, op, pc, c) then s.chunks - {op.id}
    else s.chunks
  }

  /** A change of a directory entry stays undoable until the directory is fsynced;
      that fsync settles every entry of the shard. */
  function NextPending(s: State, op: Op, pc: Pc, c: Choice): map<Digest, set<Option<File>>>
  {
    if Renames(s.temps, pc, c) || Removes(s.chunks, op, pc, c) then s.pending[op.id := Images(s, op.id)]
    else if pc.SyncDir? && c.ok then map k | k in s.pending && ShardOf(k) != ShardOf(op.id) :: s.pending[k]
    else s.pending
  }

  function NextCount(count: nat, pc: Pc): nat
  {
    if pc.AddCount? then Wrap64(count + 1) else if pc.SubCount? then Wrap64(count - 1) else count
  }

  function NextBytes(bytes: nat, op: Op, pc: Pc): nat
  {
    if pc.AddBytes? && op.Put? then Wrap64(bytes + |op.data|)
    else if pc.SubBytes? then Wrap64(bytes - pc.size)
    else bytes
  }

  function StepProc(cfg: Config, s: State, t: nat, c: Choice): State
    requires t < |s.procs| && s.procs[t].Busy?
  {
    var Busy(op, pc, _) := s.procs[t];
    var replaced := if Renames(s.temps, pc, c) then Entry(s, op.id) else None;
    State(
      s.procs[t := NextProc(cfg.h, s.procs[t], Entry(s, op.id), c)],
      NextLocks(s, t, op, pc),
      NextChunks(s, op, pc, c),
      NextTemps(s.temps, op, pc, c),
      NextPending(s, op, pc, c),
      if pc.MakeDir? && c.ok then s.shards + {ShardOf(op.id)} else s.shards,
      s.durableShards,
      NextCount(s.count, pc),
      NextBytes(s.bytes, op, pc),
      s.overCount + (if replaced.Some? then 1 else 0),
      s.overBytes + (if replaced.Some? then |replaced.value.content| else 0))
  }

  /** Power returns and the constructor counts what is there. A directory that has survived is on disk. */
  ghost function Restart(s: State, image: map<Digest, Bytes>, lost: set<Shard>, leftovers: map<TempName, File>): State
  {
    State(
      seq(|s.procs|, _ => Idle), map[],
      map id | id in image :: File(image[id], true),
      leftovers, map[],
      s.shards - lost, s.shards - lost,
      Wrap64(|image|), Wrap64(Sums.TotalSize(image)), 0, 0)
  }

  ghost function Apply(cfg: Config, s: State, a: Action): State
    requires Enabled(cfg, s, a)
  {
    match a
    case Invoke(t, op) => s.(procs := s.procs[t := Busy(op, if op.Put? then Start else WaitLock, false)])
    case Step(t, c) => StepProc(cfg, s, t, c)
    case Flush(shard) => s.(durableShards := s.durableShards + {shard})
    case Crash(image, lost, leftovers) => Restart(s, image, lost, leftovers)
  }

  /** An empty store with `n` threads, all idle. */
  function Init(n: nat): State
  {
    State(seq(n, _ => Idle), map[], map[], map[], map[], {}, {}, 0, 0, 0, 0)
  }

  /** `run` can be taken from `s`, one action after the other. */
  ghost predicate Legal(cfg: Config, s: State, run: seq<Action>)
    decreases |run|
  {
    run == [] || (Enabled(cfg, s, run[0]) && Legal(cfg, Apply(cfg, s, run[0]), run[1..]))
  }

  ghost function After(cfg: Config, s: State, run: seq<Action>): State
    requires Legal(cfg, s, run)
    decreases |run|
  {
    if run == [] then s else After(cfg, Apply(cfg, s, run[0]), run[1..])
  }
}
