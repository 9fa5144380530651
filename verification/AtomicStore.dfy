/** What one chunk-store operation does when it runs alone and in no time:
    the specification that the disk store, the service and the cluster are measured against. */
module AtomicStore {
  import opened Prelude

  datatype StoreError = ChecksumMismatch | CorruptionDetected | NotFound | IoError

  datatype Op =
    | Put(id: Digest, data: Bytes)
    | Get(id: Digest)
    | Delete(id: Digest)
    | Exists(id: Digest)

  datatype Reply =
    | Done
    | Payload(bytes: Bytes)
    | Flag(present: bool)
    | Failed(kind: StoreError)

  /** The two ways the file system can let an operation down. `probe`: the existence test
      (`exists` or `file_size`) reported an error, which the code reads as "no such file".
      `io`: a later system call failed. */
  datatype Fault = Fault(probe: bool, io: bool)

  const NO_FAULT := Fault(false, false)

  datatype Effect = Effect(store: map<Digest, Bytes>, reply: Reply)

  function Atomic(h: HashFn, m: map<Digest, Bytes>, op: Op, f: Fault): Effect
  {
    match op
    case Put(id, data) =>
      if h(data) != id then Effect(m, Failed(ChecksumMismatch))
      else if id in m && !f.probe then Effect(m, Done)
      else if f.io then Effect(m, Failed(IoError))
      else Effect(m[id := data], Done)
    case Get(id) =>
      if id !in m || f.probe then Effect(m, Failed(NotFound))
      else if f.io then Effect(m, Failed(IoError))
      else if h(m[id]) != id then Effect(m, Failed(CorruptionDetected))
      else Effect(m, Payload(m[id]))
    case Delete(id) =>
      if id !in m || f.probe then Effect(m, Done)
      else if f.io then Effect(m, Failed(IoError))
      else Effect(m - {id}, Done)
    case Exists(id) => Effect(m, Flag(id in m && !f.probe))
  }

  ghost predicate Sound(h: HashFn, m: map<Digest, Bytes>)
  {
    forall id :: id in m ==> h(m[id]) == id
  }

  /** An operation touches no key but its own, an error changes nothing,
      and whatever is stored afterwards was there before or hashes to its key. */
  lemma AtomicFrame(h: HashFn, m: map<Digest, Bytes>, op: Op, f: Fault)
    ensures var e := Atomic(h, m, op, f);
      && (e.reply.Failed? ==> e.store == m)
      && (forall k :: k != op.id ==> (k in e.store <==> k in m) && (k in m ==> e.store[k] == m[k]))
      && (op.id in e.store ==> (op.id in m && e.store[op.id] == m[op.id])
                               || (op.Put? && e.store[op.id] == op.data && h(op.data) == op.id))
      && (Sound(h, m) ==> Sound(h, e.store))
  {
  }

  /** Without faults the replies mean what the interface promises: a successful Put leaves the
      chunk readable, a successful Delete leaves it absent, and a read reports exactly what is stored. */
  lemma FaultlessMeaning(h: HashFn, m: map<Digest, Bytes>, op: Op)
    requires Sound(h, m)
    ensures var e := Atomic(h, m, op, NO_FAULT);
      match op
      case Put(id, data) =>
        && (e.reply == Done <==> h(data) == id)
        && (e.reply == Done ==> id in e.store && h(e.store[id]) == id && (id !in m ==> e.store[id] == data))
      case Get(id) => e.store == m && e.reply == (if id in m then Payload(m[id]) else Failed(NotFound))
      case Delete(id) => e.reply == Done && e.store == m - {id}
      case Exists(id) => e.store == m && e.reply == Flag(id in m)
  {
    if op.Delete? && op.id !in m {
      assert m - {op.id} == m;
    }
  }

  /** Which error is given exactly when, under every fault. */
  lemma ErrorMeaning(h: HashFn, m: map<Digest, Bytes>, op: Op, f: Fault)
    ensures var r := Atomic(h, m, op, f).reply; var found := op.id in m && !f.probe;
      && (r == Failed(ChecksumMismatch) <==> op.Put? && h(op.data) != op.id)
      && (r == Failed(NotFound) <==> op.Get? && !found)
      && (r == Failed(CorruptionDetected) <==> op.Get? && found && !f.io && h(m[op.id]) != op.id)
      && (r == Failed(IoError) <==> f.io && if op.Put? then h(op.data) == op.id && !found else !op.Exists? && found)
      && (op.Exists? ==> r == Flag(found))
  {
  }

  /** Exactly when a Delete that says Done has left the chunk in place: its existence probe failed on a present chunk. */
  lemma DeleteDoneButPresent(h: HashFn, m: map<Digest, Bytes>, id: Digest, f: Fault)
    ensures var e := Atomic(h, m, Delete(id), f);
      (e.reply == Done && id in e.store) <==> (id in m && f.probe)
  {
  }

  /** Get hands out bytes only if they hash to the requested id, whatever is on the disk. */
  lemma GetReturnsVerifiedBytes(h: HashFn, m: map<Digest, Bytes>, id: Digest, f: Fault, b: Bytes)
    requires Atomic(h, m, Get(id), f).reply == Payload(b)
    ensures h(b) == id && id in m && m[id] == b
  {
  }
}
