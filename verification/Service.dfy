/** The streaming RPC service in front of a chunk store. */
module Service {
  import opened Prelude
  import opened HexCodec
  import opened ChunkIds
  import opened Framing
  import A = AtomicStore
  import Disk = LocalDiskStore
  import DiskLayout
  import DiskMachine

  datatype ChunkStatus =
    | StatusOk | ChecksumMismatch | ChunkTooLarge | CapabilityDenied | IoError | NotFound | CorruptionDetected | SourceUnreachable

  datatype RpcCode = RpcOk | InvalidArgument | FailedPrecondition | ResourceExhausted

  /** The RPC's own status, and the domain status if the handler set one. */
  datatype Reply = Reply(code: RpcCode, status: Option<ChunkStatus>)

  const CURRENT_VERSION: nat := 1

  datatype PutMsg =
    | PutMeta(version: nat, chunkId: string, total: nat)
    | PutData(version: nat, data: Bytes)
    | PutNothing(version: nat)

  datatype GetMsg =
    | GetMeta(total: nat, status: ChunkStatus)
    | GetData(data: Bytes)
    | GetNothing

  function MapStoreError(e: A.StoreError): ChunkStatus
  {
    match e
    case ChecksumMismatch => ChecksumMismatch
    case CorruptionDetected => CorruptionDetected
    case NotFound => NotFound
    case IoError => IoError
  }

  /** MapStoreError loses nothing and never reports success. */
  lemma MapStoreErrorFaithful(e: A.StoreError, e': A.StoreError)
    ensures MapStoreError(e) == MapStoreError(e') <==> e == e'
    ensures MapStoreError(e) != StatusOk
  {
  }

  function StatusOf(r: A.Reply): ChunkStatus
  {
    if r.Failed? then MapStoreError(r.kind) else StatusOk
  }

  datatype Outcome = Outcome(store: map<Digest, Bytes>, reply: Reply)

  // ---------------------------------------------------------------------------------------------
  // PutChunk

  /** What the data frames of a request stream carry, frame borders and other messages forgotten. */
  function PutPayload(msgs: seq<PutMsg>): Bytes
  {
    if msgs == [] then []
    else
      var last := msgs[|msgs| - 1];
      PutPayload(msgs[..|msgs| - 1]) + (if last.PutData? then last.data else [])
  }

  /** The frames one by one, as they arrive: None once the limit is passed, and from then on. */
  function Receive(max: nat, msgs: seq<PutMsg>): Option<Bytes>
  {
    if msgs == [] then Some([])
    else
      var before := Receive(max, msgs[..|msgs| - 1]);
      var last := msgs[|msgs| - 1];
      if before.None? || !last.PutData? then before
      else if |before.value| + |last.data| > max then None
      else Some(before.value + last.data)
  }

  function PutOutcome(h: HashFn, max: nat, m: map<Digest, Bytes>, first: PutMsg, received: Option<Bytes>, f: A.Fault): Outcome
  {
    if !first.PutMeta? || Parsed(first.chunkId).None? then Outcome(m, Reply(InvalidArgument, None))
    else if first.version != CURRENT_VERSION then Outcome(m, Reply(FailedPrecondition, None))
    else if first.total > max || received.None? then Outcome(m, Reply(ResourceExhausted, Some(ChunkTooLarge)))
    else
      var e := A.Atomic(h, m, A.Put(Parsed(first.chunkId).value.digest, received.value), f);
      Outcome(e.store, Reply(RpcOk, Some(StatusOf(e.reply))))
  }

  function PutChunkOutcome(h: HashFn, max: nat, m: map<Digest, Bytes>, msgs: seq<PutMsg>, f: A.Fault): Outcome
  {
    if msgs == [] then Outcome(m, Reply(InvalidArgument, None))
    else PutOutcome(h, max, m, msgs[0], Receive(max, msgs[1..]), f)
  }

  /** The frame-by-frame test rejects exactly the streams whose total payload exceeds the limit, and
      lets all others through whole. */
  lemma {:induction false} ReceiveMeaning(max: nat, msgs: seq<PutMsg>)
    ensures Receive(max, msgs) == if |PutPayload(msgs)| > max then None else Some(PutPayload(msgs))
    decreases |msgs|
  {
    if msgs != [] {
      var before := PutPayload(msgs[..|msgs| - 1]);
      ReceiveMeaning(max, msgs[..|msgs| - 1]);
      assert before + [] == before;
    }
  }

  lemma {:induction false} RejectedForGood(max: nat, msgs: seq<PutMsg>, k: nat)
    requires k <= |msgs| && Receive(max, msgs[..k]).None?
    ensures Receive(max, msgs).None?
    decreases |msgs|
  {
    if k < |msgs| {
      assert msgs[..|msgs| - 1][..k] == msgs[..k];
      RejectedForGood(max, msgs[..|msgs| - 1], k);
    } else {
      assert msgs[..k] == msgs;
    }
  }

  /** Frame-split independence: two streams with the same first message and the same total payload have
      the same reply and leave the same store, however the payload is split and whatever is in between. */
  lemma FrameSplitIndependence(h: HashFn, max: nat, m: map<Digest, Bytes>, a: seq<PutMsg>, b: seq<PutMsg>, f: A.Fault)
    requires a != [] && b != [] && a[0] == b[0] && PutPayload(a[1..]) == PutPayload(b[1..])
    ensures PutChunkOutcome(h, max, m, a, f) == PutChunkOutcome(h, max, m, b, f)
  {
    ReceiveMeaning(max, a[1..]);
    ReceiveMeaning(max, b[1..]);
  }

  /** What PutChunk can do to a store: nothing, or add a payload that hashes to its key and fits the limit. */
  lemma PutChunkEffect(h: HashFn, max: nat, m: map<Digest, Bytes>, msgs: seq<PutMsg>, f: A.Fault, k: Digest)
    ensures var m' := PutChunkOutcome(h, max, m, msgs, f).store;
      && (k in m ==> k in m')
      && (k in m' ==> (k in m && m'[k] == m[k])
                      || (msgs != [] && var p := PutPayload(msgs[1..]); m'[k] == p && h(p) == k && |p| <= max))
  {
    if msgs != [] {
      ReceiveMeaning(max, msgs[1..]);
    }
  }

  // ---------------------------------------------------------------------------------------------
  // GetChunk

  function DataMessages(frames: seq<Bytes>): seq<GetMsg>
  {
    seq(|frames|, i requires 0 <= i < |frames| => GetData(frames[i]))
  }

  /** The messages of a successful stream whose peer takes `accepted` frames. */
  function ChunkStream(data: Bytes, accepted: nat): seq<GetMsg>
  {
    [GetMeta(|data|, StatusOk)] + DataMessages(Frames(data)[..Min(accepted, FrameCount(|data|))])
  }

  datatype Sent = Sent(msgs: seq<GetMsg>, code: RpcCode)

  function GetChunkOutcome(h: HashFn, m: map<Digest, Bytes>, version: nat, chunkId: string, f: A.Fault, accepted: nat): Sent
  {
    if version != CURRENT_VERSION then Sent([], FailedPrecondition)
    else if Parsed(chunkId).None? then Sent([], InvalidArgument)
    else
      match A.Atomic(h, m, A.Get(Parsed(chunkId).value.digest), f).reply
      case Payload(data) => Sent(ChunkStream(data, accepted), RpcOk)
      case Failed(kind) => Sent([GetMeta(0, MapStoreError(kind))], RpcOk)
      case _ => Sent([], RpcOk)
  }

  // ---------------------------------------------------------------------------------------------
  // ReplicateChunk

  function GetPayload(msgs: seq<GetMsg>): Bytes
  {
    if msgs == [] then []
    else
      var last := msgs[|msgs| - 1];
      GetPayload(msgs[..|msgs| - 1]) + (if last.GetData? then last.data else [])
  }

  /** The size the source declares; a first message without metadata reads as zero. */
  function DeclaredSize(first: GetMsg): nat { if first.GetMeta? then first.total else 0 }

  function ReplicateOutcome(h: HashFn, max: nat, m: map<Digest, Bytes>, version: nat, chunkId: string,
                            msgs: seq<GetMsg>, finishOk: bool, f: A.Fault): Outcome
  {
    if version != CURRENT_VERSION then Outcome(m, Reply(FailedPrecondition, None))
    else if Parsed(chunkId).None? then Outcome(m, Reply(InvalidArgument, None))
    else if msgs == [] then Outcome(m, Reply(RpcOk, Some(SourceUnreachable)))
    else if msgs[0].GetMeta? && msgs[0].status != StatusOk then Outcome(m, Reply(RpcOk, Some(msgs[0].status)))
    else if DeclaredSize(msgs[0]) > max then Outcome(m, Reply(RpcOk, Some(ChunkTooLarge)))
    else if !finishOk then Outcome(m, Reply(RpcOk, Some(SourceUnreachable)))
    else
      var e := A.Atomic(h, m, A.Put(Parsed(chunkId).value.digest, GetPayload(msgs[1..])), f);
      Outcome(e.store, Reply(RpcOk, Some(StatusOf(e.reply))))
  }

  lemma {:induction false} DataPayload(frames: seq<Bytes>)
    ensures GetPayload(DataMessages(frames)) == Concat(frames)
    decreases |frames|
  {
    if frames != [] {
      var n := |frames| - 1;
      DataPayload(frames[..n]);
      assert DataMessages(frames)[..n] == DataMessages(frames[..n]);
    }
  }

  /** After the metadata, the first messages of a chunk stream are its first frames. */
  lemma StreamCut(data: Bytes, accepted: nat, cut: nat)
    requires 0 < cut <= |ChunkStream(data, accepted)|
    ensures cut - 1 <= |Frames(data)|
    ensures ChunkStream(data, accepted)[..cut][1..] == DataMessages(Frames(data)[..cut - 1])
  {
    var frames := Frames(data)[..Min(accepted, |Frames(data)|)];
    assert frames[..cut - 1] == Frames(data)[..cut - 1];
    assert ChunkStream(data, accepted)[..cut][1..] == DataMessages(frames[..cut - 1]);
  }

  /** What a receiver that sees only the first `cut` messages of a chunk stream puts together is a
      prefix of the chunk, and the chunk itself if nothing was cut off. */
  lemma StreamRoundTrip(data: Bytes, accepted: nat, cut: nat)
    requires 0 < cut <= |ChunkStream(data, accepted)|
    ensures ChunkStream(data, accepted)[..cut][0] == GetMeta(|data|, StatusOk)
    ensures GetPayload(ChunkStream(data, accepted)[..cut][1..]) <= data
    ensures accepted >= FrameCount(|data|) && cut == |ChunkStream(data, accepted)| ==>
      GetPayload(ChunkStream(data, accepted)[..cut][1..]) == data
  {
    var frames := Frames(data);
    StreamCut(data, accepted, cut);
    DataPayload(frames[..cut - 1]);
    FramingRoundTrip(data, cut - 1);
    assert accepted >= |frames| && cut == |ChunkStream(data, accepted)| ==> frames[..cut - 1] == frames;
  }

  /** Replicating a verified chunk over an unbroken stream stores exactly that chunk. */
  lemma ReplicationDelivers(h: HashFn, max: nat, source: map<Digest, Bytes>, target: map<Digest, Bytes>, id: ChunkId)
    requires id.Valid() && id.digest in source && h(source[id.digest]) == id.digest && |source[id.digest]| <= max
    requires id.digest !in target
    ensures var data := source[id.digest];
      var sent := GetChunkOutcome(h, source, CURRENT_VERSION, id.hex, A.NO_FAULT, FrameCount(|data|));
      ReplicateOutcome(h, max, target, CURRENT_VERSION, id.hex, sent.msgs, true, A.NO_FAULT)
      == Outcome(target[id.digest := data], Reply(RpcOk, Some(StatusOk)))
  {
    var data := source[id.digest];
    ParseInvertsPrint(id.digest);
    var msgs := ChunkStream(data, FrameCount(|data|));
    StreamRoundTrip(data, FrameCount(|data|), |msgs|);
    assert msgs[..|msgs|] == msgs;
  }

  /** The receiving loop checks no frame against the limit: exactly when an honest hash is not enough, and
      a source that declares less than it sends gets a chunk beyond the limit stored. */
  lemma OversizedReplication(h: HashFn, max: nat, m: map<Digest, Bytes>, chunkId: string,
                             msgs: seq<GetMsg>, finishOk: bool, f: A.Fault)
    requires Parsed(chunkId).Some? && Parsed(chunkId).value.digest !in m && msgs != []
    ensures var d := Parsed(chunkId).value.digest; var p := GetPayload(msgs[1..]);
      var m' := ReplicateOutcome(h, max, m, CURRENT_VERSION, chunkId, msgs, finishOk, f).store;
      (d in m' && |m'[d]| > max) <==>
      (|p| > max && DeclaredSize(msgs[0]) <= max && (msgs[0].GetMeta? ==> msgs[0].status == StatusOk)
       && finishOk && h(p) == d && !f.io)
  {
  }

  /** An input on which the limit is passed: a source that declares nothing and sends `p`. */
  lemma OversizedExample(h: HashFn, max: nat, p: Bytes)
    requires |p| > max
    ensures ReplicateOutcome(h, max, map[], CURRENT_VERSION, ToHex(h(p)), [GetMeta(0, StatusOk), GetData(p)], true, A.NO_FAULT)
            == Outcome(map[h(p) := p], Reply(RpcOk, Some(StatusOk)))
  {
    ParseInvertsPrint(h(p));
    var msgs := [GetMeta(0, StatusOk), GetData(p)];
    assert msgs[1..] == [GetData(p)] && [GetData(p)][..0] == [];
    assert GetPayload(msgs[1..]) == [] + p == p;
  }

  // ---------------------------------------------------------------------------------------------
  // DeleteChunk and VerifyChunk

  /** DeleteChunk parses the id before it looks at the protocol version. */
  function DeleteOutcome(h: HashFn, m: map<Digest, Bytes>, version: nat, chunkId: string, f: A.Fault): Outcome
  {
    if Parsed(chunkId).None? then Outcome(m, Reply(InvalidArgument, None))
    else if version != CURRENT_VERSION then Outcome(m, Reply(FailedPrecondition, None))
    else
      var e := A.Atomic(h, m, A.Delete(Parsed(chunkId).value.digest), f);
      Outcome(e.store, Reply(RpcOk, Some(StatusOf(e.reply))))
  }

  /** GetChunk on an id the codec printed answers from the store's reply alone. */
  lemma GetChunkOfId(h: HashFn, m: map<Digest, Bytes>, id: ChunkId, f: A.Fault, accepted: nat)
    requires id.Valid()
    ensures var r := A.Atomic(h, m, A.Get(id.digest), f).reply; var sent := GetChunkOutcome(h, m, CURRENT_VERSION, id.hex, f, accepted);
      && (r.Payload? ==> sent == Sent(ChunkStream(r.bytes, accepted), RpcOk))
      && (r.Failed? ==> sent == Sent([GetMeta(0, MapStoreError(r.kind))], RpcOk))
  {
    ParseInvertsPrint(id.digest);
  }

  /** What a client sees of an absent and of a damaged chunk. */
  lemma ReportedReadFailures(h: HashFn, m: map<Digest, Bytes>, id: ChunkId, accepted: nat)
    requires id.Valid() && (id.digest in m ==> h(m[id.digest]) != id.digest)
    ensures GetChunkOutcome(h, m, CURRENT_VERSION, id.hex, A.NO_FAULT, accepted).msgs
            == [GetMeta(0, if id.digest in m then CorruptionDetected else NotFound)]
  {
    GetChunkOfId(h, m, id, A.NO_FAULT, accepted);
    var e := if id.digest in m then A.CorruptionDetected else A.NotFound;
    assert A.Atomic(h, m, A.Get(id.digest), A.NO_FAULT).reply == A.Failed(e);
  }

  /** The protocol rule, that an unsupported version is answered before anything else, is kept by GetChunk and
      ReplicateChunk. PutChunk and DeleteChunk parse the id first: they answer FailedPrecondition exactly if
      the version is unsupported and the id parses, for PutChunk in a first message with metadata. */
  lemma VersionAfterId(h: HashFn, max: nat, m: map<Digest, Bytes>, msgs: seq<PutMsg>, version: nat, chunkId: string, f: A.Fault)
    ensures PutChunkOutcome(h, max, m, msgs, f).reply.code == FailedPrecondition <==>
      msgs != [] && msgs[0].PutMeta? && Parsed(msgs[0].chunkId).Some? && msgs[0].version != CURRENT_VERSION
    ensures DeleteOutcome(h, m, version, chunkId, f).reply.code == FailedPrecondition <==>
      Parsed(chunkId).Some? && version != CURRENT_VERSION
  {
  }

  lemma VersionFirst(h: HashFn, max: nat, m: map<Digest, Bytes>, version: nat, chunkId: string, f: A.Fault,
                     accepted: nat, msgs: seq<GetMsg>, finishOk: bool)
    ensures GetChunkOutcome(h, m, version, chunkId, f, accepted).code == FailedPrecondition <==> version != CURRENT_VERSION
    ensures ReplicateOutcome(h, max, m, version, chunkId, msgs, finishOk, f).reply.code == FailedPrecondition <==>
      version != CURRENT_VERSION
  {
  }

  /** An input on which the rule fails: an unsupported version with a text that is no id. */
  lemma UnsupportedVersionGoesUnnoticed(h: HashFn, max: nat, m: map<Digest, Bytes>, f: A.Fault)
    ensures PutChunkOutcome(h, max, m, [PutMeta(2, "x", 0)], f).reply == Reply(InvalidArgument, None)
    ensures DeleteOutcome(h, m, 2, "x", f).reply == Reply(InvalidArgument, None)
    ensures GetChunkOutcome(h, m, 2, "x", f, 0).code == FailedPrecondition
  {
  }

  /** What a client sees of a payload with the wrong hash and of a failed removal; neither changes the store. */
  lemma ReportedWriteFailures(h: HashFn, max: nat, m: map<Digest, Bytes>, id: ChunkId, payload: Bytes)
    requires id.Valid() && |payload| <= max
    ensures h(payload) != id.digest ==>
      PutOutcome(h, max, m, PutMeta(CURRENT_VERSION, id.hex, |payload|), Some(payload), A.NO_FAULT)
      == Outcome(m, Reply(RpcOk, Some(ChecksumMismatch)))
    ensures id.digest in m ==>
      DeleteOutcome(h, m, CURRENT_VERSION, id.hex, A.Fault(false, true)) == Outcome(m, Reply(RpcOk, Some(IoError)))
  {
    ParseInvertsPrint(id.digest);
  }

  // ---------------------------------------------------------------------------------------------
  // The handlers

  class StorageNodeService {
    const store: Disk.LocalDiskChunkStore
    const maxChunkBytes: nat

    constructor (store: Disk.LocalDiskChunkStore, maxChunkBytes: nat)
      ensures this.store == store && this.maxChunkBytes == maxChunkBytes
    {
      this.store := store;
      this.maxChunkBytes := maxChunkBytes;
    }

    /** No temporary file of that UUID exists yet. */
    ghost predicate Fresh(uuid: string) reads store
    {
      DiskMachine.IsUuid(uuid) && forall d: Digest :: DiskLayout.TempPath(d, uuid) !in store.tree
    }

    method PutChunk(msgs: seq<PutMsg>, io: Disk.PutIo) returns (reply: Reply)
      requires store.Valid() && Fresh(io.uuid)
      modifies store
      ensures store.Valid()
      ensures Outcome(store.contents, reply) ==
              PutChunkOutcome(store.h, maxChunkBytes, old(store.contents), msgs,
                              Disk.PutFault(io, if msgs == [] then [] else PutPayload(msgs[1..])))
    {
      if msgs == [] { return Reply(InvalidArgument, None); }
      var first := msgs[0];
      if !first.PutMeta? { return Reply(InvalidArgument, None); }
      var id := Parse(first.chunkId);
      if id.Err? { return Reply(InvalidArgument, None); }
      ParseIsParsed(first.chunkId, id.value);
      if first.version != CURRENT_VERSION { return Reply(FailedPrecondition, None); }
      if first.total > maxChunkBytes { return Reply(ResourceExhausted, Some(ChunkTooLarge)); }
      var frames := msgs[1..];
      var payload: Bytes := [];
      for i := 0 to |frames|
        invariant Receive(maxChunkBytes, frames[..i]) == Some(payload)
      {
        assert frames[..i + 1][..i] == frames[..i];
        if frames[i].PutData? {
          var data := frames[i].data;
          if |payload| + |data| > maxChunkBytes {
            RejectedForGood(maxChunkBytes, frames, i + 1);
            return Reply(ResourceExhausted, Some(ChunkTooLarge));
          }
          payload := payload + data;
        }
      }
      assert frames[..|frames|] == frames;
      ReceiveMeaning(maxChunkBytes, frames);
      var r := store.Put(id.value, payload, io);
      reply := Reply(RpcOk, Some(StatusOf(r)));
    }

    method GetChunk(version: nat, chunkId: string, statOk: bool, openOk: bool, readOk: bool, accepted: nat)
      returns (sent: Sent)
      requires store.Valid()
      ensures var f := if Parsed(chunkId).None? then A.NO_FAULT
                       else Disk.GetFault(store.contents, Parsed(chunkId).value.digest, statOk, openOk, readOk);
        sent == GetChunkOutcome(store.h, store.contents, version, chunkId, f, accepted)
    {
      if version != CURRENT_VERSION { return Sent([], FailedPrecondition); }
      var id := Parse(chunkId);
      if id.Err? { return Sent([], InvalidArgument); }
      ParseIsParsed(chunkId, id.value);
      var got := store.Get(id.value, statOk, openOk, readOk);
      if got.Failed? { return Sent([GetMeta(0, MapStoreError(got.kind))], RpcOk); }
      var frames := WriteFrames(got.bytes, accepted);
      sent := Sent([GetMeta(|got.bytes|, StatusOk)] + DataMessages(frames), RpcOk);
    }

    /** `msgs` is what arrives from the source node, `finishOk` the stream's final status. */
    method ReplicateChunk(version: nat, chunkId: string, msgs: seq<GetMsg>, finishOk: bool, io: Disk.PutIo)
      returns (reply: Reply)
      requires store.Valid() && Fresh(io.uuid)
      modifies store
      ensures store.Valid()
      ensures Outcome(store.contents, reply) ==
              ReplicateOutcome(store.h, maxChunkBytes, old(store.contents), version, chunkId, msgs, finishOk,
                               Disk.PutFault(io, if msgs == [] then [] else GetPayload(msgs[1..])))
    {
      if version != CURRENT_VERSION { return Reply(FailedPrecondition, None); }
      var id := Parse(chunkId);
      if id.Err? { return Reply(InvalidArgument, None); }
      ParseIsParsed(chunkId, id.value);
      if msgs == [] { return Reply(RpcOk, Some(SourceUnreachable)); }
      if msgs[0].GetMeta? && msgs[0].status != StatusOk { return Reply(RpcOk, Some(msgs[0].status)); }
      if DeclaredSize(msgs[0]) > maxChunkBytes { return Reply(RpcOk, Some(ChunkTooLarge)); }
      var frames := msgs[1..];
      var payload: Bytes := [];
      for i := 0 to |frames|
        invariant payload == GetPayload(frames[..i])
      {
        assert frames[..i + 1][..i] == frames[..i];
        if frames[i].GetData? { payload := payload + frames[i].data; }
      }
      assert frames[..|frames|] == frames;
      if !finishOk { return Reply(RpcOk, Some(SourceUnreachable)); }
      var r := store.Put(id.value, payload, io);
      reply := Reply(RpcOk, Some(StatusOf(r)));
    }

    method DeleteChunk(version: nat, chunkId: string, statOk: bool, removeOk: bool) returns (reply: Reply)
      requires store.Valid()
      modifies store
      ensures store.Valid()
      ensures Outcome(store.contents, reply) ==
              DeleteOutcome(store.h, old(store.contents), version, chunkId, A.Fault(!statOk, !removeOk))
    {
      var id := Parse(chunkId);
      if id.Err? { return Reply(InvalidArgument, None); }
      ParseIsParsed(chunkId, id.value);
      if version != CURRENT_VERSION { return Reply(FailedPrecondition, None); }
      var r := store.Delete(id.value, statOk, removeOk);
      reply := Reply(RpcOk, Some(StatusOf(r)));
    }

    /** A chunk is declared valid only if the bytes on disk hash to its id. */
    method VerifyChunk(version: nat, chunkId: string, statOk: bool, openOk: bool, readOk: bool)
      returns (reply: Reply, isValid: bool)
      requires store.Valid()
      ensures isValid <==> reply == Reply(RpcOk, Some(StatusOk))
      ensures reply == Reply(FailedPrecondition, None) <==> version != CURRENT_VERSION
      ensures reply == Reply(InvalidArgument, None) <==> version == CURRENT_VERSION && Parsed(chunkId).None?
      ensures version == CURRENT_VERSION && Parsed(chunkId).Some? ==>
        var d := Parsed(chunkId).value.digest; var m := store.contents;
        && reply.code == RpcOk
        && (reply.status == Some(NotFound) <==> !statOk || d !in m)
        && (reply.status == Some(IoError) <==> statOk && d in m && (!openOk || (!readOk && m[d] != [])))
        && (reply.status == Some(CorruptionDetected) <==>
              statOk && openOk && d in m && (readOk || m[d] == []) && !store.Intact(d))
        && (isValid <==> statOk && openOk && store.Intact(d) && (readOk || m[d] == []))
    {
      isValid := false;
      if version != CURRENT_VERSION { reply := Reply(FailedPrecondition, None); return; }
      var id := Parse(chunkId);
      if id.Err? { reply := Reply(InvalidArgument, None); return; }
      ParseIsParsed(chunkId, id.value);
      var r := store.VerifyOnly(id.value, statOk, openOk, readOk);
      isValid := !r.Failed?;
      reply := Reply(RpcOk, Some(StatusOf(r)));
    }
  }
}
