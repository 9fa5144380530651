/** What each answer of the service means, for every request and every fault: which code and status is
    given exactly when, and what the store then holds. */
module ServiceReplies {
  import opened Prelude
  import opened ChunkIds
  import opened Framing
  import A = AtomicStore
  import opened Service

  // ---------------------------------------------------------------------------------------------
  // PutChunk

  /** The stream opens with metadata that names a chunk. */
  predicate Named(msgs: seq<PutMsg>)
  {
    msgs != [] && msgs[0].PutMeta? && Parsed(msgs[0].chunkId).Some?
  }

  /** Both the declared and the streamed size keep to the limit. */
  predicate Fits(max: nat, msgs: seq<PutMsg>)
    requires Named(msgs)
  {
    msgs[0].total <= max && |PutPayload(msgs[1..])| <= max
  }

  predicate Admitted(max: nat, msgs: seq<PutMsg>)
  {
    Named(msgs) && msgs[0].version == CURRENT_VERSION && Fits(max, msgs)
  }

  lemma PutChunkCodes(h: HashFn, max: nat, m: map<Digest, Bytes>, msgs: seq<PutMsg>, f: A.Fault)
    ensures var Outcome(m', reply) := PutChunkOutcome(h, max, m, msgs, f);
      && (reply.code == InvalidArgument <==> !Named(msgs))
      && (reply.code == FailedPrecondition <==> Named(msgs) && msgs[0].version != CURRENT_VERSION)
      && (reply.code == ResourceExhausted <==>
            Named(msgs) && msgs[0].version == CURRENT_VERSION && !Fits(max, msgs))
      && (reply.code == RpcOk <==> Admitted(max, msgs))
      && (reply.status == Some(ChunkTooLarge) <==> reply.code == ResourceExhausted)
      && (reply.status == None <==> reply.code == InvalidArgument || reply.code == FailedPrecondition)
      && (reply.code != RpcOk ==> m' == m)
  {
    if msgs != [] {
      ReceiveMeaning(max, msgs[1..]);
    }
  }

  /** An admitted upload is answered OK exactly if its payload hashes to the id and it is either already there
      or all system calls succeed; then the chunk is in the store, and otherwise nothing has changed. */
  lemma PutChunkStatus(h: HashFn, max: nat, m: map<Digest, Bytes>, msgs: seq<PutMsg>, f: A.Fault)
    requires Admitted(max, msgs)
    ensures var Outcome(m', reply) := PutChunkOutcome(h, max, m, msgs, f);
      var d := Parsed(msgs[0].chunkId).value.digest; var p := PutPayload(msgs[1..]); var found := d in m && !f.probe;
      && (reply.status == Some(ChecksumMismatch) <==> h(p) != d)
      && (reply.status == Some(IoError) <==> h(p) == d && !found && f.io)
      && (reply.status == Some(StatusOk) <==> h(p) == d && (found || !f.io))
      && (reply.status == Some(StatusOk) ==> d in m' && m' == if found then m else m[d := p])
      && (reply.status != Some(StatusOk) ==> m' == m)
  {
    ReceiveMeaning(max, msgs[1..]);
  }

  /** No upload is answered OK unless its chunk is in the store afterwards. */
  lemma PutChunkOkMeansStored(h: HashFn, max: nat, m: map<Digest, Bytes>, msgs: seq<PutMsg>, f: A.Fault)
    ensures var Outcome(m', reply) := PutChunkOutcome(h, max, m, msgs, f);
      reply.status == Some(StatusOk) ==> Admitted(max, msgs) && Parsed(msgs[0].chunkId).value.digest in m'
  {
    PutChunkCodes(h, max, m, msgs, f);
    if Admitted(max, msgs) {
      PutChunkStatus(h, max, m, msgs, f);
    }
  }

  /** The payload is the concatenation of the data frames, in order; other messages carry nothing. */
  lemma {:induction false} PutPayloadConcat(a: seq<PutMsg>, b: seq<PutMsg>, ab: seq<PutMsg>)
    requires ab == a + b
    ensures PutPayload(ab) == PutPayload(a) + PutPayload(b)
    decreases |b|
  {
    if b == [] {
      assert ab == a;
    } else {
      assert ab[..|ab| - 1] == a + b[..|b| - 1];
      PutPayloadConcat(a, b[..|b| - 1], ab[..|ab| - 1]);
    }
  }

  lemma PutPayloadOne(msg: PutMsg)
    ensures PutPayload([msg]) == if msg.PutData? then msg.data else []
  {
    assert [msg][..0] == [];
  }

  function Upload(frames: seq<Bytes>): seq<PutMsg>
  {
    seq(|frames|, i requires 0 <= i < |frames| => PutData(CURRENT_VERSION, frames[i]))
  }

  lemma {:induction false} UploadPayload(frames: seq<Bytes>)
    ensures PutPayload(Upload(frames)) == Concat(frames)
    decreases |frames|
  {
    if frames != [] {
      var n := |frames| - 1;
      UploadPayload(frames[..n]);
      assert Upload(frames)[..n] == Upload(frames[..n]);
    }
  }

  /** An upload of matching data within the limit, to a store without the chunk, is stored and answered OK,
      however it is split into frames and whatever other messages come in between. */
  lemma UploadIsStored(h: HashFn, max: nat, m: map<Digest, Bytes>, id: ChunkId, total: nat, rest: seq<PutMsg>)
    requires id.Valid() && total <= max && |PutPayload(rest)| <= max
    requires h(PutPayload(rest)) == id.digest && id.digest !in m
    ensures PutChunkOutcome(h, max, m, [PutMeta(CURRENT_VERSION, id.hex, total)] + rest, A.NO_FAULT)
            == Outcome(m[id.digest := PutPayload(rest)], Reply(RpcOk, Some(StatusOk)))
  {
    var msgs := [PutMeta(CURRENT_VERSION, id.hex, total)] + rest;
    ParseInvertsPrint(id.digest);
    assert msgs[1..] == rest;
    PutChunkCodes(h, max, m, msgs, A.NO_FAULT);
    PutChunkStatus(h, max, m, msgs, A.NO_FAULT);
  }

  /** Upload, then download: the receiver puts together exactly the bytes that were sent. */
  lemma UploadThenDownload(h: HashFn, max: nat, m: map<Digest, Bytes>, id: ChunkId, data: Bytes)
    requires id.Valid() && |data| <= max && h(data) == id.digest && id.digest !in m
    ensures var put := PutChunkOutcome(h, max, m, [PutMeta(CURRENT_VERSION, id.hex, |data|)] + Upload(Frames(data)), A.NO_FAULT);
      var sent := GetChunkOutcome(h, put.store, CURRENT_VERSION, id.hex, A.NO_FAULT, FrameCount(|data|));
      && put.reply == Reply(RpcOk, Some(StatusOk))
      && sent.code == RpcOk && sent.msgs != [] && sent.msgs[0] == GetMeta(|data|, StatusOk) && GetPayload(sent.msgs[1..]) == data
  {
    UploadPayload(Frames(data));
    FramingRoundTrip(data, 0);
    UploadIsStored(h, max, m, id, |data|, Upload(Frames(data)));
    GetChunkOfId(h, m[id.digest := data], id, A.NO_FAULT, FrameCount(|data|));
    var msgs := ChunkStream(data, FrameCount(|data|));
    StreamRoundTrip(data, FrameCount(|data|), |msgs|);
    assert msgs[..|msgs|] == msgs;
  }

  // ---------------------------------------------------------------------------------------------
  // GetChunk

  lemma GetChunkCodes(h: HashFn, m: map<Digest, Bytes>, version: nat, chunkId: string, f: A.Fault, accepted: nat)
    ensures var sent := GetChunkOutcome(h, m, version, chunkId, f, accepted);
      && (sent.code == FailedPrecondition <==> version != CURRENT_VERSION)
      && (sent.code == InvalidArgument <==> version == CURRENT_VERSION && Parsed(chunkId).None?)
      && (sent.code == RpcOk <==> version == CURRENT_VERSION && Parsed(chunkId).Some?)
      && (sent.msgs == [] <==> sent.code != RpcOk)
  {
  }

  /** The first message always carries the status; frames follow only after OK. */
  lemma GetChunkStatus(h: HashFn, m: map<Digest, Bytes>, id: ChunkId, f: A.Fault, accepted: nat)
    requires id.Valid()
    ensures var msgs := GetChunkOutcome(h, m, CURRENT_VERSION, id.hex, f, accepted).msgs; var d := id.digest;
      && msgs != [] && msgs[0].GetMeta?
      && (msgs[0].status == NotFound <==> d !in m || f.probe)
      && (msgs[0].status == IoError <==> d in m && !f.probe && f.io)
      && (msgs[0].status == CorruptionDetected <==> d in m && !f.probe && !f.io && h(m[d]) != d)
      && (msgs[0].status == StatusOk <==> d in m && !f.probe && !f.io && h(m[d]) == d)
      && (msgs[0].status == StatusOk ==> msgs == ChunkStream(m[d], accepted))
      && (msgs[0].status != StatusOk ==> msgs == [GetMeta(0, msgs[0].status)])
  {
    GetChunkOfId(h, m, id, f, accepted);
  }

  // ---------------------------------------------------------------------------------------------
  // DeleteChunk

  lemma DeleteChunkCodes(h: HashFn, m: map<Digest, Bytes>, version: nat, chunkId: string, f: A.Fault)
    ensures var Outcome(m', reply) := DeleteOutcome(h, m, version, chunkId, f);
      && (reply.code == InvalidArgument <==> Parsed(chunkId).None?)
      && (reply.code == FailedPrecondition <==> Parsed(chunkId).Some? && version != CURRENT_VERSION)
      && (reply.code == RpcOk <==> Parsed(chunkId).Some? && version == CURRENT_VERSION)
      && (reply.status == None <==> reply.code != RpcOk)
      && (reply.code != RpcOk ==> m' == m)
  {
  }

  /** A Delete is answered OK or IoError. After OK the chunk is gone, unless its size probe failed; after IoError
      nothing has changed; and no other chunk ever changes. */
  lemma DeleteChunkStatus(h: HashFn, m: map<Digest, Bytes>, id: ChunkId, f: A.Fault)
    requires id.Valid()
    ensures var Outcome(m', reply) := DeleteOutcome(h, m, CURRENT_VERSION, id.hex, f); var d := id.digest;
      && (reply == Reply(RpcOk, Some(IoError)) <==> d in m && !f.probe && f.io)
      && (reply == Reply(RpcOk, Some(StatusOk)) <==> d !in m || f.probe || !f.io)
      && (reply.status == Some(StatusOk) && !f.probe ==> d !in m')
      && (reply.status == Some(IoError) || f.probe ==> m' == m)
      && (forall k :: k != d ==> (k in m' <==> k in m) && (k in m ==> m'[k] == m[k]))
  {
    ParseInvertsPrint(id.digest);
  }

  lemma DeleteChunkDeletes(h: HashFn, m: map<Digest, Bytes>, id: ChunkId)
    requires id.Valid()
    ensures DeleteOutcome(h, m, CURRENT_VERSION, id.hex, A.NO_FAULT) == Outcome(m - {id.digest}, Reply(RpcOk, Some(StatusOk)))
  {
    ParseInvertsPrint(id.digest);
    if id.digest !in m {
      assert m - {id.digest} == m;
    }
  }

  // ---------------------------------------------------------------------------------------------
  // ReplicateChunk

  lemma ReplicateCodes(h: HashFn, max: nat, m: map<Digest, Bytes>, version: nat, chunkId: string,
                       msgs: seq<GetMsg>, finishOk: bool, f: A.Fault)
    ensures var Outcome(m', reply) := ReplicateOutcome(h, max, m, version, chunkId, msgs, finishOk, f);
      && (reply.code == FailedPrecondition <==> version != CURRENT_VERSION)
      && (reply.code == InvalidArgument <==> version == CURRENT_VERSION && Parsed(chunkId).None?)
      && (reply.code == RpcOk <==> version == CURRENT_VERSION && Parsed(chunkId).Some?)
      && (reply.status == None <==> reply.code != RpcOk)
      && (reply.code != RpcOk ==> m' == m)
  {
  }

  /** The source itself reports a failure. */
  predicate SourceFailed(msgs: seq<GetMsg>) { msgs != [] && msgs[0].GetMeta? && msgs[0].status != StatusOk }

  /** The source declares more than the limit. */
  predicate Oversized(max: nat, msgs: seq<GetMsg>) { msgs != [] && msgs[0].GetMeta? && msgs[0].total > max }

  /** The stream arrived whole, as far as the receiver can tell. */
  predicate Arrived(max: nat, msgs: seq<GetMsg>, finishOk: bool)
  {
    msgs != [] && !SourceFailed(msgs) && !Oversized(max, msgs) && finishOk
  }

  /** Before the store is asked: the source's own failure reaches the caller unchanged; a missing first message
      and a bad finish are SourceUnreachable; a declared size beyond the limit is ChunkTooLarge; and none of
      these changes the store. */
  lemma ReplicateFailures(h: HashFn, max: nat, m: map<Digest, Bytes>, id: ChunkId, msgs: seq<GetMsg>, finishOk: bool, f: A.Fault)
    requires id.Valid() && !Arrived(max, msgs, finishOk)
    ensures var Outcome(m', reply) := ReplicateOutcome(h, max, m, CURRENT_VERSION, id.hex, msgs, finishOk, f);
      && m' == m && reply.code == RpcOk && reply.status.Some? && reply.status != Some(StatusOk)
      && (SourceFailed(msgs) ==> reply.status == Some(msgs[0].status))
      && (!SourceFailed(msgs) ==>
            && (reply.status == Some(SourceUnreachable) <==> !Oversized(max, msgs))
            && (reply.status == Some(ChunkTooLarge) <==> Oversized(max, msgs)))
  {
    ParseInvertsPrint(id.digest);
  }

  /** After that the answer is the store's, on the concatenation of what was received. */
  lemma ReplicateStatus(h: HashFn, max: nat, m: map<Digest, Bytes>, id: ChunkId, msgs: seq<GetMsg>, finishOk: bool, f: A.Fault)
    requires id.Valid() && Arrived(max, msgs, finishOk)
    ensures var Outcome(m', reply) := ReplicateOutcome(h, max, m, CURRENT_VERSION, id.hex, msgs, finishOk, f);
      var d := id.digest; var p := GetPayload(msgs[1..]); var found := d in m && !f.probe;
      && (reply.status == Some(ChecksumMismatch) <==> h(p) != d)
      && (reply.status == Some(IoError) <==> h(p) == d && !found && f.io)
      && (reply.status == Some(StatusOk) <==> h(p) == d && (found || !f.io))
      && (reply.status == Some(StatusOk) ==> d in m' && m' == if found then m else m[d := p])
      && (reply.status != Some(StatusOk) ==> m' == m)
  {
    ParseInvertsPrint(id.digest);
  }

  /** No replication is answered OK unless the chunk is in the store afterwards. */
  lemma ReplicateOkMeansStored(h: HashFn, max: nat, m: map<Digest, Bytes>, id: ChunkId, msgs: seq<GetMsg>, finishOk: bool, f: A.Fault)
    requires id.Valid()
    ensures var Outcome(m', reply) := ReplicateOutcome(h, max, m, CURRENT_VERSION, id.hex, msgs, finishOk, f);
      reply.status == Some(StatusOk) ==> Arrived(max, msgs, finishOk) && id.digest in m'
  {
    if Arrived(max, msgs, finishOk) {
      ReplicateStatus(h, max, m, id, msgs, finishOk, f);
    } else {
      ReplicateFailures(h, max, m, id, msgs, finishOk, f);
    }
  }

  lemma {:induction false} GetPayloadConcat(a: seq<GetMsg>, b: seq<GetMsg>, ab: seq<GetMsg>)
    requires ab == a + b
    ensures GetPayload(ab) == GetPayload(a) + GetPayload(b)
    decreases |b|
  {
    if b == [] {
      assert ab == a;
    } else {
      assert ab[..|ab| - 1] == a + b[..|b| - 1];
      GetPayloadConcat(a, b[..|b| - 1], ab[..|ab| - 1]);
    }
  }

  lemma GetPayloadOne(msg: GetMsg)
    ensures GetPayload([msg]) == if msg.GetData? then msg.data else []
  {
    assert [msg][..0] == [];
  }
}
