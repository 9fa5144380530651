/** Many storage nodes: clients put and delete, nodes replicate from each other over streams that may
    break, and disks go bad. */
module Cluster {
  import opened Prelude
  import opened ChunkIds
  import A = AtomicStore
  import opened Service

  /** A GetChunk stream on its way to a node that replicates `chunkId`. */
  datatype Stream = Stream(chunkId: string, msgs: seq<GetMsg>)

  /** `supplied`: payloads of client puts. `presented`: everything handed to some store's Put.
      `damaged`: files changed behind a store's back since they were stored. All three are history. */
  datatype State = State(
    nodes: seq<map<Digest, Bytes>>,
    streams: seq<Stream>,
    supplied: set<Bytes>,
    presented: set<Bytes>,
    damaged: set<(nat, Digest)>)

  datatype Action =
    | ClientPut(n: nat, msgs: seq<PutMsg>, f: A.Fault)
    | ClientDelete(n: nat, version: nat, chunkId: string, f: A.Fault)
    | Fetch(n: nat, chunkId: string, f: A.Fault, accepted: nat)
    | Deliver(k: nat, n: nat, cut: nat, finishOk: bool, f: A.Fault)
    | Corrupt(n: nat, id: Digest, bytes: Bytes)

  datatype Config = Config(h: HashFn, max: nat)

  predicate Enabled(s: State, a: Action)
  {
    match a
    case Deliver(k, n, cut, _, _) => k < |s.streams| && n < |s.nodes| && cut <= |s.streams[k].msgs|
    case Corrupt(n, id, _) => n < |s.nodes| && id in s.nodes[n]
    case _ => a.n < |s.nodes|
  }

  /** The payload a client stream carries after its first message. */
  function ClientPayload(msgs: seq<PutMsg>): Bytes { if msgs == [] then [] else PutPayload(msgs[1..]) }

  function ReceivedPayload(msgs: seq<GetMsg>): Bytes { if msgs == [] then [] else GetPayload(msgs[1..]) }

  /** The file of `id` changes behind the store's back. */
  function Overwrite(m: map<Digest, Bytes>, id: Digest, bytes: Bytes): map<Digest, Bytes> { m[id := bytes] }

  /** A request handler of node `n` leaves the store `m`; files it has removed or rewritten count as undamaged. */
  function Handled(s: State, n: nat, m: map<Digest, Bytes>): State
    requires n < |s.nodes|
  {
    s.(nodes := s.nodes[n := m],
       damaged := set x | x in s.damaged && (x.0 == n ==> x.1 in s.nodes[n] && x.1 in m && m[x.1] == s.nodes[n][x.1]))
  }

  function Apply(cfg: Config, s: State, a: Action): State
    requires Enabled(s, a)
  {
    match a
    case ClientPut(n, msgs, f) =>
      var p := ClientPayload(msgs);
      Handled(s, n, PutChunkOutcome(cfg.h, cfg.max, s.nodes[n], msgs, f).store).(
        supplied := s.supplied + {p}, presented := s.presented + {p})
    case ClientDelete(n, version, chunkId, f) =>
      Handled(s, n, DeleteOutcome(cfg.h, s.nodes[n], version, chunkId, f).store)
    case Fetch(n, chunkId, f, accepted) =>
      var sent := GetChunkOutcome(cfg.h, s.nodes[n], CURRENT_VERSION, chunkId, f, accepted);
      s.(streams := s.streams + [Stream(chunkId, sent.msgs)])
    case Deliver(k, n, cut, finishOk, f) =>
      var msgs := s.streams[k].msgs[..cut];
      Handled(s, n, ReplicateOutcome(cfg.h, cfg.max, s.nodes[n], CURRENT_VERSION, s.streams[k].chunkId, msgs, finishOk, f).store).(
        presented := s.presented + {ReceivedPayload(msgs)})
    case Corrupt(n, id, bytes) =>
      s.(nodes := s.nodes[n := Overwrite(s.nodes[n], id, bytes)], damaged := s.damaged + {(n, id)})
  }

  function Init(count: nat): State
  {
    State(seq(count, _ => map[]), [], {}, {}, {})
  }

  ghost predicate Legal(cfg: Config, s: State, run: seq<Action>)
    decreases |run|
  {
    run == [] || (Enabled(s, run[0]) && Legal(cfg, Apply(cfg, s, run[0]), run[1..]))
  }

  ghost function After(cfg: Config, s: State, run: seq<Action>): State
    requires Legal(cfg, s, run)
    decreases |run|
  {
    if run == [] then s else After(cfg, Apply(cfg, s, run[0]), run[1..])
  }

  // ---------------------------------------------------------------------------------------------
  // The invariant

  /** Some client put has supplied bytes for this id. */
  ghost predicate HasOrigin(cfg: Config, s: State, id: Digest)
  {
    exists b :: b in s.supplied && cfg.h(b) == id
  }

  ghost predicate Genuine(cfg: Config, s: State, id: Digest, b: Bytes)
  {
    cfg.h(b) == id && b in s.presented && |b| <= cfg.max
  }

  ghost predicate EntryOk(cfg: Config, s: State, n: nat, id: Digest)
    requires n < |s.nodes| && id in s.nodes[n]
  {
    HasOrigin(cfg, s, id) && ((n, id) in s.damaged || Genuine(cfg, s, id, s.nodes[n][id]))
  }

  /** A stream that reports success carries frames of bytes that hash to the id, and declares their true size. */
  ghost predicate StreamOk(cfg: Config, s: State, st: Stream)
  {
    || st.msgs == []
    || (|st.msgs| == 1 && st.msgs[0].GetMeta? && st.msgs[0].status != StatusOk)
    || (Parsed(st.chunkId).Some? && HasOrigin(cfg, s, Parsed(st.chunkId).value.digest)
        && exists data, accepted :: st.msgs == ChunkStream(data, accepted) && cfg.h(data) == Parsed(st.chunkId).value.digest)
  }

  ghost predicate Inv(cfg: Config, s: State)
  {
    && (forall n, id :: 0 <= n < |s.nodes| && id in s.nodes[n] ==> EntryOk(cfg, s, n, id))
    && (forall k :: 0 <= k < |s.streams| ==> StreamOk(cfg, s, s.streams[k]))
    && s.supplied <= s.presented
  }

  /** History only grows, so what it vouches for stays vouched for. */
  ghost predicate Grows(s: State, s': State)
  {
    s.supplied <= s'.supplied && s.presented <= s'.presented
  }

  lemma OriginKept(cfg: Config, s: State, s': State, id: Digest)
    requires Grows(s, s') && HasOrigin(cfg, s, id)
    ensures HasOrigin(cfg, s', id)
  {
  }

  lemma StreamKept(cfg: Config, s: State, s': State, st: Stream)
    requires Grows(s, s') && StreamOk(cfg, s, st)
    ensures StreamOk(cfg, s', st)
  {
  }

  /** Every entry is either an old one of the same node or new and vouched for. */
  ghost predicate NodeStep(cfg: Config, s: State, s': State, n: nat)
    requires n < |s.nodes| && n < |s'.nodes|
  {
    forall id :: id in s'.nodes[n] ==>
      || (id in s.nodes[n] && s'.nodes[n][id] == s.nodes[n][id])
      || (HasOrigin(cfg, s', id) && ((n, id) in s'.damaged || Genuine(cfg, s', id, s'.nodes[n][id])))
  }

  predicate SameEntry(s: State, s': State, i: nat, id: Digest)
    requires i < |s.nodes| == |s'.nodes|
  {
    id in s.nodes[i] && id in s'.nodes[i] && s'.nodes[i][id] == s.nodes[i][id]
  }

  lemma EntriesKept(cfg: Config, s: State, s': State, n: nat)
    requires Inv(cfg, s) && Grows(s, s') && n < |s.nodes| == |s'.nodes|
    requires forall i :: 0 <= i < |s.nodes| && i != n ==> s'.nodes[i] == s.nodes[i]
    requires NodeStep(cfg, s, s', n)
    requires forall i, id :: 0 <= i < |s.nodes| && (i, id) in s.damaged && SameEntry(s, s', i, id) ==> (i, id) in s'.damaged
    ensures forall i, id :: 0 <= i < |s'.nodes| && id in s'.nodes[i] ==> EntryOk(cfg, s', i, id)
  {
    forall i, id | 0 <= i < |s'.nodes| && id in s'.nodes[i] ensures EntryOk(cfg, s', i, id) {
      if id in s.nodes[i] && s'.nodes[i][id] == s.nodes[i][id] {
        assert EntryOk(cfg, s, i, id);
        OriginKept(cfg, s, s', id);
      }
    }
  }

  lemma StreamsKept(cfg: Config, s: State, s': State)
    requires Inv(cfg, s) && Grows(s, s') && s'.streams == s.streams
    ensures forall k :: 0 <= k < |s'.streams| ==> StreamOk(cfg, s', s'.streams[k])
  {
    forall k | 0 <= k < |s'.streams| ensures StreamOk(cfg, s', s'.streams[k]) {
      StreamKept(cfg, s, s', s.streams[k]);
    }
  }

  lemma ClientPutKeeps(cfg: Config, s: State, a: Action)
    requires Inv(cfg, s) && Enabled(s, a) && a.ClientPut?
    ensures Inv(cfg, Apply(cfg, s, a))
  {
    var s' := Apply(cfg, s, a);
    forall id | id in s'.nodes[a.n]
      ensures (id in s.nodes[a.n] && s'.nodes[a.n][id] == s.nodes[a.n][id])
           || (HasOrigin(cfg, s', id) && Genuine(cfg, s', id, s'.nodes[a.n][id]))
    {
      PutChunkEffect(cfg.h, cfg.max, s.nodes[a.n], a.msgs, a.f, id);
    }
    EntriesKept(cfg, s, s', a.n);
    StreamsKept(cfg, s, s');
  }

  lemma ClientDeleteKeeps(cfg: Config, s: State, a: Action)
    requires Inv(cfg, s) && Enabled(s, a) && a.ClientDelete?
    ensures Inv(cfg, Apply(cfg, s, a))
  {
    var s' := Apply(cfg, s, a);
    EntriesKept(cfg, s, s', a.n);
    StreamsKept(cfg, s, s');
  }

  lemma CorruptKeeps(cfg: Config, s: State, a: Action)
    requires Inv(cfg, s) && Enabled(s, a) && a.Corrupt?
    ensures Inv(cfg, Apply(cfg, s, a))
  {
    var s' := Apply(cfg, s, a);
    assert EntryOk(cfg, s, a.n, a.id);
    OriginKept(cfg, s, s', a.id);
    EntriesKept(cfg, s, s', a.n);
    StreamsKept(cfg, s, s');
  }

  /** GetChunk verifies what it reads, so even a damaged file never gives a stream with wrong bytes. */
  lemma FetchedStreamOk(cfg: Config, s: State, n: nat, chunkId: string, f: A.Fault, accepted: nat)
    requires Inv(cfg, s) && n < |s.nodes|
    ensures StreamOk(cfg, s, Stream(chunkId, GetChunkOutcome(cfg.h, s.nodes[n], CURRENT_VERSION, chunkId, f, accepted).msgs))
  {
    if Parsed(chunkId).Some? {
      var id := Parsed(chunkId).value.digest;
      var r := A.Atomic(cfg.h, s.nodes[n], A.Get(id), f).reply;
      if r.Payload? {
        A.GetReturnsVerifiedBytes(cfg.h, s.nodes[n], id, f, r.bytes);
        assert EntryOk(cfg, s, n, id);
        assert ChunkStream(r.bytes, accepted) == ChunkStream(r.bytes, accepted) && cfg.h(r.bytes) == id;
      }
    }
  }

  lemma FetchKeeps(cfg: Config, s: State, a: Action)
    requires Inv(cfg, s) && Enabled(s, a) && a.Fetch?
    ensures Inv(cfg, Apply(cfg, s, a))
  {
    var s' := Apply(cfg, s, a);
    FetchedStreamOk(cfg, s, a.n, a.chunkId, a.f, a.accepted);
    forall k | 0 <= k < |s'.streams| ensures StreamOk(cfg, s', s'.streams[k]) {
      StreamKept(cfg, s, s', s'.streams[k]);
    }
    EntriesKept(cfg, s, s', a.n);
  }

  /** An accepted stream carries no more than the source declared, and there is an origin for its id. */
  lemma AcceptedStream(cfg: Config, s: State, st: Stream, cut: nat)
    requires StreamOk(cfg, s, st) && 0 < cut <= |st.msgs|
    requires st.msgs[0].GetMeta? ==> st.msgs[0].status == StatusOk
    ensures |ReceivedPayload(st.msgs[..cut])| <= DeclaredSize(st.msgs[0])
    ensures Parsed(st.chunkId).Some? && HasOrigin(cfg, s, Parsed(st.chunkId).value.digest)
  {
    var data, accepted :| st.msgs == ChunkStream(data, accepted) && cfg.h(data) == Parsed(st.chunkId).value.digest;
    StreamRoundTrip(data, accepted, cut);
  }

  /** What replication adds to a store: the payload received, which hashes to the id, comes with an
      origin, and, being a prefix of bytes whose size the source declared truthfully, fits the limit. */
  lemma ReplicationEffect(cfg: Config, s: State, st: Stream, m: map<Digest, Bytes>, cut: nat, finishOk: bool, f: A.Fault, id: Digest)
    requires StreamOk(cfg, s, st) && cut <= |st.msgs|
    ensures var msgs := st.msgs[..cut];
      var m' := ReplicateOutcome(cfg.h, cfg.max, m, CURRENT_VERSION, st.chunkId, msgs, finishOk, f).store;
      id in m' ==>
        || (id in m && m'[id] == m[id])
        || (m'[id] == ReceivedPayload(msgs) && cfg.h(m'[id]) == id && |m'[id]| <= cfg.max && HasOrigin(cfg, s, id))
  {
    if cut > 0 && (st.msgs[0].GetMeta? ==> st.msgs[0].status == StatusOk) {
      AcceptedStream(cfg, s, st, cut);
    }
  }

  lemma DeliverKeeps(cfg: Config, s: State, a: Action)
    requires Inv(cfg, s) && Enabled(s, a) && a.Deliver?
    ensures Inv(cfg, Apply(cfg, s, a))
  {
    var s' := Apply(cfg, s, a);
    forall id | id in s'.nodes[a.n]
      ensures (id in s.nodes[a.n] && s'.nodes[a.n][id] == s.nodes[a.n][id])
           || (HasOrigin(cfg, s', id) && Genuine(cfg, s', id, s'.nodes[a.n][id]))
    {
      ReplicationEffect(cfg, s, s.streams[a.k], s.nodes[a.n], a.cut, a.finishOk, a.f, id);
    }
    EntriesKept(cfg, s, s', a.n);
    StreamsKept(cfg, s, s');
  }

  lemma ActionKeeps(cfg: Config, s: State, a: Action)
    requires Inv(cfg, s) && Enabled(s, a)
    ensures Inv(cfg, Apply(cfg, s, a))
  {
    match a
    case ClientPut(_, _, _) => ClientPutKeeps(cfg, s, a);
    case ClientDelete(_, _, _, _) => ClientDeleteKeeps(cfg, s, a);
    case Fetch(_, _, _, _) => FetchKeeps(cfg, s, a);
    case Deliver(_, _, _, _, _) => DeliverKeeps(cfg, s, a);
    case Corrupt(_, _, _) => CorruptKeeps(cfg, s, a);
  }

  lemma {:induction false} RunKeeps(cfg: Config, s: State, run: seq<Action>)
    requires Inv(cfg, s) && Legal(cfg, s, run)
    ensures Inv(cfg, After(cfg, s, run))
    decreases |run|
  {
    if run != [] {
      ActionKeeps(cfg, s, run[0]);
      RunKeeps(cfg, Apply(cfg, s, run[0]), run[1..]);
    }
  }

  // ---------------------------------------------------------------------------------------------
  // The theorems

  ghost predicate CollisionFree(h: HashFn, payloads: set<Bytes>)
  {
    forall a, b :: a in payloads && b in payloads && h(a) == h(b) ==> a == b
  }

  /** A file that nobody has changed behind its store's back since it was stored. */
  predicate Undamaged(s: State, n: nat, id: Digest)
  {
    n < |s.nodes| && id in s.nodes[n] && (n, id) !in s.damaged
  }

  /** Content and size safety: over every run of puts, deletes, replications over broken streams, and disk
      corruption, every undamaged chunk on every node hashes to its id and fits the limit. */
  lemma ClusterSafety(cfg: Config, count: nat, run: seq<Action>, n: nat, id: Digest)
    requires Legal(cfg, Init(count), run) && Undamaged(After(cfg, Init(count), run), n, id)
    ensures var b := After(cfg, Init(count), run).nodes[n][id];
      cfg.h(b) == id && |b| <= cfg.max
  {
    RunKeeps(cfg, Init(count), run);
    assert EntryOk(cfg, After(cfg, Init(count), run), n, id);
  }

  /** Agreement: if no two payloads of the run collide, any two nodes with undamaged copies of an id hold
      identical bytes, and those bytes were supplied by a client put. */
  lemma ClusterAgreement(cfg: Config, count: nat, run: seq<Action>, n: nat, n': nat, id: Digest)
    requires Legal(cfg, Init(count), run)
    requires var s := After(cfg, Init(count), run);
      Undamaged(s, n, id) && Undamaged(s, n', id) && CollisionFree(cfg.h, s.presented)
    ensures var s := After(cfg, Init(count), run);
      s.nodes[n][id] == s.nodes[n'][id] && s.nodes[n][id] in s.supplied
  {
    RunKeeps(cfg, Init(count), run);
    var s := After(cfg, Init(count), run);
    assert EntryOk(cfg, s, n, id) && EntryOk(cfg, s, n', id);
    var origin :| origin in s.supplied && cfg.h(origin) == id;
  }

  /** Without corruption steps nothing is ever damaged, so both theorems cover every copy. */
  lemma {:induction false} NoCorruptionNoDamage(cfg: Config, s: State, run: seq<Action>)
    requires Legal(cfg, s, run) && forall a :: a in run ==> !a.Corrupt?
    ensures After(cfg, s, run).damaged <= s.damaged
    decreases |run|
  {
    if run != [] {
      assert run[0] in run && forall b :: b in run[1..] ==> b in run;
      NoCorruptionNoDamage(cfg, Apply(cfg, s, run[0]), run[1..]);
    }
  }
}
