/** The local disk chunk store, one call at a time: a class over a tree of files whose abstract value is
    a map from digests to bytes. */
module LocalDiskStore {
  import opened Prelude
  import opened Sums
  import opened HexCodec
  import opened ChunkIds
  import A = AtomicStore
  import opened DiskMachine
  import opened DiskInvariant
  import opened DiskLayout

  // ---------------------------------------------------------------------------------------------
  // Directory scans

  /** What a recursive directory iterator yields. */
  datatype Entry = Entry(path: Path, regular: bool, size: nat)

  /** `listing` visits every regular file once, in any order, among any directories. */
  ghost predicate Enumerates(listing: seq<Entry>, tree: Tree)
  {
    && (forall i :: 0 <= i < |listing| && listing[i].regular ==>
          listing[i].path in tree && listing[i].size == |tree[listing[i].path]|)
    && (forall i, j :: 0 <= i < j < |listing| && listing[i].regular && listing[j].regular ==>
          listing[i].path != listing[j].path)
    && (forall p :: p in tree ==> exists i :: 0 <= i < |listing| && listing[i].regular && listing[i].path == p)
  }

  predicate IsChunkEntry(e: Entry) { e.regular && IsChunkPath(e.path) }

  /** The chunk files among the first `k` entries. */
  ghost function Seen(listing: seq<Entry>, tree: Tree, k: nat): Tree
    requires k <= |listing| && Enumerates(listing, tree)
  {
    if k == 0 then map[]
    else
      var e := listing[k - 1];
      var before := Seen(listing, tree, k - 1);
      if IsChunkEntry(e) then before[e.path := tree[e.path]] else before
  }

  lemma {:induction false} SeenFiles(listing: seq<Entry>, tree: Tree, k: nat, p: Path)
    requires k <= |listing| && Enumerates(listing, tree)
    ensures p in Seen(listing, tree, k) <==> exists i :: 0 <= i < k && IsChunkEntry(listing[i]) && listing[i].path == p
    ensures p in Seen(listing, tree, k) ==> p in tree && Seen(listing, tree, k)[p] == tree[p]
    decreases k
  {
    if k > 0 {
      SeenFiles(listing, tree, k - 1, p);
    }
  }

  lemma SeenAll(listing: seq<Entry>, tree: Tree)
    requires Enumerates(listing, tree)
    ensures Seen(listing, tree, |listing|) == ChunkFiles(tree)
  {
    forall p ensures p in Seen(listing, tree, |listing|) <==> p in ChunkFiles(tree) {
      SeenFiles(listing, tree, |listing|, p);
    }
    forall p | p in ChunkFiles(tree) ensures Seen(listing, tree, |listing|)[p] == tree[p] {
      SeenFiles(listing, tree, |listing|, p);
    }
  }

  /** The counters after the first `k` entries. */
  ghost predicate Counted(listing: seq<Entry>, tree: Tree, k: nat, count: nat, bytes: nat)
    requires k <= |listing| && Enumerates(listing, tree)
  {
    count == Wrap64(|Seen(listing, tree, k)|) && bytes == Wrap64(TotalSize(Seen(listing, tree, k)))
  }

  lemma CountEntry(listing: seq<Entry>, tree: Tree, k: nat, count: nat, bytes: nat)
    requires Enumerates(listing, tree) && k < |listing| && Counted(listing, tree, k, count, bytes)
    ensures if IsChunkEntry(listing[k])
            then Counted(listing, tree, k + 1, Wrap64(count + 1), Wrap64(bytes + listing[k].size))
            else Counted(listing, tree, k + 1, count, bytes)
  {
    var e := listing[k];
    if IsChunkEntry(e) {
      var a := Seen(listing, tree, k);
      SeenFiles(listing, tree, k, e.path);
      TotalSizeInsert(a, e.path, tree[e.path]);
      WrapAdd(|a|, 1);
      WrapAdd(TotalSize(a), e.size);
    }
  }

  /** The constructor's scan: count and total size of the `.chunk` files, on 64-bit counters. */
  method Scan(listing: seq<Entry>, ghost tree: Tree) returns (count: nat, bytes: nat)
    requires Enumerates(listing, tree)
    ensures count == Wrap64(|ChunkFiles(tree)|) && bytes == Wrap64(TotalSize(ChunkFiles(tree)))
  {
    count, bytes := 0, 0;
    for k := 0 to |listing|
      invariant Counted(listing, tree, k, count, bytes)
    {
      CountEntry(listing, tree, k, count, bytes);
      if IsChunkEntry(listing[k]) {
        count := Wrap64(count + 1);
        bytes := Wrap64(bytes + listing[k].size);
      }
    }
    SeenAll(listing, tree);
  }

  /** The id a file stands for, if it has the extension and its stem is an id's text. */
  function IdOf(p: Path): Option<ChunkId>
  {
    if IsChunkPath(p) then Parsed(Stem(p[|p| - 1])) else None
  }

  /** A file stands for the id whose text it is named after, in whatever directory it lies. */
  lemma IdOfMeaning(p: Path, id: ChunkId)
    ensures IdOf(p) == Some(id) <==> p != [] && p[|p| - 1] == id.hex + ".chunk" && id.Valid()
  {
    if p != [] {
      var name := p[|p| - 1];
      ChunkNameShape(name);
      if IdOf(p) == Some(id) {
        assert name == name[..|name| - 6] + name[|name| - 6..];
      }
      if name == id.hex + ".chunk" && id.Valid() {
        assert name[|name| - 6..] == ".chunk" && name[..|name| - 6] == id.hex;
        ParseInvertsPrint(id.digest);
      }
    }
  }

  lemma IdOfFinal(d: Digest)
    ensures IdOf(FinalPath(d)) == Some(FromDigest(d))
  {
    FinalPathInjective(d, d);
    FinalNameShape(ToHex(d));
    ParseInvertsPrint(d);
  }

  function EntryId(e: Entry): Option<ChunkId> { if e.regular then IdOf(e.path) else None }

  /** The values present, in order. */
  function Somes<T>(xs: seq<Option<T>>): seq<T>
  {
    if xs == [] then []
    else Somes(xs[..|xs| - 1]) + (if xs[|xs| - 1].Some? then [xs[|xs| - 1].value] else [])
  }

  lemma {:induction false} SomesMembers<T>(xs: seq<Option<T>>, x: T)
    ensures x in Somes(xs) <==> Some(x) in xs
    decreases |xs|
  {
    if xs != [] {
      var n := |xs| - 1;
      SomesMembers(xs[..n], x);
      assert xs == xs[..n] + [xs[n]];
    }
  }

  lemma {:induction false} SomesDistinct<T>(xs: seq<Option<T>>)
    requires forall i, j :: 0 <= i < j < |xs| && xs[i].Some? ==> xs[i] != xs[j]
    ensures forall i, j :: 0 <= i < j < |Somes(xs)| ==> Somes(xs)[i] != Somes(xs)[j]
    decreases |xs|
  {
    if xs != [] {
      var n := |xs| - 1;
      SomesDistinct(xs[..n]);
      if xs[n].Some? {
        SomesMembers(xs[..n], xs[n].value);
      }
    }
  }

  ghost function EntryIds(listing: seq<Entry>): seq<Option<ChunkId>>
  {
    seq(|listing|, i requires 0 <= i < |listing| => EntryId(listing[i]))
  }

  /** `result` lists exactly the stored ids, each once. */
  ghost predicate ListsExactly(result: seq<ChunkId>, m: map<Digest, Bytes>)
  {
    && (forall i :: 0 <= i < |result| ==> result[i].Valid() && result[i].digest in m)
    && (forall d :: d in m ==> FromDigest(d) in result)
    && (forall i, j :: 0 <= i < j < |result| ==> result[i] != result[j])
  }

  lemma ListedIds(listing: seq<Entry>, tree: Tree, id: ChunkId)
    requires Enumerates(listing, tree)
    ensures id in Somes(EntryIds(listing)) <==> exists p :: p in tree && IdOf(p) == Some(id)
  {
    var ids := EntryIds(listing);
    SomesMembers(ids, id);
    if Some(id) in ids {
      var i :| 0 <= i < |ids| && ids[i] == Some(id);
      assert listing[i].path in tree && IdOf(listing[i].path) == Some(id);
    }
    forall p | p in tree && IdOf(p) == Some(id) ensures Some(id) in ids {
      var i :| 0 <= i < |listing| && listing[i].regular && listing[i].path == p;
      assert ids[i] == Some(id);
    }
  }

  /** In a tree written by the store a file that stands for an id lies at that id's final path. */
  lemma StoredFile(tree: Tree, m: map<Digest, Bytes>, p: Path, id: ChunkId)
    requires StoreTree(tree, m) && p in tree && IdOf(p) == Some(id)
    ensures id.Valid() && id.digest in m && p == FinalPath(id.digest)
  {
    var d := ChunkPathIsFinal(tree, m, p);
    IdOfFinal(d);
  }

  lemma ListingExact(listing: seq<Entry>, tree: Tree, m: map<Digest, Bytes>)
    requires Enumerates(listing, tree) && StoreTree(tree, m)
    ensures ListsExactly(Somes(EntryIds(listing)), m)
  {
    var ids := EntryIds(listing);
    forall i, j | 0 <= i < j < |ids| && ids[i].Some? ensures ids[i] != ids[j] {
      if ids[i] == ids[j] {
        StoredFile(tree, m, listing[i].path, ids[i].value);
        StoredFile(tree, m, listing[j].path, ids[j].value);
      }
    }
    SomesDistinct(ids);
    forall id | id in Somes(ids) ensures id.Valid() && id.digest in m {
      ListedIds(listing, tree, id);
      var p :| p in tree && IdOf(p) == Some(id);
      StoredFile(tree, m, p, id);
    }
    forall d | d in m ensures FromDigest(d) in Somes(ids) {
      IdOfFinal(d);
      ListedIds(listing, tree, FromDigest(d));
    }
  }

  /** On any tree the result holds an id for every file that stands for one, and nothing else; on a tree
      written by the store it lists the stored ids without repeats. */
  method ListAllChunkIds(listing: seq<Entry>, ghost tree: Tree, ghost m: map<Digest, Bytes>)
    returns (result: seq<ChunkId>)
    requires Enumerates(listing, tree)
    ensures forall id :: id in result <==> exists p :: p in tree && IdOf(p) == Some(id)
    ensures StoreTree(tree, m) ==> ListsExactly(result, m)
  {
    result := [];
    ghost var ids := EntryIds(listing);
    for k := 0 to |listing|
      invariant result == Somes(ids[..k])
    {
      assert ids[..k + 1][..k] == ids[..k];
      if IsChunkEntry(listing[k]) {
        var path := listing[k].path;
        var hex := Stem(path[|path| - 1]);
        var parsed := Parse(hex);
        if parsed.Ok? {
          ParseIsParsed(hex, parsed.value);
          result := result + [parsed.value];
        }
      }
    }
    assert ids[..|listing|] == ids;
    forall id ensures id in result <==> exists p :: p in tree && IdOf(p) == Some(id) {
      ListedIds(listing, tree, id);
    }
    if StoreTree(tree, m) {
      ListingExact(listing, tree, m);
    }
  }

  // ---------------------------------------------------------------------------------------------
  // Recovery after a crash of the step machine

  /** The tree a state of the step machine stands for; temporary files may hold anything. */
  ghost predicate TreeOf(tree: Tree, s: State)
  {
    && (forall d :: d in s.chunks ==> FinalPath(d) in tree && tree[FinalPath(d)] == s.chunks[d].content)
    && (forall p :: p in tree ==> IsTemp(p) || exists d :: d in s.chunks && p == FinalPath(d))
  }

  lemma MachineTree(tree: Tree, s: State)
    requires TreeOf(tree, s)
    ensures StoreTree(tree, Contents(s))
  {
    forall p | p in tree ensures IsTemp(p) || IsFinal(p, tree, Contents(s)) {
      if !IsTemp(p) {
        var d :| d in s.chunks && p == FinalPath(d);
        assert d in Contents(s);
      }
    }
  }

  /** Restart: whatever tree a crash has left, the scan of the new process finds exactly the surviving
      chunks, and so sets the counters the step machine restarts with. */
  lemma RestartRecovers(cfg: Config, s: State, a: Action, tree: Tree)
    requires Inv(cfg.h, s) && Enabled(cfg, s, a) && a.Crash? && TreeOf(tree, Apply(cfg, s, a))
    ensures var s' := Apply(cfg, s, a);
      && StoreTree(tree, a.image)
      && s'.count == Wrap64(|ChunkFiles(tree)|) && s'.bytes == Wrap64(TotalSize(ChunkFiles(tree)))
  {
    var s' := Apply(cfg, s, a);
    assert Contents(s') == a.image;
    MachineTree(tree, s');
    ChunkFilesAreChunks(tree, a.image);
  }

  // ---------------------------------------------------------------------------------------------
  // The chunks in a tree that may also hold anything else

  /** `m` is what lies at the final paths; other files do not matter. */
  ghost predicate Mirrors(tree: Tree, m: map<Digest, Bytes>)
  {
    forall d: Digest :: (d in m <==> FinalPath(d) in tree) && (d in m ==> m[d] == tree[FinalPath(d)])
  }

  ghost function FinalIds(tree: Tree): set<Digest>
  {
    set p | p in tree && IdOf(p).Some? && p == FinalPath(IdOf(p).value.digest) :: IdOf(p).value.digest
  }

  /** Every tree holds some map of chunks. */
  ghost function ChunksIn(tree: Tree): (m: map<Digest, Bytes>)
    ensures Mirrors(tree, m)
  {
    var m := map d | d in FinalIds(tree) :: tree[FinalPath(d)];
    assert Mirrors(tree, m) by {
      forall d: Digest | FinalPath(d) in tree ensures d in FinalIds(tree) {
        IdOfFinal(d);
      }
    }
    m
  }

  lemma MirrorsOne(tree: Tree, m: map<Digest, Bytes>, m': map<Digest, Bytes>)
    requires Mirrors(tree, m) && Mirrors(tree, m')
    ensures m == m'
  {
    assert forall d: Digest :: d in m <==> d in m';
  }

  lemma StoreTreeMirrors(tree: Tree, m: map<Digest, Bytes>)
    requires StoreTree(tree, m)
    ensures Mirrors(tree, m)
  {
    forall d: Digest ensures (d in m <==> FinalPath(d) in tree) && (d in m ==> m[d] == tree[FinalPath(d)]) {
      FinalInTree(tree, m, d);
    }
  }

  /** Opening a tree that only the store has written finds its chunks, one file each. */
  lemma OpensStoreTree(tree: Tree, m: map<Digest, Bytes>)
    requires StoreTree(tree, m)
    ensures ChunksIn(tree) == m && |ChunkFiles(tree)| == |m| && TotalSize(ChunkFiles(tree)) == TotalSize(m)
  {
    StoreTreeMirrors(tree, m);
    MirrorsOne(tree, m, ChunksIn(tree));
    ChunkFilesAreChunks(tree, m);
  }

  lemma MirrorsTemp(tree: Tree, m: map<Digest, Bytes>, d: Digest, uuid: string, content: Bytes)
    requires Mirrors(tree, m) && IsUuid(uuid)
    ensures Mirrors(tree[TempPath(d, uuid) := content], m) && Mirrors(tree - {TempPath(d, uuid)}, m)
  {
    TempPathShape(d, uuid);
  }

  lemma MirrorsRename(tree: Tree, m: map<Digest, Bytes>, d: Digest, uuid: string)
    requires Mirrors(tree, m) && IsUuid(uuid) && TempPath(d, uuid) in tree
    ensures var b := tree[TempPath(d, uuid)];
      Mirrors((tree - {TempPath(d, uuid)})[FinalPath(d) := b], m[d := b])
  {
    TempPathShape(d, uuid);
    forall e: Digest ensures FinalPath(e) == FinalPath(d) ==> e == d {
      FinalPathInjective(e, d);
    }
  }

  lemma MirrorsRemove(tree: Tree, m: map<Digest, Bytes>, d: Digest)
    requires Mirrors(tree, m)
    ensures Mirrors(tree - {FinalPath(d)}, m - {d})
  {
    forall e: Digest ensures FinalPath(e) == FinalPath(d) ==> e == d {
      FinalPathInjective(e, d);
    }
  }

  // ---------------------------------------------------------------------------------------------
  // The class

  datatype PutIo = PutIo(probeOk: bool, makeDirOk: bool, openOk: bool, uuid: string, writeOk: bool, written: nat,
                         syncOk: bool, renameOk: bool, cleanOk: bool)

  function PutFault(io: PutIo, data: Bytes): A.Fault
  {
    A.Fault(!io.probeOk, !(io.makeDirOk && io.openOk && (data == [] || io.writeOk) && io.syncOk && io.renameOk))
  }

  function GetFault(m: map<Digest, Bytes>, d: Digest, statOk: bool, openOk: bool, readOk: bool): A.Fault
  {
    A.Fault(!statOk, !openOk || (!readOk && d in m && m[d] != []))
  }

  class LocalDiskChunkStore {
    const h: HashFn
    var tree: Tree
    var chunkCount: nat
    var bytesUsed: nat
    ghost var contents: map<Digest, Bytes>

    ghost predicate Valid() reads this { Mirrors(tree, contents) }

    /** Nobody but this store has written below the data root. */
    ghost predicate Pure() reads this { StoreTree(tree, contents) }

    /** The bytes on disk hash to the id. */
    ghost predicate Intact(d: Digest) reads this { d in contents && h(contents[d]) == d }

    /** Opening any data root counts its `.chunk` files, wherever they lie; in a root that only this store
        has written they are its chunks. */
    constructor (h: HashFn, tree: Tree, listing: seq<Entry>)
      requires Enumerates(listing, tree)
      ensures Valid() && this.h == h && this.tree == tree
      ensures chunkCount == Wrap64(|ChunkFiles(tree)|) && bytesUsed == Wrap64(TotalSize(ChunkFiles(tree)))
      ensures forall m :: StoreTree(tree, m) ==>
        contents == m && Pure() && chunkCount == Wrap64(|m|) && bytesUsed == Wrap64(TotalSize(m))
    {
      var count, bytes := Scan(listing, tree);
      this.h := h;
      this.tree := tree;
      chunkCount, bytesUsed := count, bytes;
      contents := ChunksIn(tree);
      forall m | StoreTree(tree, m) ensures ChunksIn(tree) == m && |ChunkFiles(tree)| == |m| && TotalSize(ChunkFiles(tree)) == TotalSize(m) {
        OpensStoreTree(tree, m);
      }
    }

    method Put(id: ChunkId, data: Bytes, io: PutIo) returns (r: A.Reply)
      requires Valid() && id.Valid() && IsUuid(io.uuid) && TempPath(id.digest, io.uuid) !in tree
      modifies this
      ensures Valid() && (old(Pure()) ==> Pure())
      ensures A.Effect(contents, r) == A.Atomic(h, old(contents), A.Put(id.digest, data), PutFault(io, data))
      ensures var wrote := r.Done? && !(io.probeOk && id.digest in old(contents));
        && chunkCount == (if wrote then Wrap64(old(chunkCount) + 1) else old(chunkCount))
        && bytesUsed == (if wrote then Wrap64(old(bytesUsed) + |data|) else old(bytesUsed))
        && (wrote ==> tree == old(tree)[FinalPath(id.digest) := data])
        && (!wrote && (r.Done? || io.cleanOk) ==> tree == old(tree))
    {
      if h(data) != id.digest { return A.Failed(A.ChecksumMismatch); }
      var found := Exists(id, io.probeOk);
      if found { return A.Done; }
      r := Store(id, data, io);
    }

    /** Everything after the existence probe: the shard directory, the temporary file, the rename, the counters. */
    method Store(id: ChunkId, data: Bytes, io: PutIo) returns (r: A.Reply)
      requires Valid() && IsUuid(io.uuid) && TempPath(id.digest, io.uuid) !in tree
      modifies this
      ensures Valid() && (old(Pure()) ==> Pure())
      ensures r == if PutFault(io, data).io then A.Failed(A.IoError) else A.Done
      ensures contents == if r.Done? then old(contents)[id.digest := data] else old(contents)
      ensures chunkCount == (if r.Done? then Wrap64(old(chunkCount) + 1) else old(chunkCount))
      ensures bytesUsed == (if r.Done? then Wrap64(old(bytesUsed) + |data|) else old(bytesUsed))
      ensures r.Done? ==> tree == old(tree)[FinalPath(id.digest) := data]
      ensures !r.Done? && io.cleanOk ==> tree == old(tree)
    {
      if !io.makeDirOk { return A.Failed(A.IoError); }
      var written := WriteTemp(id, data, io);
      if !written { return A.Failed(A.IoError); }
      if !io.renameOk {
        RemoveTemp(id, io.uuid, io.cleanOk);
        return A.Failed(A.IoError);
      }
      Publish(id, data, io.uuid);
      r := A.Done;
    }

    /** Rename the temporary file to its final path, then count it. */
    method Publish(id: ChunkId, data: Bytes, uuid: string)
      requires Valid() && IsUuid(uuid) && TempPath(id.digest, uuid) in tree && tree[TempPath(id.digest, uuid)] == data
      modifies this
      ensures Valid() && (old(Pure()) ==> Pure()) && contents == old(contents)[id.digest := data]
      ensures chunkCount == Wrap64(old(chunkCount) + 1) && bytesUsed == Wrap64(old(bytesUsed) + |data|)
      ensures tree == (old(tree) - {TempPath(id.digest, uuid)})[FinalPath(id.digest) := data]
    {
      var tmp := TempPath(id.digest, uuid);
      MirrorsRename(tree, contents, id.digest, uuid);
      if Pure() { RenamedTree(tree, contents, id.digest, uuid); }
      tree := (tree - {tmp})[FinalPath(id.digest) := tree[tmp]];
      contents := contents[id.digest := data];
      chunkCount := Wrap64(chunkCount + 1);
      bytesUsed := Wrap64(bytesUsed + |data|);
    }

    /** Open, write and fsync the temporary file; clean up on failure. */
    method WriteTemp(id: ChunkId, data: Bytes, io: PutIo) returns (ok: bool)
      requires Valid() && IsUuid(io.uuid) && TempPath(id.digest, io.uuid) !in tree
      modifies this`tree
      ensures Valid() && (old(Pure()) ==> Pure()) && (ok <==> io.openOk && (data == [] || io.writeOk) && io.syncOk)
      ensures ok ==> tree == old(tree)[TempPath(id.digest, io.uuid) := data]
      ensures !ok && io.cleanOk ==> tree == old(tree)
    {
      if !io.openOk { return false; }
      var tmp := TempPath(id.digest, io.uuid);
      var n := if data == [] || io.writeOk || io.written > |data| then |data| else io.written;
      MirrorsTemp(tree, contents, id.digest, io.uuid, data[..n]);
      if Pure() { TempTree(tree, contents, id.digest, io.uuid, data[..n]); }
      tree := tree[tmp := data[..n]];
      if (data != [] && !io.writeOk) || !io.syncOk {
        RemoveTemp(id, io.uuid, io.cleanOk);
        return false;
      }
      assert data[..n] == data;
      ok := true;
    }

    method RemoveTemp(id: ChunkId, uuid: string, ok: bool)
      requires Valid() && IsUuid(uuid)
      modifies this`tree
      ensures Valid() && (old(Pure()) ==> Pure())
      ensures tree == if ok then old(tree) - {TempPath(id.digest, uuid)} else old(tree)
    {
      if ok {
        MirrorsTemp(tree, contents, id.digest, uuid, []);
        if Pure() { TempTree(tree, contents, id.digest, uuid, []); }
        tree := tree - {TempPath(id.digest, uuid)};
      }
    }

    method Exists(id: ChunkId, probeOk: bool) returns (found: bool)
      requires Valid() && id.Valid()
      ensures A.Flag(found) == A.Atomic(h, contents, A.Exists(id.digest), A.Fault(!probeOk, false)).reply
    {
      found := probeOk && FinalPath(id.digest) in tree;
    }

    method Get(id: ChunkId, statOk: bool, openOk: bool, readOk: bool) returns (r: A.Reply)
      requires Valid() && id.Valid()
      ensures r == A.Atomic(h, contents, A.Get(id.digest), GetFault(contents, id.digest, statOk, openOk, readOk)).reply
      ensures r.Payload? ==> h(r.bytes) == id.digest && id.digest in contents && r.bytes == contents[id.digest]
    {
      var final := FinalPath(id.digest);
      if !statOk || final !in tree { return A.Failed(A.NotFound); }
      if !openOk { return A.Failed(A.IoError); }
      if |tree[final]| > 0 && !readOk { return A.Failed(A.IoError); }
      if h(tree[final]) != id.digest { return A.Failed(A.CorruptionDetected); }
      r := A.Payload(tree[final]);
    }

    method VerifyOnly(id: ChunkId, statOk: bool, openOk: bool, readOk: bool) returns (r: A.Reply)
      requires Valid() && id.Valid()
      ensures r.Done? || r.Failed?
      ensures r == A.Failed(A.NotFound) <==> !statOk || id.digest !in contents
      ensures r == A.Failed(A.IoError) <==>
        statOk && id.digest in contents && (!openOk || (!readOk && contents[id.digest] != []))
      ensures r == A.Failed(A.CorruptionDetected) <==>
        statOk && openOk && id.digest in contents && (readOk || contents[id.digest] == []) && !Intact(id.digest)
      ensures r == A.Done <==> statOk && openOk && Intact(id.digest) && (readOk || contents[id.digest] == [])
    {
      var got := Get(id, statOk, openOk, readOk);
      r := if got.Payload? then A.Done else got;
    }

    method Delete(id: ChunkId, statOk: bool, removeOk: bool) returns (r: A.Reply)
      requires Valid() && id.Valid()
      modifies this
      ensures Valid() && (old(Pure()) ==> Pure())
      ensures A.Effect(contents, r) == A.Atomic(h, old(contents), A.Delete(id.digest), A.Fault(!statOk, !removeOk))
      ensures var gone := statOk && removeOk && id.digest in old(contents);
        && chunkCount == (if gone then Wrap64(old(chunkCount) - 1) else old(chunkCount))
        && bytesUsed == (if gone then Wrap64(old(bytesUsed) - |old(contents)[id.digest]|) else old(bytesUsed))
        && tree == (if gone then old(tree) - {FinalPath(id.digest)} else old(tree))
    {
      var final := FinalPath(id.digest);
      if !statOk || final !in tree { return A.Done; }
      var size := |tree[final]|;
      if !removeOk { return A.Failed(A.IoError); }
      MirrorsRemove(tree, contents, id.digest);
      if Pure() { RemovedTree(tree, contents, id.digest); }
      tree := tree - {final};
      contents := contents - {id.digest};
      chunkCount := Wrap64(chunkCount - 1);
      bytesUsed := Wrap64(bytesUsed - size);
      r := A.Done;
    }
  }
}
