/** Where chunks live: shard directories, final and temporary names, and the directory scans that
    find them again. */
module DiskLayout {
  import opened Prelude
  import opened Sums
  import opened HexCodec
  import opened DiskMachine

  /** A path below the data root, component by component. */
  type Path = seq<string>

  function ShardDir(d: Digest): Path
  {
    var hex := ToHex(d);
    [hex[0..2], hex[2..4]]
  }

  function FinalPath(d: Digest): Path { ShardDir(d) + [ToHex(d) + ".chunk"] }

  function TempPath(d: Digest, uuid: string): Path { ShardDir(d) + [ToHex(d) + ".tmp." + uuid] }

  // ---------------------------------------------------------------------------------------------
  // std::filesystem::path::extension and stem

  function LastDot(name: string): (i: int)
    ensures -1 <= i < |name|
  {
    if name == [] then -1 else if name[|name| - 1] == '.' then |name| - 1 else LastDot(name[..|name| - 1])
  }

  /** The leading dot of a hidden file, `.` and `..` do not start an extension. */
  function Extension(name: string): string
  {
    if LastDot(name) <= 0 || name == ".." then "" else name[LastDot(name)..]
  }

  function Stem(name: string): string
  {
    if LastDot(name) <= 0 || name == ".." then name else name[..LastDot(name)]
  }

  predicate DotFree(s: string) { forall i :: 0 <= i < |s| ==> s[i] != '.' }

  lemma {:induction false} LastDotAt(a: string, b: string)
    requires DotFree(b)
    ensures LastDot(a + "." + b) == |a|
    decreases |b|
  {
    var s := a + "." + b;
    if b != [] {
      LastDotAt(a, b[..|b| - 1]);
      assert s[..|s| - 1] == a + "." + b[..|b| - 1];
    }
  }

  /** Final names have the extension the scans look for, and their stem is the id. */
  lemma FinalNameShape(hex: string)
    requires |hex| == 64
    ensures Extension(hex + ".chunk") == ".chunk" && Stem(hex + ".chunk") == hex
  {
    assert hex + ".chunk" == hex + "." + "chunk";
    LastDotAt(hex, "chunk");
  }

  /** Temporary names never have it, whatever the UUID. */
  lemma TempNameShape(hex: string, uuid: string)
    requires |hex| == 64 && IsUuid(uuid)
    ensures Extension(hex + ".tmp." + uuid) != ".chunk"
  {
    var s := hex + ".tmp." + uuid;
    assert s == (hex + ".tmp") + "." + uuid;
    LastDotAt(hex + ".tmp", uuid);
    assert |s[LastDot(s)..]| == 37;
  }

  /** Which file names count as chunks: those with something before a final `.chunk`, which is then the stem. */
  lemma ChunkNameShape(name: string)
    ensures Extension(name) == ".chunk" <==> |name| > 6 && name[|name| - 6..] == ".chunk"
    ensures Extension(name) == ".chunk" ==> Stem(name) == name[..|name| - 6]
  {
    if |name| > 6 && name[|name| - 6..] == ".chunk" {
      var a := name[..|name| - 6];
      assert name == a + name[|name| - 6..] == a + "." + "chunk";
      LastDotAt(a, "chunk");
    }
  }

  predicate IsChunkPath(p: Path) { p != [] && Extension(p[|p| - 1]) == ".chunk" }

  lemma HexPair(b: Byte, c: Byte)
    ensures HexDigit(b / 16) == HexDigit(c / 16) && HexDigit(b % 16) == HexDigit(c % 16) <==> b == c
  {
    DigitInverse(b / 16);
    DigitInverse(b % 16);
    DigitInverse(c / 16);
    DigitInverse(c % 16);
  }

  lemma ShardText(d: Digest)
    ensures var p := FinalPath(d); |p| == 3 && |p[0]| == 2 && |p[1]| == 2 && p[0] + p[1] == ToHex(d)[..4]
    ensures ShardDir(d) == [[HexDigit(d[0] / 16), HexDigit(d[0] % 16)], [HexDigit(d[1] / 16), HexDigit(d[1] % 16)]]
  {
    var hex := ToHex(d);
    assert hex[0..2] == [hex[0], hex[1]] && hex[2..4] == [hex[2], hex[3]];
  }

  /** The directories of a chunk are the first four digits of its id, two and two, and two chunks share them
      exactly if the step machine puts them into one shard. */
  lemma ShardsAreDirectories(d: Digest, e: Digest)
    ensures var p := FinalPath(d); |p| == 3 && |p[0]| == 2 && |p[1]| == 2 && p[0] + p[1] == ToHex(d)[..4]
    ensures FinalPath(d)[..2] == FinalPath(e)[..2] <==> ShardOf(d) == ShardOf(e)
  {
    ShardText(d);
    ShardText(e);
    assert FinalPath(d)[..2] == ShardDir(d) && FinalPath(e)[..2] == ShardDir(e);
    HexPair(d[0], e[0]);
    HexPair(d[1], e[1]);
    if ShardDir(d) == ShardDir(e) {
      assert ShardDir(d)[0][0] == ShardDir(e)[0][0] && ShardDir(d)[0][1] == ShardDir(e)[0][1];
      assert ShardDir(d)[1][0] == ShardDir(e)[1][0] && ShardDir(d)[1][1] == ShardDir(e)[1][1];
    }
  }

  /** Final paths are injective in the id, and no final path is a temporary path. */
  lemma FinalPathInjective(d: Digest, e: Digest)
    ensures FinalPath(d) == FinalPath(e) ==> d == e
    ensures IsChunkPath(FinalPath(d))
  {
    FinalNameShape(ToHex(d));
    FinalNameShape(ToHex(e));
    if FinalPath(d) == FinalPath(e) {
      assert FinalPath(d)[2] == FinalPath(e)[2];
      ParsePrinted(d, ToHex(d));
      ParsePrinted(e, ToHex(e));
    }
  }

  lemma TempPathShape(d: Digest, uuid: string)
    requires IsUuid(uuid)
    ensures !IsChunkPath(TempPath(d, uuid))
    ensures forall e: Digest :: FinalPath(e) != TempPath(d, uuid)
  {
    TempNameShape(ToHex(d), uuid);
    forall e: Digest ensures FinalPath(e) != TempPath(d, uuid) {
      FinalPathInjective(e, e);
    }
  }

  /** Different ids or UUIDs have different temporary paths, in the directory the file is to be renamed in. */
  lemma TempPathInjective(d: Digest, uuid: string, e: Digest, uuid': string)
    requires |uuid| == |uuid'|
    ensures TempPath(d, uuid) == TempPath(e, uuid') <==> d == e && uuid == uuid'
    ensures TempPath(d, uuid)[..2] == FinalPath(d)[..2]
  {
    var a, b := ToHex(d) + ".tmp." + uuid, ToHex(e) + ".tmp." + uuid';
    if TempPath(d, uuid) == TempPath(e, uuid') {
      assert TempPath(d, uuid)[2] == a && TempPath(e, uuid')[2] == b;
      assert a[..64] == ToHex(d) && b[..64] == ToHex(e) && a[69..] == uuid && b[69..] == uuid';
      ParsePrinted(d, ToHex(d));
      ParsePrinted(e, ToHex(e));
    }
  }

  // ---------------------------------------------------------------------------------------------
  // Trees written by the store

  /** The regular files below the data root. */
  type Tree = map<Path, Bytes>

  ghost predicate IsTemp(p: Path)
  {
    exists d: Digest, uuid :: IsUuid(uuid) && p == TempPath(d, uuid)
  }

  ghost predicate IsFinal(p: Path, tree: Tree, m: map<Digest, Bytes>)
    requires p in tree
  {
    exists d :: d in m && p == FinalPath(d) && tree[p] == m[d]
  }

  /** The tree holds exactly the chunks `m` at their final paths, and otherwise only temporary files. */
  ghost predicate StoreTree(tree: Tree, m: map<Digest, Bytes>)
  {
    && (forall p :: p in tree ==> IsTemp(p) || IsFinal(p, tree, m))
    && (forall d :: d in m ==> FinalPath(d) in tree && tree[FinalPath(d)] == m[d])
  }

  lemma ChunkPathIsFinal(tree: Tree, m: map<Digest, Bytes>, p: Path) returns (d: Digest)
    requires StoreTree(tree, m) && p in tree && IsChunkPath(p)
    ensures d in m && p == FinalPath(d) && tree[p] == m[d]
  {
    if IsTemp(p) {
      var e: Digest, uuid :| IsUuid(uuid) && p == TempPath(e, uuid);
      TempPathShape(e, uuid);
    }
    d :| d in m && p == FinalPath(d) && tree[p] == m[d];
  }

  lemma FinalInTree(tree: Tree, m: map<Digest, Bytes>, d: Digest)
    requires StoreTree(tree, m)
    ensures FinalPath(d) in tree <==> d in m
  {
    FinalPathInjective(d, d);
    if FinalPath(d) in tree {
      var e := ChunkPathIsFinal(tree, m, FinalPath(d));
      FinalPathInjective(d, e);
    }
  }

  /** The files a scan counts. */
  function ChunkFiles(tree: Tree): Tree
  {
    map p | p in tree && IsChunkPath(p) :: tree[p]
  }

  lemma ChunkFilesWithout(tree: Tree, p: Path)
    ensures ChunkFiles(tree - {p}) == ChunkFiles(tree) - {p}
  {
  }

  lemma NoChunkFiles(tree: Tree)
    requires StoreTree(tree, map[])
    ensures ChunkFiles(tree) == map[]
  {
    forall p | p in tree ensures !IsChunkPath(p) {
      assert IsTemp(p);
      var e: Digest, uuid :| IsUuid(uuid) && p == TempPath(e, uuid);
      TempPathShape(e, uuid);
    }
  }

  /** Taking one chunk out of the map and its file out of the tree. */
  lemma OneChunkLess(tree: Tree, m: map<Digest, Bytes>, d: Digest)
    requires StoreTree(tree, m) && d in m
    ensures var p := FinalPath(d); var files := ChunkFiles(tree);
      && p in files && files[p] == m[d] && ChunkFiles(tree - {p}) == files - {p} && StoreTree(tree - {p}, m - {d})
  {
    FinalPathInjective(d, d);
    RemovedTree(tree, m, d);
    ChunkFilesWithout(tree, FinalPath(d));
  }

  /** They are the stored chunks, one file each, whatever temporary files lie around. */
  lemma {:induction false} ChunkFilesAreChunks(tree: Tree, m: map<Digest, Bytes>)
    requires StoreTree(tree, m)
    ensures |ChunkFiles(tree)| == |m| && TotalSize(ChunkFiles(tree)) == TotalSize(m)
    decreases |m|
  {
    if m == map[] {
      NoChunkFiles(tree);
    } else {
      var d :| d in m;
      OneChunkLess(tree, m, d);
      TotalSizeSplit(m, d);
      TotalSizeSplit(ChunkFiles(tree), FinalPath(d));
      ChunkFilesAreChunks(tree - {FinalPath(d)}, m - {d});
    }
  }

  // ---------------------------------------------------------------------------------------------
  // How the store's file operations change such a tree

  lemma RemovedTree(tree: Tree, m: map<Digest, Bytes>, d: Digest)
    requires StoreTree(tree, m)
    ensures StoreTree(tree - {FinalPath(d)}, m - {d})
  {
    var tree', m' := tree - {FinalPath(d)}, m - {d};
    forall p | p in tree' ensures IsTemp(p) || IsFinal(p, tree', m') {
      if !IsTemp(p) {
        var e :| e in m && p == FinalPath(e) && tree[p] == m[e];
        assert e in m';
      }
    }
    forall e | e in m' ensures FinalPath(e) in tree' && tree'[FinalPath(e)] == m'[e] {
      FinalPathInjective(d, e);
    }
  }

  lemma TempTree(tree: Tree, m: map<Digest, Bytes>, d: Digest, uuid: string, content: Bytes)
    requires StoreTree(tree, m) && IsUuid(uuid)
    ensures StoreTree(tree[TempPath(d, uuid) := content], m)
    ensures StoreTree(tree - {TempPath(d, uuid)}, m)
  {
    var t := TempPath(d, uuid);
    TempPathShape(d, uuid);
    assert IsTemp(t);
    SameFinals(tree, tree[t := content], m, t);
    SameFinals(tree, tree - {t}, m, t);
  }

  /** A tree that differs in a temporary file only holds the same chunks. */
  lemma SameFinals(tree: Tree, tree': Tree, m: map<Digest, Bytes>, t: Path)
    requires StoreTree(tree, m) && IsTemp(t) && forall e: Digest :: FinalPath(e) != t
    requires forall p :: p != t ==> (p in tree' <==> p in tree) && (p in tree ==> tree'[p] == tree[p])
    ensures StoreTree(tree', m)
  {
    forall p | p in tree' ensures IsTemp(p) || IsFinal(p, tree', m) {
      if !IsTemp(p) {
        var e :| e in m && p == FinalPath(e) && tree[p] == m[e];
      }
    }
  }

  lemma RenamedTree(tree: Tree, m: map<Digest, Bytes>, d: Digest, uuid: string)
    requires StoreTree(tree, m) && IsUuid(uuid) && TempPath(d, uuid) in tree
    ensures var b := tree[TempPath(d, uuid)];
      StoreTree((tree - {TempPath(d, uuid)})[FinalPath(d) := b], m[d := b])
  {
    var b := tree[TempPath(d, uuid)];
    var mid := tree - {TempPath(d, uuid)};
    TempTree(tree, m, d, uuid, b);
    var tree', m' := mid[FinalPath(d) := b], m[d := b];
    forall p | p in tree' ensures IsTemp(p) || IsFinal(p, tree', m') {
      if p == FinalPath(d) {
        assert IsFinal(p, tree', m');
      } else if !IsTemp(p) {
        var e :| e in m && p == FinalPath(e) && mid[p] == m[e];
        assert e in m' && m'[e] == m[e];
      }
    }
    forall e | e in m' ensures FinalPath(e) in tree' && tree'[FinalPath(e)] == m'[e] {
      FinalPathInjective(d, e);
    }
  }
}
