/** Chunk ids: validated text around a digest, and the packed hash that selects a lock stripe. */
module ChunkIds {
  import opened Prelude
  import opened HexCodec
  import DiskMachine

  datatype ParseError = WrongLength | InvalidHexCharacter | NotLowercase

  datatype ChunkId = ChunkId(digest: Digest, hex: string) {
    /** The class invariant: the text is the hex of the digest. */
    predicate Valid() { hex == ToHex(digest) }
  }

  function FromDigest(digest: Digest): (id: ChunkId)
    ensures id.Valid() && id.digest == digest
  {
    ChunkId(digest, ToHex(digest))
  }

  /** `std::isupper` on a character that passed `std::isxdigit`. */
  predicate IsUpperHex(c: char) { 'A' <= c <= 'F' }

  /** The verdict on a text is the verdict on its first character that is not a lowercase hex digit:
      NotLowercase if it is an uppercase one, InvalidHexCharacter if it is no hex digit at all. */
  ghost predicate FirstBad(s: string, e: ParseError)
  {
    exists k :: 0 <= k < |s| && !IsLowerHex(s[k]) && AllLowerHex(s[..k])
      && (e == NotLowercase <==> s[k] in "ABCDEF") && (e == ParseError.InvalidHexCharacter <==> s[k] !in "ABCDEF")
  }

  method Parse(hex: string) returns (r: Result<ChunkId, ParseError>)
    ensures r.Ok? <==> |hex| == 64 && AllLowerHex(hex)
    ensures r.Ok? ==> r.value.Valid() && r.value.hex == hex
    ensures r == Err(WrongLength) <==> |hex| != 64
    ensures r.Err? && |hex| == 64 ==> FirstBad(hex, r.error)
  {
    if |hex| != 64 { return Err(WrongLength); }
    for k := 0 to |hex|
      invariant AllLowerHex(hex[..k])
    {
      if !IsHex(hex[k]) {
        assert !IsLowerHex(hex[k]) && AllLowerHex(hex[..k]);
        return Err(ParseError.InvalidHexCharacter);
      }
      if IsUpperHex(hex[k]) {
        assert !IsLowerHex(hex[k]) && AllLowerHex(hex[..k]);
        return Err(NotLowercase);
      }
    }
    assert hex[..|hex|] == hex;
    PrintParsed(hex);
    var digest := FromHexString(hex);
    if digest.Err? { return Err(ParseError.InvalidHexCharacter); }
    r := Ok(ChunkId(digest.value, hex));
  }

  /** The function Parse computes on success; it is total so that specifications can use it. */
  function Parsed(hex: string): (r: Option<ChunkId>)
    ensures r.Some? <==> |hex| == 64 && AllLowerHex(hex)
    ensures r.Some? ==> r.value.Valid() && r.value.hex == hex
  {
    if |hex| == 64 && AllLowerHex(hex) then
      PrintParsed(hex);
      Some(ChunkId(FromHex(hex).value, hex))
    else None
  }

  /** The contract of Parse determines its result. */
  lemma ParseIsParsed(hex: string, id: ChunkId)
    requires |hex| == 64 && AllLowerHex(hex) && id.Valid() && id.hex == hex
    ensures Parsed(hex) == Some(id)
  {
    SameTextSameDigest(id, Parsed(hex).value);
  }

  /** Parse accepts exactly the texts that the printer can print, and inverts it in both directions. */
  lemma ParseAcceptsExactlyPrinted(hex: string)
    ensures Parsed(hex).Some? <==> exists d: Digest :: hex == ToHex(d)
    ensures Parsed(hex).Some? ==> ToHex(Parsed(hex).value.digest) == hex
  {
    if Parsed(hex).Some? {
      assert hex == ToHex(Parsed(hex).value.digest);
    }
    forall d: Digest | hex == ToHex(d) ensures Parsed(hex).Some? {
      ParsePrinted(d, hex);
    }
  }

  lemma ParseInvertsPrint(d: Digest)
    ensures Parsed(ToHex(d)) == Some(FromDigest(d))
  {
    ParsePrinted(d, ToHex(d));
  }

  lemma SameTextSameDigest(a: ChunkId, b: ChunkId)
    requires a.Valid() && b.Valid()
    ensures a.hex == b.hex <==> a.digest == b.digest
  {
    ParsePrinted(a.digest, a.hex);
    ParsePrinted(b.digest, b.hex);
  }

  /** The defaulted `operator==` compares both fields; on valid ids it is equality of digests. */
  lemma EqualityIsDigestEquality(a: ChunkId, b: ChunkId)
    requires a.Valid() && b.Valid()
    ensures a == b <==> a.digest == b.digest
  {
  }

  // ---------------------------------------------------------------------------------------------
  // The hash functor

  /** `h << 8` on a 64-bit word. */
  function ShiftLeft8(h: nat): nat { Wrap64(h * 256) }

  /** Bitwise or. */
  function BitOr(a: nat, b: nat): nat
  {
    if a == 0 && b == 0 then 0
    else 2 * BitOr(a / 2, b / 2) + (if a % 2 == 1 || b % 2 == 1 then 1 else 0)
  }

  lemma {:induction false} OrZero(a: nat)
    ensures BitOr(a, 0) == a
    decreases a
  {
    if a != 0 {
      OrZero(a / 2);
    }
  }

  function Pow2(k: nat): (p: nat)
    ensures p > 0
  {
    if k == 0 then 1 else 2 * Pow2(k - 1)
  }

  /** Or-ing into cleared low bits is addition. */
  lemma {:induction false} OrIntoClearedBits(a: nat, b: nat, k: nat)
    requires b < Pow2(k)
    ensures BitOr(a * Pow2(k), b) == a * Pow2(k) + b
    decreases k
  {
    if k == 0 {
      OrZero(a);
    } else {
      var x := a * Pow2(k);
      assert x == 2 * (a * Pow2(k - 1));
      OrIntoClearedBits(a, b / 2, k - 1);
    }
  }

  function BigEndian(s: Bytes): nat
  {
    if s == [] then 0 else 256 * BigEndian(s[..|s| - 1]) + s[|s| - 1]
  }

  function Pow256(k: nat): (p: nat)
    ensures p > 0
  {
    if k == 0 then 1 else 256 * Pow256(k - 1)
  }

  lemma {:induction false} BigEndianBound(s: Bytes)
    ensures BigEndian(s) < Pow256(|s|)
    decreases |s|
  {
    if s != [] {
      BigEndianBound(s[..|s| - 1]);
    }
  }

  lemma {:induction false} Pow256Monotone(i: nat, j: nat)
    requires i <= j
    ensures Pow256(i) <= Pow256(j)
    decreases j
  {
    if i < j {
      Pow256Monotone(i, j - 1);
    }
  }

  lemma Pow256Values()
    ensures Pow256(7) == 0x100_0000_0000_0000 && Pow256(8) == U64
  {
    assert Pow256(3) == 0x100_0000;
    assert Pow256(5) == 0x100_0000_0000;
  }

  lemma Pow2Values()
    ensures Pow2(8) == 256
  {
    assert Pow2(4) == 16;
  }

  lemma PackStep(h: nat, b: Byte)
    requires h < 0x100_0000_0000_0000
    ensures BitOr(ShiftLeft8(h), b) == 256 * h + b
  {
    Pow2Values();
    OrIntoClearedBits(h, b, 8);
  }

  lemma PrefixFits(d: Digest, i: nat)
    requires i < 8
    ensures BigEndian(d[..i]) < 0x100_0000_0000_0000
    ensures BigEndian(d[..i + 1]) == 256 * BigEndian(d[..i]) + d[i]
  {
    BigEndianBound(d[..i]);
    Pow256Monotone(i, 7);
    Pow256Values();
    assert d[..i + 1][..i] == d[..i];
  }

  /** Packing one more byte of a prefix: the word has room for it. */
  lemma PackNext(d: Digest, i: nat)
    requires i < 8
    ensures BitOr(ShiftLeft8(BigEndian(d[..i])), d[i]) == BigEndian(d[..i + 1])
  {
    PrefixFits(d, i);
    PackStep(BigEndian(d[..i]), d[i]);
  }

  lemma LowByte(x: nat, b: Byte, w: nat)
    requires x < 0x100_0000_0000_0000 && w == 256 * x + b
    ensures w < U64 && w % 256 == b
  {
  }

  lemma PackedWord(d: Digest)
    ensures BigEndian(d[..8]) < U64 && BigEndian(d[..8]) % 256 == d[7]
  {
    PrefixFits(d, 7);
    LowByte(BigEndian(d[..7]), d[7], BigEndian(d[..8]));
  }

  /** The shift-or loop packs the first eight digest bytes and loses no bit. */
  method HashOf(id: ChunkId) returns (h: nat)
    ensures h == BigEndian(id.digest[..8]) && h < U64
    ensures h % 256 == id.digest[7]
  {
    h := 0;
    for i := 0 to 8
      invariant h == BigEndian(id.digest[..i])
    {
      PackNext(id.digest, i);
      h := BitOr(ShiftLeft8(h), id.digest[i]);
    }
    PackedWord(id.digest);
  }

  const STRIPE_COUNT: nat := 256

  /** LockFor picks a stripe by the packed hash: the eighth digest byte, so always one of the 256 locks,
      and the one the step machine takes. */
  method StripeIndex(id: ChunkId) returns (stripe: nat)
    ensures stripe == id.digest[7] == DiskMachine.Stripe(id.digest) && stripe < STRIPE_COUNT
  {
    var h := HashOf(id);
    stripe := h % STRIPE_COUNT;
  }
}
