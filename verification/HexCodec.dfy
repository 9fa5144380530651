/** Digests as text: the printer and the parser of the SHA-256 helper. */
module HexCodec {
  import opened Prelude

  // ---------------------------------------------------------------------------------------------
  // Printing

  function HexDigit(n: nat): char
    requires n < 16
  {
    "0123456789abcdef"[n]
  }

  /** `oss << std::hex << n`: no leading zeros. */
  function HexNumber(n: nat): string
  {
    if n < 16 then [HexDigit(n)] else HexNumber(n / 16) + [HexDigit(n % 16)]
  }

  /** `std::setw(2)` with `std::setfill('0')`. */
  function Pad2(s: string): string
  {
    if |s| == 0 then "00" else if |s| == 1 then "0" + s else s
  }

  lemma PaddedByte(b: Byte)
    ensures Pad2(HexNumber(b)) == [HexDigit(b / 16), HexDigit(b % 16)]
  {
    if b >= 16 {
      assert HexNumber(b / 16) == [HexDigit(b / 16)];
    } else {
      assert HexNumber(b) == [HexDigit(b)];
    }
  }

  /** The text of a byte string: two lowercase digits per byte, high nibble first. */
  function ToHex(d: Bytes): (s: string)
    ensures |s| == 2 * |d|
  {
    seq(2 * |d|, k requires 0 <= k < 2 * |d| =>
      if k % 2 == 0 then HexDigit(d[k / 2] / 16) else HexDigit(d[k / 2] % 16))
  }

  method ToHexString(digest: Digest) returns (s: string)
    ensures s == ToHex(digest) && |s| == 64
  {
    s := "";
    for i := 0 to |digest|
      invariant |s| == 2 * i
      invariant forall k :: 0 <= k < 2 * i ==> s[k] == ToHex(digest)[k]
    {
      PaddedByte(digest[i]);
      s := s + Pad2(HexNumber(digest[i]));
    }
  }

  // ---------------------------------------------------------------------------------------------
  // std::stoi with base 16

  function DigitValue(c: char): Option<nat>
  {
    if '0' <= c <= '9' then Some(c as int - '0' as int)
    else if 'a' <= c <= 'f' then Some(c as int - 'a' as int + 10)
    else if 'A' <= c <= 'F' then Some(c as int - 'A' as int + 10)
    else None
  }

  predicate IsHex(c: char) { DigitValue(c).Some? }

  predicate IsSpace(c: char) { c as int == 32 || 9 <= c as int <= 13 }

  function SkipSpaces(s: string, i: nat): (j: nat)
    requires i <= |s|
    ensures i <= j <= |s|
    decreases |s| - i
  {
    if i < |s| && IsSpace(s[i]) then SkipSpaces(s, i + 1) else i
  }

  function SkipDigits(s: string, i: nat): (j: nat)
    requires i <= |s|
    ensures i <= j <= |s|
    ensures forall k :: i <= k < j ==> IsHex(s[k])
    decreases |s| - i
  {
    if i < |s| && IsHex(s[i]) then SkipDigits(s, i + 1) else i
  }

  function Digit(c: char): nat { if IsHex(c) then DigitValue(c).value else 0 }

  function Value(digits: string): nat
  {
    if digits == [] then 0 else 16 * Value(digits[..|digits| - 1]) + Digit(digits[|digits| - 1])
  }

  datatype Scanned = Scanned(value: int, pos: nat)

  /** White space, a sign, an optional `0x` that is followed by a digit, then digits. `None` is the
      exception for "no digits"; strings of two characters cannot overflow an `int`. */
  function Stoi16(s: string): Option<Scanned>
  {
    var i := SkipSpaces(s, 0);
    var signed := i < |s| && (s[i] == '+' || s[i] == '-');
    var j := if signed then i + 1 else i;
    var k := if j + 2 < |s| && s[j] == '0' && (s[j + 1] == 'x' || s[j + 1] == 'X') && IsHex(s[j + 2]) then j + 2 else j;
    var end := SkipDigits(s, k);
    if end == k then None
    else
      var v := Value(s[k..end]);
      Some(Scanned(if signed && s[i] == '-' then 0 - v else v, end))
  }

  /** `static_cast<std::byte>(int)`. */
  function CastByte(n: int): Byte { n % 256 }

  /** The byte that a pair of characters stands for, if the parser takes it: two hex digits of either
      case, or one digit after a blank or a sign. */
  function PairByte(a: char, b: char): Option<Byte>
  {
    if !IsHex(b) then None
    else if IsHex(a) then Some(CastByte(16 * Digit(a) + Digit(b)))
    else if IsSpace(a) || a == '+' then Some(Digit(b) % 256)
    else if a == '-' then Some(CastByte(0 - Digit(b)))
    else None
  }

  /** That is what `stoi` on two characters, with the test `pos == 2`, amounts to. */
  lemma StoiOnPairs(a: char, b: char)
    ensures var p := Stoi16([a, b]);
      && (PairByte(a, b).Some? <==> p.Some? && p.value.pos == 2)
      && (PairByte(a, b).Some? ==> PairByte(a, b).value == CastByte(p.value.value))
  {
    var s := [a, b];
    assert SkipSpaces(s, 2) == 2 && SkipDigits(s, 2) == 2;
    assert SkipSpaces(s, 1) == if IsSpace(b) then 2 else 1;
    assert SkipDigits(s, 1) == if IsHex(b) then 2 else 1;
    assert SkipSpaces(s, 0) == if IsSpace(a) then SkipSpaces(s, 1) else 0;
    assert SkipDigits(s, 0) == if IsHex(a) then SkipDigits(s, 1) else 0;
    assert Value([a]) == Digit(a) by { assert [a][..0] == []; }
    assert Value([b]) == Digit(b) by { assert [b][..0] == []; }
    assert s[0..2] == s && s[..1] == [a] && s[1..2] == [b];
    assert Value(s) == 16 * Value([a]) + Digit(b);
  }

  // ---------------------------------------------------------------------------------------------
  // Parsing

  datatype HashError = InvalidHexLength | InvalidHexCharacter

  function PairAt(hex: string, i: nat): Option<Byte>
    requires 2 * i + 1 < |hex|
  {
    PairByte(hex[2 * i], hex[2 * i + 1])
  }

  predicate PairsOk(hex: string)
    requires |hex| == 64
  {
    forall i :: 0 <= i < 32 ==> PairAt(hex, i).Some?
  }

  function FromHex(hex: string): Result<Digest, HashError>
  {
    if |hex| != 64 then Err(InvalidHexLength)
    else if !PairsOk(hex) then Err(InvalidHexCharacter)
    else Ok(seq(32, i requires 0 <= i < 32 => if PairAt(hex, i).Some? then PairAt(hex, i).value else 0))
  }

  method FromHexString(hex: string) returns (r: Result<Digest, HashError>)
    ensures r == FromHex(hex)
  {
    if |hex| != 64 { return Err(InvalidHexLength); }
    var digest: Bytes := [];
    for i := 0 to 32
      invariant |digest| == i
      invariant forall k :: 0 <= k < i ==> PairAt(hex, k) == Some(digest[k])
    {
      var byteStr := hex[2 * i..2 * i + 2];
      assert byteStr == [hex[2 * i], hex[2 * i + 1]];
      StoiOnPairs(hex[2 * i], hex[2 * i + 1]);
      var parsed := Stoi16(byteStr);
      if parsed.None? || parsed.value.pos != 2 {
        assert PairAt(hex, i).None?;
        return Err(InvalidHexCharacter);
      }
      digest := digest + [CastByte(parsed.value.value)];
    }
    assert FromHex(hex).Ok? && digest == FromHex(hex).value;
    r := Ok(digest);
  }

  predicate IsLowerHex(c: char) { '0' <= c <= '9' || 'a' <= c <= 'f' }

  predicate AllLowerHex(s: string) { forall k :: 0 <= k < |s| ==> IsLowerHex(s[k]) }

  /** The digits, and the value of each in either case. */
  lemma DigitsAre(n: nat)
    requires n < 16
    ensures HexDigit(n) == "0123456789abcdef"[n]
    ensures DigitValue("0123456789abcdef"[n]) == Some(n) && DigitValue("0123456789ABCDEF"[n]) == Some(n)
  {
  }

  lemma DigitInverse(n: nat)
    requires n < 16
    ensures IsLowerHex(HexDigit(n)) && DigitValue(HexDigit(n)) == Some(n)
  {
  }

  lemma ValueInverse(c: char)
    requires IsLowerHex(c)
    ensures DigitValue(c).Some? && DigitValue(c).value < 16 && HexDigit(DigitValue(c).value) == c
  {
  }

  lemma Nibbles(x: nat, y: nat)
    requires x < 16 && y < 16
    ensures PairByte(HexDigit(x), HexDigit(y)) == Some(16 * x + y)
    ensures (16 * x + y) / 16 == x && (16 * x + y) % 16 == y
  {
    DigitInverse(x);
    DigitInverse(y);
  }

  lemma PrintedByte(b: Byte)
    ensures PairByte(HexDigit(b / 16), HexDigit(b % 16)) == Some(b)
    ensures IsLowerHex(HexDigit(b / 16)) && IsLowerHex(HexDigit(b % 16))
  {
    Nibbles(b / 16, b % 16);
    DigitInverse(b / 16);
    DigitInverse(b % 16);
  }

  /** Where the digits of byte `i` stand. */
  lemma PrintedAt(d: Digest, i: nat, s: string)
    requires i < 32 && s == ToHex(d)
    ensures s[2 * i] == HexDigit(d[i] / 16) && s[2 * i + 1] == HexDigit(d[i] % 16)
  {
    assert (2 * i) / 2 == i && (2 * i + 1) / 2 == i;
  }

  lemma PrintedPair(d: Digest, i: nat, s: string)
    requires i < 32 && s == ToHex(d)
    ensures PairAt(s, i) == Some(d[i])
    ensures IsLowerHex(s[2 * i]) && IsLowerHex(s[2 * i + 1])
  {
    PrintedAt(d, i, s);
    PrintedByte(d[i]);
  }

  lemma PrintedIsLower(d: Digest, s: string)
    requires s == ToHex(d)
    ensures AllLowerHex(s)
  {
    forall k | 0 <= k < 64 ensures IsLowerHex(s[k]) {
      PrintedPair(d, k / 2, s);
    }
  }

  /** Printing then parsing gives the digest back. */
  lemma ParsePrinted(d: Digest, s: string)
    requires s == ToHex(d)
    ensures AllLowerHex(s) && FromHex(s) == Ok(d)
  {
    PrintedIsLower(d, s);
    forall i | 0 <= i < 32 ensures PairAt(s, i) == Some(d[i]) {
      PrintedPair(d, i, s);
    }
    assert FromHex(s).value == d;
  }

  lemma ParsedPair(s: string, i: nat)
    requires |s| == 64 && AllLowerHex(s) && i < 32
    ensures PairAt(s, i).Some?
    ensures var b := PairAt(s, i).value; HexDigit(b / 16) == s[2 * i] && HexDigit(b % 16) == s[2 * i + 1]
  {
    ValueInverse(s[2 * i]);
    ValueInverse(s[2 * i + 1]);
    Nibbles(Digit(s[2 * i]), Digit(s[2 * i + 1]));
  }

  /** Parsing then printing gives the text back, if it was lowercase hex. */
  lemma PrintParsed(s: string)
    requires |s| == 64 && AllLowerHex(s)
    ensures FromHex(s).Ok? && ToHex(FromHex(s).value) == s
  {
    forall i | 0 <= i < 32 ensures PairAt(s, i).Some? {
      ParsedPair(s, i);
    }
    var d := FromHex(s).value;
    forall k | 0 <= k < 64 ensures ToHex(d)[k] == s[k] {
      ParsedPair(s, k / 2);
    }
  }

  /** The parser alone is looser than the printer: it survives the round trip exactly on lowercase hex. */
  lemma LooseParser(s: string)
    requires |s| == 64
    ensures (FromHex(s).Ok? && ToHex(FromHex(s).value) == s) <==> AllLowerHex(s)
  {
    if AllLowerHex(s) {
      PrintParsed(s);
    } else if FromHex(s).Ok? {
      ParsePrinted(FromHex(s).value, ToHex(FromHex(s).value));
    }
  }

  /** For example, 32 times "+1" is accepted although nothing prints it. */
  lemma PlusOneIsAccepted(s: string)
    requires |s| == 64 && forall k :: 0 <= k < 64 ==> s[k] == if k % 2 == 0 then '+' else '1'
    ensures FromHex(s).Ok? && ToHex(FromHex(s).value) != s
  {
    assert forall i :: 0 <= i < 32 ==> PairAt(s, i).Some?;
    assert !IsLowerHex(s[0]);
    LooseParser(s);
  }
}
