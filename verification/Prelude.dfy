/** Vocabulary shared by every component: optional values, results, bytes and machine words. */
module Prelude {

  datatype Option<+T> = None | Some(value: T)

  datatype Result<+T, +E> = Ok(value: T) | Err(error: E)

  /** The number of values of a 64-bit unsigned word (`uint64_t`, and `size_t` on the modelled platform). */
  const U64: int := 0x1_0000_0000_0000_0000

  /** Unsigned 64-bit arithmetic keeps the low 64 bits. */
  function Wrap64(n: int): (w: nat)
    ensures w < U64 && (0 <= n < U64 ==> w == n)
  {
    n % 0x1_0000_0000_0000_0000
  }

  /** Reducing early or late makes no difference. */
  lemma WrapAdd(x: int, d: int)
    ensures Wrap64(Wrap64(x) + d) == Wrap64(x + d)
  {
    var q := x / 0x1_0000_0000_0000_0000;
    assert x + d == q * 0x1_0000_0000_0000_0000 + (Wrap64(x) + d);
  }

  type Byte = b: int | 0 <= b < 256

  type Bytes = seq<Byte>

  /** A SHA-256 digest: 32 bytes. */
  type Digest = d: Bytes | |d| == 32 witness seq(32, _ => 0)

  /** SHA-256 itself is a parameter of the model: any function from bytes to digests.
      Nothing is assumed about it, in particular not that it is injective. */
  type HashFn = Bytes -> Digest
}
