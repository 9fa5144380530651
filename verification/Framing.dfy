/** Cutting a chunk into stream frames and putting it together again. */
module Framing {
  import opened Prelude

  /** 256 KiB */
  const FRAME_SIZE: nat := 262144

  function Min(a: nat, b: nat): nat { if a < b then a else b }

  function Concat(frames: seq<Bytes>): Bytes
  {
    if frames == [] then [] else Concat(frames[..|frames| - 1]) + frames[|frames| - 1]
  }

  function FrameCount(n: nat): nat { (n + 262143) / 262144 }

  function FrameAt(data: Bytes, i: nat): Bytes
    requires i < FrameCount(|data|)
  {
    data[i * 262144..Min((i + 1) * 262144, |data|)]
  }

  /** The frames of an unbroken stream. */
  function Frames(data: Bytes): (frames: seq<Bytes>)
    ensures |frames| == FrameCount(|data|)
  {
    seq(FrameCount(|data|), i requires 0 <= i < FrameCount(|data|) => FrameAt(data, i))
  }

  /** The write loop of GetChunk. `accepted` is how many frames the peer takes before the stream breaks. */
  method WriteFrames(data: Bytes, accepted: nat) returns (sent: seq<Bytes>)
    ensures sent == Frames(data)[..Min(accepted, FrameCount(|data|))]
  {
    sent := [];
    var offset := 0;
    while offset < |data|
      invariant |sent| <= accepted && |sent| <= FrameCount(|data|)
      invariant offset == Min(|sent| * 262144, |data|)
      invariant sent == Frames(data)[..|sent|]
      decreases |data| - offset
    {
      var size := if |data| - offset < FRAME_SIZE then |data| - offset else FRAME_SIZE;
      if |sent| == accepted { break; }
      assert data[offset..offset + size] == FrameAt(data, |sent|);
      sent := sent + [data[offset..offset + size]];
      offset := offset + size;
    }
  }

  /** All frames are non-empty, and all but possibly the last are full. */
  lemma FrameShape(data: Bytes, i: nat)
    requires i < FrameCount(|data|)
    ensures 0 < |Frames(data)[i]| <= FRAME_SIZE
    ensures i + 1 < FrameCount(|data|) ==> |Frames(data)[i]| == FRAME_SIZE
  {
  }

  lemma {:induction false} FramePrefix(data: Bytes, k: nat)
    requires k <= FrameCount(|data|)
    ensures Concat(Frames(data)[..k]) == data[..Min(k * 262144, |data|)]
    decreases k
  {
    if k > 0 {
      FramePrefix(data, k - 1);
      assert Frames(data)[..k][..k - 1] == Frames(data)[..k - 1];
      assert data[..Min((k - 1) * 262144, |data|)] + FrameAt(data, k - 1) == data[..Min(k * 262144, |data|)];
    }
  }

  /** Reassembling an unbroken stream gives the chunk back; a broken one gives a prefix. */
  lemma FramingRoundTrip(data: Bytes, accepted: nat)
    ensures Concat(Frames(data)) == data
    ensures Concat(Frames(data)[..Min(accepted, FrameCount(|data|))]) <= data
  {
    FramePrefix(data, FrameCount(|data|));
    FramePrefix(data, Min(accepted, FrameCount(|data|)));
    assert Frames(data)[..FrameCount(|data|)] == Frames(data);
  }
}
