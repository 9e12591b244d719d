/**
 * `rgba_to_bgra`: the framebuffer's RGBA pixels copied into the window's
 * buffer as BGRA, by swapping the first and third byte of every 4-byte
 * pixel. Both buffers are seen as bytes, four per pixel.
 */
module Swizzle {
  import opened Numerics

  /** Where byte `i` of a BGRA buffer comes from: red and blue trade places, green and alpha stay. */
  function SourceByte(i: nat): (j: nat)
    ensures j / 4 == i / 4
    ensures i % 4 == 0 ==> j == i + 2
    ensures i % 4 == 2 ==> j == i - 2
    ensures i % 4 == 1 || i % 4 == 3 ==> j == i
  {
    if i % 4 == 0 then i + 2 else if i % 4 == 2 then i - 2 else i
  }

  /** The BGRA bytes of RGBA pixels. */
  function Bgra(src: seq<byte>): (dst: seq<byte>)
    requires |src| % 4 == 0
    ensures |dst| == |src|
    ensures forall p | 0 <= p < |src| / 4 ::
      && dst[4 * p] == src[4 * p + 2]
      && dst[4 * p + 1] == src[4 * p + 1]
      && dst[4 * p + 2] == src[4 * p]
      && dst[4 * p + 3] == src[4 * p + 3]
  {
    seq(|src|, i requires 0 <= i < |src| => src[SourceByte(i)])
  }

  /** A buffer that has every pixel of `src` with red and blue swapped is the BGRA of `src`. */
  lemma BgraPixelwise(src: seq<byte>, dst: seq<byte>)
    requires |src| % 4 == 0 && |dst| == |src|
    requires forall p | 0 <= p < |src| / 4 ::
      && dst[4 * p] == src[4 * p + 2]
      && dst[4 * p + 1] == src[4 * p + 1]
      && dst[4 * p + 2] == src[4 * p]
      && dst[4 * p + 3] == src[4 * p + 3]
    ensures dst == Bgra(src)
  {
    forall k | 0 <= k < |src|
      ensures dst[k] == Bgra(src)[k]
    {
      var p := k / 4;
      assert k == 4 * p + k % 4;
    }
  }

  /** Swizzling twice gives back the original pixels. */
  lemma BgraInvolution(src: seq<byte>)
    requires |src| % 4 == 0
    ensures Bgra(Bgra(src)) == src
  {
    var once := Bgra(src);
    forall i | 0 <= i < |src|
      ensures Bgra(once)[i] == src[i]
    {
      var j := SourceByte(i);
      assert SourceByte(j) == i;
    }
  }

  /**
   * `rgba_to_bgra(dst, src)`: for each pixel of `src`, writes its four
   * bytes into `dst` with red and blue swapped; bytes of `dst` past the
   * end of `src` are left alone.
   */
  method RgbaToBgra(dst: array<byte>, src: array<byte>)
    requires src.Length % 4 == 0 && dst.Length >= src.Length && dst != src
    modifies dst
    ensures dst[..src.Length] == Bgra(src[..])
    ensures dst[src.Length..] == old(dst[src.Length..])
  {
    var n := src.Length / 4;
    var i := 0;
    while i < n
      invariant 0 <= i <= n && 4 * n == src.Length
      invariant forall p | 0 <= p < i ::
        && dst[4 * p] == src[4 * p + 2]
        && dst[4 * p + 1] == src[4 * p + 1]
        && dst[4 * p + 2] == src[4 * p]
        && dst[4 * p + 3] == src[4 * p + 3]
      invariant forall k | src.Length <= k < dst.Length :: dst[k] == old(dst[k])
    {
      dst[i * 4] := src[i * 4 + 2];
      dst[i * 4 + 1] := src[i * 4 + 1];
      dst[i * 4 + 2] := src[i * 4];
      dst[i * 4 + 3] := src[i * 4 + 3];
      i := i + 1;
    }
    BgraPixelwise(src[..], dst[..src.Length]);
  }
}
