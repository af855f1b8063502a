/**
 * RGBA pixels as the demos hand them to the GPU: four unsigned bytes per
 * pixel, red first, alpha last, and pixel buffers laid out by flattening
 * pixels into bytes.
 */
module Pixels {

  /** An unsigned 8-bit value (Rust's `u8`). */
  type Byte = x: int | 0 <= x < 256

  const OPAQUE: Byte := 255

  /** One `[u8; 4]` pixel. */
  datatype Rgba = Rgba(r: Byte, g: Byte, b: Byte, a: Byte)

  /** The red, green and blue channels of a colour without alpha. */
  datatype Rgb = Rgb(red: Byte, green: Byte, blue: Byte)

  /** Opaque black, `[0, 0, 0, 255]`. */
  const BLACK: Rgba := Rgba(0, 0, 0, OPAQUE)

  /** The all-zero pixel `[0; 4]` that fresh textures are filled with. */
  const BLANK: Rgba := Rgba(0, 0, 0, 0)

  /** The four bytes of a pixel, in memory order. */
  function Bytes(p: Rgba): (r: seq<Byte>)
    ensures |r| == 4
    ensures r[0] == p.r && r[1] == p.g && r[2] == p.b && r[3] == p.a
  {
    [p.r, p.g, p.b, p.a]
  }

  /** The byte buffer of a run of pixels: `pixels.iter().flatten()`. */
  function Flatten(ps: seq<Rgba>): seq<Byte>
  {
    if ps == [] then [] else Bytes(ps[0]) + Flatten(ps[1..])
  }

  /** Four bytes per pixel. */
  lemma {:induction false} FlattenLength(ps: seq<Rgba>)
    ensures |Flatten(ps)| == 4 * |ps|
  {
    if ps != [] {
      FlattenLength(ps[1..]);
    }
  }

  /** Byte `k` of pixel `i` sits at offset `4 * i + k`. */
  lemma {:induction false} FlattenAt(ps: seq<Rgba>, i: nat, k: nat)
    requires i < |ps| && k < 4
    ensures |Flatten(ps)| == 4 * |ps|
    ensures Flatten(ps)[4 * i + k] == Bytes(ps[i])[k]
  {
    FlattenLength(ps);
    if i > 0 {
      FlattenAt(ps[1..], i - 1, k);
      assert Flatten(ps)[4 * i + k] == Flatten(ps[1..])[4 * (i - 1) + k];
    }
  }

  /** Pixel `i` occupies bytes `4*i .. 4*i+4`, so the buffer holds four bytes per pixel. */
  lemma FlattenLayout(ps: seq<Rgba>)
    ensures |Flatten(ps)| == 4 * |ps|
    ensures forall i, k :: 0 <= i < |ps| && 0 <= k < 4 ==> Flatten(ps)[4 * i + k] == Bytes(ps[i])[k]
  {
    FlattenLength(ps);
    forall i, k | 0 <= i < |ps| && 0 <= k < 4
      ensures Flatten(ps)[4 * i + k] == Bytes(ps[i])[k]
    {
      FlattenAt(ps, i, k);
    }
  }

  /** Flattening distributes over concatenation of pixel runs. */
  lemma {:induction false} FlattenAppend(xs: seq<Rgba>, ys: seq<Rgba>)
    ensures Flatten(xs + ys) == Flatten(xs) + Flatten(ys)
  {
    if xs == [] {
      assert xs + ys == ys;
    } else {
      assert (xs + ys)[1..] == xs[1..] + ys;
      FlattenAppend(xs[1..], ys);
    }
  }
}
