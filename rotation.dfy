/**
 * The pixel-grid textures of the rotation demo: a texture is a list of rows
 * of RGBA pixels. The demo cuts random squares out of an image, rotates
 * each a quarter turn and paints it back in place, ten times.
 */
module Rotation {
  import opened Pixels

  /** `VecTexture`: rows of pixels, row 0 at the top. Rows may differ in length. */
  type Texture = seq<seq<Rgba>>

  /** A rectangle `(x, y, width, height)`. */
  type Rect = (nat, nat, nat, nat)

  /** Every one of the `h` rows holds `w` pixels. */
  ghost predicate Rectangular(t: Texture, w: nat, h: nat)
  {
    |t| == h && forall y :: 0 <= y < |t| ==> |t[y]| == w
  }

  /** `size`: (length of the first row, number of rows); the first row must exist. */
  function Size(t: Texture): (nat, nat)
    requires |t| > 0
  {
    (|t[0]|, |t|)
  }

  /** On a non-empty rectangular texture, `size` reports its width and height. */
  lemma SizeOfRectangular(t: Texture, w: nat, h: nat)
    requires Rectangular(t, w, h) && h > 0
    ensures Size(t) == (w, h)
  {
  }

  // ---------------------------------------------------------------------
  // inline: the row-major byte buffer

  /** All pixels, row after row. */
  function Join(t: Texture): seq<Rgba>
  {
    if t == [] then [] else t[0] + Join(t[1..])
  }

  lemma {:induction false} JoinLength(t: Texture, w: nat)
    requires Rectangular(t, w, |t|)
    ensures |Join(t)| == |t| * w
  {
    if t != [] {
      JoinLength(t[1..], w);
      assert (|t| - 1) * w + w == |t| * w;
    }
  }

  /** In a rectangular texture, pixel `(x, y)` is the `y * w + x`-th pixel of the joined rows. */
  lemma {:induction false} JoinAt(t: Texture, w: nat, x: nat, y: nat)
    requires Rectangular(t, w, |t|) && x < w && y < |t|
    ensures y * w + x < |Join(t)| && Join(t)[y * w + x] == t[y][x]
  {
    JoinLength(t, w);
    if y > 0 {
      JoinAt(t[1..], w, x, y - 1);
      assert (y - 1) * w + x + w == y * w + x;
      assert Join(t)[y * w + x] == Join(t[1..])[(y - 1) * w + x];
    }
  }

  /** `inline`: the bytes of all pixels, row-major, four per pixel. */
  function Inline(t: Texture): seq<Byte>
  {
    Flatten(Join(t))
  }

  /** `inline` is the per-row `flat_map`: the first row's bytes, then the bytes of the remaining rows. */
  lemma InlineRowByRow(t: Texture)
    requires t != []
    ensures Inline(t) == Flatten(t[0]) + Inline(t[1..])
  {
    FlattenAppend(t[0], Join(t[1..]));
  }

  /** A `w` by `h` texture inlines to `4 * w * h` bytes, pixel `(x, y)` at byte `4 * (y * w + x)`. */
  lemma InlineLayout(t: Texture, w: nat, h: nat, x: nat, y: nat, k: nat)
    requires Rectangular(t, w, h) && x < w && y < h && k < 4
    ensures |Inline(t)| == 4 * (h * w)
    ensures y * w + x < h * w
    ensures Inline(t)[4 * (y * w + x) + k] == Bytes(t[y][x])[k]
  {
    var ps := Join(t);
    JoinLength(t, w);
    JoinAt(t, w, x, y);
    var i := y * w + x;
    assert ps[i] == t[y][x];
    FlattenAt(ps, i, k);
    assert Flatten(ps)[4 * i + k] == Bytes(t[y][x])[k];
  }

  // ---------------------------------------------------------------------
  // slice

  /** The rectangle lies inside the texture: all its rows exist and are long enough. */
  ghost predicate SliceFits(t: Texture, rect: Rect)
  {
    rect.1 + rect.3 <= |t| && forall r :: rect.1 <= r < rect.1 + rect.3 ==> rect.0 + rect.2 <= |t[r]|
  }

  /** `VecTexture::slice((x, y, w, h))`: `h` rows, each `w` pixels from column `x` of row `y + j`. */
  function Slice(t: Texture, rect: Rect): (r: Texture)
    requires SliceFits(t, rect)
    ensures Rectangular(r, rect.2, rect.3)
    ensures forall j, i :: 0 <= j < rect.3 && 0 <= i < rect.2 ==> r[j][i] == t[rect.1 + j][rect.0 + i]
  {
    var (x, y, w, h) := rect;
    var r := seq(h, j requires 0 <= j < h => t[y + j][x .. x + w]);
    assert forall j :: 0 <= j < h ==> r[j] == t[y + j][x .. x + w];
    r
  }

  /**
   * `TextureSlice::slice(rect)` reads the rectangle differently: `rect.2`
   * rows, each holding columns `rect.0` up to (not including) `rect.3`.
   */
  function SliceOfSlice(t: Texture, rect: Rect): (r: Texture)
    requires rect.0 <= rect.3
    requires rect.1 + rect.2 <= |t| && forall r :: rect.1 <= r < rect.1 + rect.2 ==> rect.3 <= |t[r]|
    ensures Rectangular(r, rect.3 - rect.0, rect.2)
  {
    var (x, y, h, xEnd) := rect;
    var r := seq(h, j requires 0 <= j < h => t[y + j][x .. xEnd]);
    assert forall j :: 0 <= j < h ==> r[j] == t[y + j][x .. xEnd];
    r
  }

  /** The two conventions agree once the third field is read as the row count and the fourth as the end column. */
  lemma SliceConventions(t: Texture, rect: Rect)
    requires rect.0 <= rect.3
    requires rect.1 + rect.2 <= |t| && forall r :: rect.1 <= r < rect.1 + rect.2 ==> rect.3 <= |t[r]|
    ensures SliceFits(t, (rect.0, rect.1, rect.3 - rect.0, rect.2))
    ensures SliceOfSlice(t, rect) == Slice(t, (rect.0, rect.1, rect.3 - rect.0, rect.2))
  {
    var r1, r2 := SliceOfSlice(t, rect), Slice(t, (rect.0, rect.1, rect.3 - rect.0, rect.2));
    forall j | 0 <= j < rect.2
      ensures r1[j] == r2[j]
    {
    }
  }

  // ---------------------------------------------------------------------
  // rotate: a quarter turn clockwise

  /** No row is longer than the first; a longer row would write past the output's rows. */
  ghost predicate RowsWithin(t: Texture)
  {
    |t| > 0 && forall y :: 0 <= y < |t| ==> |t[y]| <= |t[0]|
  }

  /**
   * The rotated texture: `|t[0]|` rows of `|t|` pixels. Row `y` of `t`
   * becomes column `|t| - 1 - y`; where a row of `t` is shorter than the
   * first, the output keeps the all-zero pixel it was created with.
   */
  function Rotated(t: Texture): (r: Texture)
    requires RowsWithin(t)
    ensures Rectangular(r, |t|, |t[0]|)
    ensures forall y, x :: 0 <= y < |t| && 0 <= x < |t[y]| ==> r[x][|t| - 1 - y] == t[y][x]
    ensures forall y, x :: 0 <= y < |t| && |t[y]| <= x < |t[0]| ==> r[x][|t| - 1 - y] == BLANK
  {
    var r := seq(|t[0]|, a requires 0 <= a < |t[0]| =>
                   seq(|t|, b requires 0 <= b < |t| => RotatedCell(t, a, b)));
    assert forall a :: 0 <= a < |t[0]| ==> r[a] == seq(|t|, b requires 0 <= b < |t| => RotatedCell(t, a, b));
    r
  }

  /** Output pixel `(b, a)` comes from input row `|t| - 1 - b`, column `a`, if that row reaches it. */
  function RotatedCell(t: Texture, a: nat, b: nat): Rgba
    requires b < |t|
  {
    var y := |t| - 1 - b;
    if a < |t[y]| then t[y][a] else BLANK
  }

  /** The output while `rotate` runs: input rows before `y`, and row `y` up to column `x`, have been copied. */
  ghost function RotatedUpTo(t: Texture, y: nat, x: nat): (r: Texture)
    requires RowsWithin(t)
    ensures Rectangular(r, |t|, |t[0]|)
  {
    var r := seq(|t[0]|, a requires 0 <= a < |t[0]| =>
                   seq(|t|, b requires 0 <= b < |t| => if Copied(t, y, x, a, b) then RotatedCell(t, a, b) else BLANK));
    assert forall a :: 0 <= a < |t[0]| ==> |r[a]| == |t|;
    r
  }

  ghost predicate Copied(t: Texture, y: nat, x: nat, a: nat, b: nat)
    requires b < |t|
  {
    var row := |t| - 1 - b;
    row < y || (row == y && a < x)
  }

  lemma RotatedUpToStep(t: Texture, y: nat, x: nat)
    requires RowsWithin(t) && y < |t| && x < |t[y]|
    ensures var out := RotatedUpTo(t, y, x);
            out[x := out[x][|t| - y - 1 := t[y][x]]] == RotatedUpTo(t, y, x + 1)
  {
    var out := RotatedUpTo(t, y, x);
    var next := RotatedUpTo(t, y, x + 1);
    var upd := out[x := out[x][|t| - y - 1 := t[y][x]]];
    forall a | 0 <= a < |t[0]|
      ensures upd[a] == next[a]
    {
      forall b | 0 <= b < |t|
        ensures upd[a][b] == next[a][b]
      {
      }
    }
  }

  lemma RotatedUpToRowEnd(t: Texture, y: nat)
    requires RowsWithin(t) && y < |t|
    ensures RotatedUpTo(t, y, |t[y]|) == RotatedUpTo(t, y + 1, 0)
  {
    var out, next := RotatedUpTo(t, y, |t[y]|), RotatedUpTo(t, y + 1, 0);
    forall a | 0 <= a < |t[0]|
      ensures out[a] == next[a]
    {
      forall b | 0 <= b < |t|
        ensures out[a][b] == next[a][b]
      {
      }
    }
  }

  lemma RotatedUpToEnds(t: Texture)
    requires RowsWithin(t)
    ensures RotatedUpTo(t, 0, 0) == seq(|t[0]|, _ => seq(|t|, _ => BLANK))
    ensures RotatedUpTo(t, |t|, 0) == Rotated(t)
  {
    var start, blank := RotatedUpTo(t, 0, 0), seq(|t[0]|, _ => seq(|t|, _ => BLANK));
    forall a | 0 <= a < |t[0]|
      ensures start[a] == blank[a]
    {
    }
    var done, r := RotatedUpTo(t, |t|, 0), Rotated(t);
    forall a | 0 <= a < |t[0]|
      ensures done[a] == r[a]
    {
    }
  }

  /**
   * `rotate`: start from an all-zero `|t[0]|` by `|t|` texture and write
   * each input pixel `(x, y)` to output row `x`, column `|t| - y - 1`.
   */
  method Rotate(t: Texture) returns (out: Texture)
    requires RowsWithin(t)
    ensures out == Rotated(t)
  {
    var height, width := |t[0]|, |t|;
    out := seq(height, _ => seq(width, _ => BLANK));
    RotatedUpToEnds(t);
    var y := 0;
    while y < |t|
      invariant y <= |t|
      invariant out == RotatedUpTo(t, y, 0)
    {
      var x := 0;
      while x < |t[y]|
        invariant x <= |t[y]|
        invariant out == RotatedUpTo(t, y, x)
      {
        RotatedUpToStep(t, y, x);
        out := out[x := out[x][width - y - 1 := t[y][x]]];
        x := x + 1;
      }
      RotatedUpToRowEnd(t, y);
      y := y + 1;
    }
  }

  /** On a rectangular texture the rotation is rectangular with the sides swapped, and pixel `(a, b)` of the output is input pixel `(a, h - 1 - b)`. */
  lemma RotatedRectangular(t: Texture, w: nat, h: nat)
    requires Rectangular(t, w, h) && h > 0 && w > 0
    ensures RowsWithin(t)
    ensures Rectangular(Rotated(t), h, w)
    ensures forall a, b :: 0 <= a < w && 0 <= b < h ==> Rotated(t)[a][b] == t[h - 1 - b][a]
  {
    var r := Rotated(t);
    forall a, b | 0 <= a < w && 0 <= b < h
      ensures r[a][b] == t[h - 1 - b][a]
    {
      var y := h - 1 - b;
      assert r[a][|t| - 1 - y] == t[y][a];
    }
  }

  /** A half turn: the rows come in reverse order and each row is reversed. */
  lemma RotateTwice(t: Texture, w: nat, h: nat)
    requires Rectangular(t, w, h) && h > 0 && w > 0
    ensures RowsWithin(t) && RowsWithin(Rotated(t))
    ensures Rectangular(Rotated(Rotated(t)), w, h)
    ensures forall y, x :: 0 <= y < h && 0 <= x < w ==> Rotated(Rotated(t))[y][x] == t[h - 1 - y][w - 1 - x]
  {
    RotatedRectangular(t, w, h);
    var r1 := Rotated(t);
    RotatedRectangular(r1, h, w);
  }

  /** Four quarter turns of a rectangular, non-empty texture give it back. */
  lemma RotateFourTimes(t: Texture, w: nat, h: nat)
    requires Rectangular(t, w, h) && h > 0 && w > 0
    ensures RowsWithin(t) && RowsWithin(Rotated(t))
    ensures RowsWithin(Rotated(Rotated(t))) && RowsWithin(Rotated(Rotated(Rotated(t))))
    ensures Rotated(Rotated(Rotated(Rotated(t)))) == t
  {
    RotateTwice(t, w, h);
    var r2 := Rotated(Rotated(t));
    RotateTwice(r2, w, h);
    var r4 := Rotated(Rotated(r2));
    forall y | 0 <= y < h
      ensures r4[y] == t[y]
    {
      forall x | 0 <= x < w
        ensures r4[y][x] == t[y][x]
      {
        assert r4[y][x] == r2[h - 1 - y][w - 1 - x];
      }
    }
  }

  // ---------------------------------------------------------------------
  // paint: blit a texture in place

  /** Every row of `painting`, placed at `pos`, lies inside the texture. */
  ghost predicate Fits(t: Texture, painting: Texture, pos: (nat, nat))
  {
    pos.1 + |painting| <= |t|
    && forall j :: 0 <= j < |painting| ==> pos.0 + |painting[j]| <= |t[pos.1 + j]|
  }

  /** Pixel `(x, y)` of the texture is covered by the painting placed at `pos`. */
  ghost predicate Covered(painting: Texture, pos: (nat, nat), y: nat, x: nat)
  {
    pos.1 <= y < pos.1 + |painting| && pos.0 <= x < pos.0 + |painting[y - pos.1]|
  }

  function PaintedCell(t: Texture, painting: Texture, pos: (nat, nat), y: nat, x: nat): Rgba
    requires y < |t| && x < |t[y]|
  {
    if pos.1 <= y < pos.1 + |painting| && pos.0 <= x < pos.0 + |painting[y - pos.1]|
    then painting[y - pos.1][x - pos.0]
    else t[y][x]
  }

  /**
   * The texture after `paint(painting, pos)`: the same shape, every pixel
   * the painting covers replaced by the painting's, every other pixel kept.
   */
  function Painted(t: Texture, painting: Texture, pos: (nat, nat)): (r: Texture)
    requires Fits(t, painting, pos)
    ensures |r| == |t| && forall y :: 0 <= y < |t| ==> |r[y]| == |t[y]|
    ensures forall j, i :: 0 <= j < |painting| && 0 <= i < |painting[j]| ==> r[pos.1 + j][pos.0 + i] == painting[j][i]
    ensures forall y, x :: 0 <= y < |t| && 0 <= x < |t[y]| && !Covered(painting, pos, y, x) ==> r[y][x] == t[y][x]
  {
    var r := seq(|t|, y requires 0 <= y < |t| =>
                   seq(|t[y]|, x requires 0 <= x < |t[y]| => PaintedCell(t, painting, pos, y, x)));
    assert forall y :: 0 <= y < |t| ==> r[y] == seq(|t[y]|, x requires 0 <= x < |t[y]| => PaintedCell(t, painting, pos, y, x));
    forall j, i | 0 <= j < |painting| && 0 <= i < |painting[j]|
      ensures r[pos.1 + j][pos.0 + i] == painting[j][i]
    {
      assert pos.0 + i < |t[pos.1 + j]|;
    }
    r
  }

  /** The texture while `paint` runs: painting rows before `y`, and row `y` up to column `x`, are written. */
  ghost function PaintedUpTo(t: Texture, painting: Texture, pos: (nat, nat), y: nat, x: nat): (r: Texture)
    requires Fits(t, painting, pos)
    ensures |r| == |t| && forall row :: 0 <= row < |t| ==> |r[row]| == |t[row]|
  {
    var r := seq(|t|, row requires 0 <= row < |t| =>
                   seq(|t[row]|, col requires 0 <= col < |t[row]| =>
                         if Written(pos, y, x, row, col) then PaintedCell(t, painting, pos, row, col) else t[row][col]));
    assert forall row :: 0 <= row < |t| ==> |r[row]| == |t[row]|;
    r
  }

  ghost predicate Written(pos: (nat, nat), y: nat, x: nat, row: nat, col: nat)
  {
    row < pos.1 + y || (row == pos.1 + y && col < pos.0 + x)
  }

  lemma PaintedUpToStep(t: Texture, painting: Texture, pos: (nat, nat), y: nat, x: nat)
    requires Fits(t, painting, pos) && y < |painting| && x < |painting[y]|
    ensures var cur := PaintedUpTo(t, painting, pos, y, x);
            cur[pos.1 + y := cur[pos.1 + y][pos.0 + x := painting[y][x]]] == PaintedUpTo(t, painting, pos, y, x + 1)
  {
    var cur := PaintedUpTo(t, painting, pos, y, x);
    var next := PaintedUpTo(t, painting, pos, y, x + 1);
    var upd := cur[pos.1 + y := cur[pos.1 + y][pos.0 + x := painting[y][x]]];
    forall row | 0 <= row < |t|
      ensures upd[row] == next[row]
    {
      forall col | 0 <= col < |t[row]|
        ensures upd[row][col] == next[row][col]
      {
      }
    }
  }

  lemma PaintedUpToRowEnd(t: Texture, painting: Texture, pos: (nat, nat), y: nat)
    requires Fits(t, painting, pos) && y < |painting|
    ensures PaintedUpTo(t, painting, pos, y, |painting[y]|) == PaintedUpTo(t, painting, pos, y + 1, 0)
  {
    var cur, next := PaintedUpTo(t, painting, pos, y, |painting[y]|), PaintedUpTo(t, painting, pos, y + 1, 0);
    forall row | 0 <= row < |t|
      ensures cur[row] == next[row]
    {
      forall col | 0 <= col < |t[row]|
        ensures cur[row][col] == next[row][col]
      {
      }
    }
  }

  lemma PaintedUpToEnds(t: Texture, painting: Texture, pos: (nat, nat))
    requires Fits(t, painting, pos)
    ensures PaintedUpTo(t, painting, pos, 0, 0) == t
    ensures PaintedUpTo(t, painting, pos, |painting|, 0) == Painted(t, painting, pos)
  {
    var start, done, r := PaintedUpTo(t, painting, pos, 0, 0), PaintedUpTo(t, painting, pos, |painting|, 0), Painted(t, painting, pos);
    forall row | 0 <= row < |t|
      ensures start[row] == t[row] && done[row] == r[row]
    {
    }
  }

  /** A `VecTexture` owned and changed in place. */
  class VecTexture {
    var rows: Texture

    constructor (t: Texture)
      ensures rows == t
    {
      rows := t;
    }

    /** `paint`: writes each painting pixel `(x, y)` to `self[pos.1 + y][pos.0 + x]`; the indices must be in range. */
    method Paint(painting: Texture, pos: (nat, nat))
      requires Fits(rows, painting, pos)
      modifies this
      ensures rows == Painted(old(rows), painting, pos)
    {
      ghost var t := rows;
      PaintedUpToEnds(t, painting, pos);
      var y := 0;
      while y < |painting|
        invariant y <= |painting|
        invariant rows == PaintedUpTo(t, painting, pos, y, 0)
      {
        var x := 0;
        while x < |painting[y]|
          invariant x <= |painting[y]|
          invariant rows == PaintedUpTo(t, painting, pos, y, x)
        {
          PaintedUpToStep(t, painting, pos, y, x);
          rows := rows[pos.1 + y := rows[pos.1 + y][pos.0 + x := painting[y][x]]];
          x := x + 1;
        }
        PaintedUpToRowEnd(t, painting, pos, y);
        y := y + 1;
      }
    }
  }

  /** Painting a rectangle and slicing the same rectangle gives the painting back. */
  lemma PaintThenSlice(t: Texture, painting: Texture, w: nat, h: nat, pos: (nat, nat))
    requires Rectangular(painting, w, h) && Fits(t, painting, pos)
    ensures SliceFits(Painted(t, painting, pos), (pos.0, pos.1, w, h))
    ensures Slice(Painted(t, painting, pos), (pos.0, pos.1, w, h)) == painting
  {
    var r := Painted(t, painting, pos);
    assert forall row :: pos.1 <= row < pos.1 + h ==> pos.0 + w <= |r[row]| by {
      forall row | pos.1 <= row < pos.1 + h
        ensures pos.0 + w <= |r[row]|
      {
        assert pos.0 + |painting[row - pos.1]| <= |t[pos.1 + (row - pos.1)]|;
      }
    }
    var s := Slice(r, (pos.0, pos.1, w, h));
    forall j | 0 <= j < h
      ensures s[j] == painting[j]
    {
    }
  }

  lemma SliceFitsBack(t: Texture, rect: Rect)
    requires SliceFits(t, rect)
    ensures Fits(t, Slice(t, rect), (rect.0, rect.1))
  {
    var s := Slice(t, rect);
    forall j | 0 <= j < |s|
      ensures rect.0 + |s[j]| <= |t[rect.1 + j]|
    {
      assert rect.1 <= rect.1 + j < rect.1 + rect.3;
    }
  }

  /** Painting a texture's own slice back where it came from changes nothing. */
  lemma SliceThenPaint(t: Texture, rect: Rect)
    requires SliceFits(t, rect)
    ensures Fits(t, Slice(t, rect), (rect.0, rect.1))
    ensures Painted(t, Slice(t, rect), (rect.0, rect.1)) == t
  {
    SliceFitsBack(t, rect);
    var r := Painted(t, Slice(t, rect), (rect.0, rect.1));
    forall y | 0 <= y < |t|
      ensures r[y] == t[y]
    {
      forall x | 0 <= x < |t[y]|
        ensures r[y][x] == t[y][x]
      {
        SliceThenPaintCell(t, rect, y, x);
      }
    }
  }

  /** One pixel of `SliceThenPaint`. */
  lemma SliceThenPaintCell(t: Texture, rect: Rect, y: nat, x: nat)
    requires SliceFits(t, rect) && y < |t| && x < |t[y]|
    ensures Fits(t, Slice(t, rect), (rect.0, rect.1))
    ensures Painted(t, Slice(t, rect), (rect.0, rect.1))[y][x] == t[y][x]
  {
    SliceFitsBack(t, rect);
    var s := Slice(t, rect);
    if Covered(s, (rect.0, rect.1), y, x) {
      var j, i := y - rect.1, x - rect.0;
      assert s[j][i] == t[rect.1 + j][rect.0 + i];
    }
  }

  // ---------------------------------------------------------------------
  // into_vec_texture: image bytes back into rows of pixels

  /** One chunk of one to four bytes as a pixel; missing channels stay 255. */
  function ChunkPixel(c: seq<Byte>): (p: Rgba)
    requires 0 < |c| <= 4
    ensures forall k :: 0 <= k < |c| ==> Bytes(p)[k] == c[k]
    ensures forall k :: |c| <= k < 4 ==> Bytes(p)[k] == 255
  {
    Rgba(c[0], if |c| > 1 then c[1] else 255, if |c| > 2 then c[2] else 255, if |c| > 3 then c[3] else 255)
  }

  /** `bytes.chunks(4)`, each chunk made a pixel: a short last chunk is padded with 255. */
  function BytesToPixels(bytes: seq<Byte>): (r: seq<Rgba>)
    ensures |r| == (|bytes| + 3) / 4
    decreases |bytes|
  {
    if bytes == [] then []
    else if |bytes| <= 4 then [ChunkPixel(bytes)]
    else [ChunkPixel(bytes[..4])] + BytesToPixels(bytes[4..])
  }

  /**
   * `pixels.chunks(w)`: consecutive runs of `w` pixels, the last possibly
   * shorter. Joining the runs gives the pixels back, no run is empty, and
   * every run but the last is full.
   */
  function Chunks(ps: seq<Rgba>, w: nat): (r: Texture)
    requires w > 0
    ensures Join(r) == ps
    ensures forall j :: 0 <= j < |r| ==> 0 < |r[j]| <= w
    ensures forall j :: 0 <= j < |r| - 1 ==> |r[j]| == w
    decreases |ps|
  {
    if ps == [] then []
    else if |ps| <= w then [ps]
    else
      var rest := Chunks(ps[w..], w);
      assert Join([ps[..w]] + rest) == ps[..w] + Join(rest) by {
        assert ([ps[..w]] + rest)[1..] == rest;
      }
      [ps[..w]] + rest
  }

  /** `into_vec_texture`: the image's bytes as rows of `width` pixels; `chunks` needs a non-zero width. */
  function IntoVecTexture(bytes: seq<Byte>, width: nat): Texture
    requires width > 0
  {
    Chunks(BytesToPixels(bytes), width)
  }

  /** Regrouping the bytes of whole pixels gives the pixels back. */
  lemma {:induction false} PixelsOfFlatten(ps: seq<Rgba>)
    ensures BytesToPixels(Flatten(ps)) == ps
  {
    if ps != [] {
      FlattenLength(ps);
      var bytes := Flatten(ps);
      assert bytes[..4] == Bytes(ps[0]);
      assert bytes[4..] == Flatten(ps[1..]);
      PixelsOfFlatten(ps[1..]);
      if |ps| == 1 {
        FlattenLength(ps[1..]);
        assert bytes == Bytes(ps[0]);
      }
    }
  }

  /** Cutting the joined rows of a rectangular texture at its width gives its rows back. */
  lemma {:induction false} ChunksOfJoin(t: Texture, w: nat)
    requires Rectangular(t, w, |t|) && w > 0
    ensures Chunks(Join(t), w) == t
  {
    if t != [] {
      var ps := Join(t);
      JoinLength(t[1..], w);
      assert ps[..w] == t[0] && ps[w..] == Join(t[1..]);
      ChunksOfJoin(t[1..], w);
      if |t| == 1 {
        assert Join(t[1..]) == [];
      } else {
        assert |Join(t[1..])| > 0 by {
          assert (|t| - 1) * w >= w;
        }
      }
    }
  }

  /** Reading back the inlined bytes of a rectangular image at its width gives the image. */
  lemma IntoVecTextureInvertsInline(t: Texture, w: nat, h: nat)
    requires Rectangular(t, w, h) && w > 0
    ensures IntoVecTexture(Inline(t), w) == t
  {
    PixelsOfFlatten(Join(t));
    ChunksOfJoin(t, w);
  }

  /** An image of `4 * w * h` bytes reads back as `h` rows of `w` pixels. */
  lemma {:induction false} IntoVecTextureRectangular(bytes: seq<Byte>, w: nat, h: nat)
    requires w > 0 && |bytes| == 4 * (h * w)
    ensures Rectangular(IntoVecTexture(bytes, w), w, h)
  {
    ChunksRectangular(BytesToPixels(bytes), w, h);
  }

  lemma {:induction false} ChunksRectangular(ps: seq<Rgba>, w: nat, h: nat)
    requires w > 0 && |ps| == h * w
    ensures Rectangular(Chunks(ps, w), w, h)
  {
    if h == 1 {
      assert Chunks(ps, w) == [ps];
    } else if h > 1 {
      var rest := ps[w..];
      assert |rest| == (h - 1) * w by {
        assert (h - 1) * w + w == h * w;
      }
      assert |ps| > w by {
        assert (h - 1) * w >= w;
      }
      ChunksRectangular(rest, w, h - 1);
      assert Chunks(ps, w) == [ps[..w]] + Chunks(rest, w);
    }
  }

  // ---------------------------------------------------------------------
  // The scramble loop

  /** How many squares are rotated. */
  const RANDOMNISATION: nat := 10

  /** One round's random draws: the square's side and its top-left corner. */
  datatype Draw = Draw(size: nat, x: nat, y: nat)

  /**
   * What a round needs on a `w` by `h` image: a side of at least one pixel
   * and a corner that keeps the whole square inside the image. Every draw of
   * the generator with a non-zero side meets it.
   */
  ghost predicate ValidDraw(d: Draw, w: nat, h: nat)
  {
    1 <= d.size && d.x + d.size <= w && d.y + d.size <= h
  }

  /** The square a draw selects. */
  function Square(d: Draw): Rect
  {
    (d.x, d.y, d.size, d.size)
  }

  /** One round on a `w` by `h` image: the selected square is in bounds, its rotation fits back at the same corner, and painting it keeps the image's shape. */
  lemma ScrambleRound(t: Texture, w: nat, h: nat, d: Draw)
    requires Rectangular(t, w, h) && ValidDraw(d, w, h)
    ensures SliceFits(t, Square(d))
    ensures var rotated := Rotated(Slice(t, Square(d)));
            Rectangular(rotated, d.size, d.size)
            && Fits(t, rotated, (d.x, d.y))
            && Rectangular(Painted(t, rotated, (d.x, d.y)), w, h)
            && Slice(Painted(t, rotated, (d.x, d.y)), Square(d)) == rotated
  {
    var sl := Slice(t, Square(d));
    RotatedRectangular(sl, d.size, d.size);
    var rotated := Rotated(sl);
    PaintThenSlice(t, rotated, d.size, d.size, (d.x, d.y));
  }

  /** The rotated square of one round. */
  function RoundSquare(t: Texture, w: nat, h: nat, d: Draw): (r: Texture)
    requires Rectangular(t, w, h) && ValidDraw(d, w, h)
    ensures Rectangular(r, d.size, d.size)
  {
    ScrambleRound(t, w, h, d);
    Rotated(Slice(t, Square(d)))
  }

  /** The image after the given rounds, each applied to the result of the ones before. */
  function Scrambled(t: Texture, w: nat, h: nat, draws: seq<Draw>): (r: Texture)
    requires Rectangular(t, w, h) && forall i :: 0 <= i < |draws| ==> ValidDraw(draws[i], w, h)
    ensures Rectangular(r, w, h)
  {
    if draws == [] then t
    else
      var last := Scrambled(t, w, h, draws[..|draws| - 1]);
      var d := draws[|draws| - 1];
      ScrambleRound(last, w, h, d);
      Painted(last, RoundSquare(last, w, h, d), (d.x, d.y))
  }

  /** The recorded steps: the untouched image at the origin, then each round's corner and rotated square. */
  function ScrambleSteps(t: Texture, w: nat, h: nat, draws: seq<Draw>): (r: seq<(nat, nat, Texture)>)
    requires Rectangular(t, w, h) && forall i :: 0 <= i < |draws| ==> ValidDraw(draws[i], w, h)
    ensures |r| == |draws| + 1 && r[0] == (0, 0, t)
  {
    if draws == [] then [(0, 0, t)]
    else
      var init := draws[..|draws| - 1];
      var d := draws[|draws| - 1];
      ScrambleSteps(t, w, h, init) + [(d.x, d.y, RoundSquare(Scrambled(t, w, h, init), w, h, d))]
  }

  /**
   * Each recorded square is exactly what the image shows in that square
   * right after its round.
   */
  lemma {:induction false} StepsMatchImage(t: Texture, w: nat, h: nat, draws: seq<Draw>, k: nat)
    requires Rectangular(t, w, h) && forall i :: 0 <= i < |draws| ==> ValidDraw(draws[i], w, h)
    requires k < |draws|
    ensures var image := Scrambled(t, w, h, draws[..k + 1]);
            SliceFits(image, Square(draws[k]))
            && ScrambleSteps(t, w, h, draws)[k + 1].2 == Slice(image, Square(draws[k]))
  {
    var init := draws[..|draws| - 1];
    if k == |draws| - 1 {
      assert draws[..k + 1] == draws;
      ScrambleRound(Scrambled(t, w, h, init), w, h, draws[k]);
    } else {
      StepsMatchImage(t, w, h, init, k);
      assert init[..k + 1] == draws[..k + 1];
    }
  }

  /**
   * The scramble loop of the demo: starting from the image, each round
   * slices the drawn square out of the current image, rotates it, paints it
   * back in place and records it.
   */
  method Scramble(from: Texture, w: nat, h: nat, draws: seq<Draw>) returns (steps: seq<(nat, nat, Texture)>)
    requires Rectangular(from, w, h)
    requires |draws| == RANDOMNISATION && forall i :: 0 <= i < |draws| ==> ValidDraw(draws[i], w, h)
    ensures steps == ScrambleSteps(from, w, h, draws)
  {
    steps := [(0, 0, from)];
    var last := new VecTexture(from);
    for i := 0 to |draws|
      invariant last.rows == Scrambled(from, w, h, draws[..i])
      invariant steps == ScrambleSteps(from, w, h, draws[..i])
    {
      var d := draws[i];
      ScrambleNext(from, w, h, draws, i);
      var rotated := Rotate(Slice(last.rows, (d.x, d.y, d.size, d.size)));
      last.Paint(rotated, (d.x, d.y));
      steps := steps + [(d.x, d.y, rotated)];
    }
    assert draws[..|draws|] == draws;
  }

  /** One more round: the next image paints the next rotated square, and the steps record it. */
  lemma ScrambleNext(t: Texture, w: nat, h: nat, draws: seq<Draw>, i: nat)
    requires Rectangular(t, w, h) && forall j :: 0 <= j < |draws| ==> ValidDraw(draws[j], w, h)
    requires i < |draws|
    ensures var last, d := Scrambled(t, w, h, draws[..i]), draws[i];
            SliceFits(last, Square(d))
            && RowsWithin(Slice(last, Square(d)))
            && Fits(last, Rotated(Slice(last, Square(d))), (d.x, d.y))
            && Scrambled(t, w, h, draws[..i + 1]) == Painted(last, Rotated(Slice(last, Square(d))), (d.x, d.y))
            && ScrambleSteps(t, w, h, draws[..i + 1]) == ScrambleSteps(t, w, h, draws[..i]) + [(d.x, d.y, Rotated(Slice(last, Square(d))))]
  {
    assert draws[..i + 1][..i] == draws[..i];
    ScrambleRound(Scrambled(t, w, h, draws[..i]), w, h, draws[i]);
  }
}
