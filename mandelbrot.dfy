/**
 * The Mandelbrot/Julia explorer (rust-mandelbrot/src/main.rs).
 *
 * Complex numbers are pairs of reals; `norm(z) < 2` is written
 * `re*re + im*im < 4`. The HSV-to-RGB conversion of the `palette` crate is
 * not modelled: the colour of an escaped point is given by a `Palette`
 * parameter, a function of the escape count.
 */
module Mandelbrot {
  import opened Wrappers
  import opened Pixels

  const ITERATIONS: nat := 50
  const BASE_SCALE: real := 4.0

  /**
   * `scale / MOVE_SCALE` with MOVE_SCALE = 8: both the pan step and the
   * leftward bias of the Mandelbrot panel. (Written with the literal so that
   * the division stays linear for the solver.)
   */
  function MoveStep(scale: real): real
  {
    scale / 8.0
  }

  datatype Complex = Complex(re: real, im: real)

  const ZERO: Complex := Complex(0.0, 0.0)

  function Add(a: Complex, b: Complex): Complex
  {
    Complex(a.re + b.re, a.im + b.im)
  }

  function Square(z: Complex): Complex
  {
    Complex(z.re * z.re - z.im * z.im, 2.0 * z.re * z.im)
  }

  /** `z.norm() < 2.` */
  predicate InDisk(z: Complex)
  {
    z.re * z.re + z.im * z.im < 4.0
  }

  /** One step of the quadratic recurrence, `z.powu(2) + c`. */
  function Step(z: Complex, c: Complex): Complex
  {
    Add(Square(z), c)
  }

  /** The `k`-th point of the orbit of `z0` under `z <- z^2 + c`. */
  function Orbit(z0: Complex, c: Complex, k: nat): Complex
  {
    if k == 0 then z0 else Step(Orbit(z0, c, k - 1), c)
  }

  /**
   * The escape count searched from step `i` on, given that the orbit stayed
   * in the disk for every step before `i`.
   */
  function EscapeFrom(z0: Complex, c: Complex, i: nat): (r: nat)
    requires i <= ITERATIONS
    requires forall k :: 0 <= k < i ==> InDisk(Orbit(z0, c, k))
    ensures i <= r <= ITERATIONS
    ensures forall k :: 0 <= k < r ==> InDisk(Orbit(z0, c, k))
    ensures r < ITERATIONS ==> !InDisk(Orbit(z0, c, r))
    decreases ITERATIONS - i
  {
    if i < ITERATIONS && InDisk(Orbit(z0, c, i)) then EscapeFrom(z0, c, i + 1) else i
  }

  /**
   * The bounded escape time: the first step at which the orbit of `z0`
   * leaves the disk of radius 2, or ITERATIONS if it stays inside that long.
   */
  function Escape(z0: Complex, c: Complex): (r: nat)
    ensures r <= ITERATIONS
    ensures forall k :: 0 <= k < r ==> InDisk(Orbit(z0, c, k))
    ensures r < ITERATIONS ==> !InDisk(Orbit(z0, c, r))
  {
    EscapeFrom(z0, c, 0)
  }

  /** The escape time is the only count with the first-exit property. */
  lemma EscapeIsFirstExit(z0: Complex, c: Complex, n: nat)
    requires n <= ITERATIONS
    requires forall k :: 0 <= k < n ==> InDisk(Orbit(z0, c, k))
    requires n < ITERATIONS ==> !InDisk(Orbit(z0, c, n))
    ensures n == Escape(z0, c)
  {
  }

  /**
   * The escape loop `while i < ITERATIONS && z.norm() < 2. { i += 1; z = z.powu(2) + c; }`.
   * The Mandelbrot panel runs it from `z0 = 0`, the Julia panel from the
   * pixel's point with `c` fixed.
   */
  method EscapeCount(z0: Complex, c: Complex) returns (n: nat)
    ensures n <= ITERATIONS
    ensures forall k :: 0 <= k < n ==> InDisk(Orbit(z0, c, k))
    ensures n < ITERATIONS ==> !InDisk(Orbit(z0, c, n))
    ensures n == Escape(z0, c)
  {
    var z := z0;
    n := 0;
    while n < ITERATIONS && InDisk(z)
      invariant n <= ITERATIONS
      invariant z == Orbit(z0, c, n)
      invariant forall k :: 0 <= k < n ==> InDisk(Orbit(z0, c, k))
    {
      n := n + 1;
      z := Step(z, c);
    }
    EscapeIsFirstExit(z0, c, n);
  }

  /** In the Mandelbrot form the count lies in [1, ITERATIONS]: `z0 = 0` never escapes at once. */
  lemma MandelbrotCountBounds(c: Complex)
    ensures 1 <= Escape(ZERO, c) <= ITERATIONS
  {
    FirstStepFromOrigin(c);
  }

  /** A fixed point of the step is its own orbit. */
  lemma {:induction false} FixedPointOrbit(z0: Complex, c: Complex, k: nat)
    requires Step(z0, c) == z0
    ensures Orbit(z0, c, k) == z0
  {
    if k > 0 {
      FixedPointOrbit(z0, c, k - 1);
    }
  }

  /** `c = 0` lies in the set: its orbit stays at 0, so the count is ITERATIONS. */
  lemma OriginNeverEscapes()
    ensures Escape(ZERO, ZERO) == ITERATIONS
  {
    var e := Escape(ZERO, ZERO);
    StepFromZero(ZERO);
    ZeroInDisk();
    FixedPointOrbit(ZERO, ZERO, e);
  }

  /** A parameter with `|c| >= 2` escapes after exactly one step, since `z1 = c`. */
  lemma FarParameterEscapesAtOnce(c: Complex)
    requires !InDisk(c)
    ensures Escape(ZERO, c) == 1
  {
    FirstStepFromOrigin(c);
    EscapeIsFirstExit(ZERO, c, 1);
  }

  lemma FirstStepFromOrigin(c: Complex)
    ensures Orbit(ZERO, c, 0) == ZERO && InDisk(ZERO)
    ensures Orbit(ZERO, c, 1) == c
  {
    ZeroInDisk();
    StepFromZero(c);
  }

  lemma StepFromZero(c: Complex)
    ensures Step(ZERO, c) == c
  {
    SquareOfZero();
  }

  lemma ZeroInDisk()
    ensures InDisk(ZERO)
  {
  }

  // Kept apart: a real product in the same goal sends the solver into
  // non-linear arithmetic.
  lemma SquareOfZero()
    ensures Square(ZERO) == ZERO
  {
  }

  /** A Julia start with `|z0| >= 2` has count 0, whatever `c` is. */
  lemma OutsideStartEscapesAtZero(z0: Complex, c: Complex)
    requires !InDisk(z0)
    ensures Escape(z0, c) == 0
  {
    EscapeIsFirstExit(z0, c, 0);
  }

  /** The HSV conversion of the `palette` crate, as a function of the escape count. */
  type Palette = nat -> Rgb

  /** The colour rule: interior points are opaque black, escaped ones take the palette colour, alpha is always 255. */
  function Color(n: nat, palette: Palette): (p: Rgba)
    ensures p.a == OPAQUE
    ensures n == ITERATIONS ==> p == BLACK
    ensures n != ITERATIONS ==> p.r == palette(n).red && p.g == palette(n).green && p.b == palette(n).blue
  {
    if n == ITERATIONS then BLACK
    else Rgba(palette(n).red, palette(n).green, palette(n).blue, OPAQUE)
  }

  // ---------------------------------------------------------------------
  // View state and the pixel-to-plane mapping

  /** The side of each square panel, `(width / 2).min(height)`; nothing clamps it away from 0. */
  function PanelSide(width: nat, height: nat): (s: nat)
    ensures s <= width / 2 && s <= height
    ensures s == width / 2 || s == height
  {
    if width / 2 <= height then width / 2 else height
  }

  /**
   * The point of the Mandelbrot view under panel coordinate `(x, y)`:
   * the panel spans `scale` units, is centred on `offset`, and is shifted
   * left by the bias `MoveStep(scale)`.
   */
  function ViewPoint(x: real, y: real, size: nat, scale: real, offset: Complex): Complex
    requires size > 0
  {
    Complex(x / size as real * scale - scale / 2.0 - MoveStep(scale) + offset.re,
            y / size as real * scale - scale / 2.0 + offset.im)
  }

  /** The inverse of ViewPoint: the panel coordinate that shows a given point. */
  function ViewPixel(z: Complex, size: nat, scale: real, offset: Complex): (real, real)
    requires scale != 0.0
  {
    ((z.re - offset.re + scale / 2.0 + MoveStep(scale)) / scale * size as real,
     (z.im - offset.im + scale / 2.0) / scale * size as real)
  }

  /** Mapping a panel coordinate into the view and back gives the coordinate again. */
  lemma ViewPixelInvertsViewPoint(x: real, y: real, size: nat, scale: real, offset: Complex)
    requires size > 0 && scale > 0.0
    ensures ViewPixel(ViewPoint(x, y, size, scale, offset), size, scale, offset) == (x, y)
  {
    var n := size as real;
    var a, b := x / n * scale, y / n * scale;
    var z := ViewPoint(x, y, size, scale, offset);
    assert z == Complex(a - scale / 2.0 - MoveStep(scale) + offset.re, b - scale / 2.0 + offset.im);
    assert z.re - offset.re + scale / 2.0 + MoveStep(scale) == a;
    assert z.im - offset.im + scale / 2.0 == b;
    var p := ViewPixel(z, size, scale, offset);
    assert p.0 == (z.re - offset.re + scale / 2.0 + MoveStep(scale)) / scale * n;
    assert p.1 == (z.im - offset.im + scale / 2.0) / scale * n;
    CancelScale(x, n, scale);
    CancelScale(y, n, scale);
    assert p.0 == x;
    assert p.1 == y;
  }

  lemma CancelScale(x: real, n: real, scale: real)
    requires n > 0.0 && scale > 0.0
    ensures x / n * scale / scale * n == x
  {
  }

  /** The readout's coordinate: the same mapping without the `MoveStep(scale)` bias, or None when the panel is empty (a division by zero). */
  function Readout(mouse: (real, real), size: nat, scale: real, offset: Complex): (r: Option<Complex>)
    ensures r.Some? <==> size > 0
  {
    if size == 0 then None
    else Some(Complex(mouse.0 / size as real * scale - scale / 2.0 + offset.re,
                      mouse.1 / size as real * scale - scale / 2.0 + offset.im))
  }

  /** The readout shows a point `MoveStep(scale)` to the right of the Julia constant picked by the same pointer. */
  lemma ReadoutDropsBias(mouse: (real, real), size: nat, scale: real, offset: Complex)
    requires size > 0
    ensures Readout(mouse, size, scale, offset)
         == Some(Complex(ViewPoint(mouse.0, mouse.1, size, scale, offset).re + MoveStep(scale),
                         ViewPoint(mouse.0, mouse.1, size, scale, offset).im))
  {
    var v := ViewPoint(mouse.0, mouse.1, size, scale, offset);
    var r := Readout(mouse, size, scale, offset).value;
    var a := mouse.0 / size as real * scale;
    assert v.re == a - scale / 2.0 - MoveStep(scale) + offset.re;
    assert r.re == a - scale / 2.0 + offset.re;
    assert r.im == v.im;
  }

  /** The Julia panel's starting point for pixel `(x, y)`: the unpanned view at BASE_SCALE, without bias. */
  function JuliaStart(x: nat, y: nat, size: nat): Complex
    requires size > 0
  {
    Complex(x as real / size as real * BASE_SCALE - BASE_SCALE / 2.0,
            y as real / size as real * BASE_SCALE - BASE_SCALE / 2.0)
  }

  /** The Julia start is the readout mapping at the base zoom with no pan; `JuliaLayout` shows every Julia pixel starts there, whatever the current zoom and pan. */
  lemma JuliaStartIsBaseView(x: nat, y: nat, size: nat)
    requires size > 0
    ensures Readout((x as real, y as real), size, BASE_SCALE, ZERO) == Some(JuliaStart(x, y, size))
  {
  }

  // ---------------------------------------------------------------------
  // Rendering: one RGBA pixel per panel pixel, row-major

  /** Pixel `i` of the Mandelbrot panel, at column `i % size` and row `i / size`: `z0 = 0` and `c` from the view. */
  function MandelbrotPixel(i: nat, size: nat, scale: real, offset: Complex, palette: Palette): Rgba
    requires i < size * size
  {
    var x, y := i % size, i / size;
    Color(Escape(ZERO, ViewPoint(x as real, y as real, size, scale, offset)), palette)
  }

  /** Pixel `i` of the Julia panel: `c` fixed, `z0` from the pixel at the base zoom. */
  function JuliaPixel(i: nat, size: nat, c: Complex, palette: Palette): Rgba
    requires i < size * size
  {
    Color(Escape(JuliaStart(i % size, i / size, size), c), palette)
  }

  /** The bytes handed to `Texture2D::from_rgba8` for the Mandelbrot panel. */
  function MandelbrotBytes(size: nat, scale: real, offset: Complex, palette: Palette): seq<Byte>
  {
    Flatten(seq(size * size, i requires 0 <= i < size * size => MandelbrotPixel(i, size, scale, offset, palette)))
  }

  /** The Julia constant: the pointer mapped through the Mandelbrot view, bias included. */
  function JuliaConstant(mouse: (real, real), size: nat, scale: real, offset: Complex): Complex
    requires size > 0
  {
    ViewPoint(mouse.0, mouse.1, size, scale, offset)
  }

  /** The bytes of the Julia panel; with an empty panel there is no pixel and the constant is never used. */
  function JuliaBytes(size: nat, mouse: (real, real), scale: real, offset: Complex, palette: Palette): seq<Byte>
  {
    if size == 0 then []
    else
      var c := JuliaConstant(mouse, size, scale, offset);
      Flatten(seq(size * size, i requires 0 <= i < size * size => JuliaPixel(i, size, c, palette)))
  }

  /**
   * The Mandelbrot buffer holds `size * size` pixels of four bytes; pixel
   * `i` sits at column `i % size` and row `i / size`, carries the colour of
   * its escape count, and its fourth byte is 255.
   */
  lemma MandelbrotLayout(size: nat, scale: real, offset: Complex, palette: Palette, i: nat)
    requires i < size * size
    ensures |MandelbrotBytes(size, scale, offset, palette)| == 4 * (size * size)
    ensures MandelbrotBytes(size, scale, offset, palette)[4 * i .. 4 * i + 4]
            == Bytes(Color(Escape(ZERO, ViewPoint((i % size) as real, (i / size) as real, size, scale, offset)), palette))
    ensures MandelbrotBytes(size, scale, offset, palette)[4 * i + 3] == OPAQUE
  {
    var ps := seq(size * size, j requires 0 <= j < size * size => MandelbrotPixel(j, size, scale, offset, palette));
    FlattenLayout(ps);
    var bytes := MandelbrotBytes(size, scale, offset, palette);
    assert bytes[4 * i .. 4 * i + 4] == Bytes(ps[i]) by {
      forall k | 0 <= k < 4 ensures bytes[4 * i + k] == Bytes(ps[i])[k] { }
    }
  }

  /** The Julia buffer has the same layout, with the colour of the Julia escape count. */
  lemma JuliaLayout(size: nat, mouse: (real, real), scale: real, offset: Complex, palette: Palette, i: nat)
    requires i < size * size
    ensures |JuliaBytes(size, mouse, scale, offset, palette)| == 4 * (size * size)
    ensures JuliaBytes(size, mouse, scale, offset, palette)[4 * i .. 4 * i + 4]
            == Bytes(Color(Escape(JuliaStart(i % size, i / size, size), JuliaConstant(mouse, size, scale, offset)), palette))
    ensures JuliaBytes(size, mouse, scale, offset, palette)[4 * i + 3] == OPAQUE
  {
    var c := JuliaConstant(mouse, size, scale, offset);
    var ps := seq(size * size, j requires 0 <= j < size * size => JuliaPixel(j, size, c, palette));
    FlattenLayout(ps);
    var bytes := JuliaBytes(size, mouse, scale, offset, palette);
    assert bytes[4 * i .. 4 * i + 4] == Bytes(ps[i]) by {
      forall k | 0 <= k < 4 ensures bytes[4 * i + k] == Bytes(ps[i])[k] { }
    }
  }

  /** Zooming and panning change the Julia texture only through the constant they pick. */
  lemma JuliaDependsOnViewOnlyThroughConstant(size: nat, mouse: (real, real), palette: Palette,
                                              scale1: real, offset1: Complex, scale2: real, offset2: Complex)
    requires size > 0
    requires JuliaConstant(mouse, size, scale1, offset1) == JuliaConstant(mouse, size, scale2, offset2)
    ensures JuliaBytes(size, mouse, scale1, offset1, palette) == JuliaBytes(size, mouse, scale2, offset2, palette)
  {
  }

  /** At the start-up view (scale 4, no pan) on a 400-pixel panel, pixel (250, 200) shows `c = 0` and is black. */
  lemma StartViewCentreIsInterior(palette: Palette)
    ensures |MandelbrotBytes(400, BASE_SCALE, ZERO, palette)| == 640000
    ensures MandelbrotBytes(400, BASE_SCALE, ZERO, palette)[321000 .. 321004] == [0, 0, 0, 255]
  {
    MandelbrotLayout(400, BASE_SCALE, ZERO, palette, 80250);
    assert 80250 % 400 == 250 && 80250 / 400 == 200;
    CentreViewPoint();
    OriginNeverEscapes();
  }

  lemma CentreViewPoint()
    ensures ViewPoint(250.0, 200.0, 400, BASE_SCALE, ZERO) == ZERO
  {
    assert 250.0 / 400.0 * 4.0 == 2.5;
    assert 200.0 / 400.0 * 4.0 == 2.0;
  }

  /** At the start-up view the corner pixel (0, 0) shows `c = -2.5 - 2i`, which escapes after one step and takes the palette colour. */
  lemma StartViewCornerEscapes(palette: Palette)
    ensures |MandelbrotBytes(400, BASE_SCALE, ZERO, palette)| == 640000
    ensures MandelbrotBytes(400, BASE_SCALE, ZERO, palette)[0 .. 4]
            == [palette(1).red, palette(1).green, palette(1).blue, 255]
  {
    MandelbrotLayout(400, BASE_SCALE, ZERO, palette, 0);
    var c := ViewPoint(0.0, 0.0, 400, BASE_SCALE, ZERO);
    assert c == Complex(-2.5, -2.0);
    CornerOutsideDisk();
    FarParameterEscapesAtOnce(c);
  }

  lemma CornerOutsideDisk()
    ensures !InDisk(Complex(-2.5, -2.0))
  {
  }

  // ---------------------------------------------------------------------
  // Zoom, pan and the change-detection cache

  /** Mouse-wheel zoom: -1 doubles the scale, +1 halves it, anything else keeps it; there is no floor. */
  function Zoom(scale: real, wheel: real): (r: real)
    ensures scale > 0.0 ==> r > 0.0
    ensures scale > 0.0 && wheel == -1.0 ==> r > scale
    ensures scale > 0.0 && wheel == 1.0 ==> r < scale
    ensures wheel != -1.0 && wheel != 1.0 ==> r == scale
  {
    if wheel == -1.0 then scale * 2.0
    else if wheel == 1.0 then scale / 2.0
    else scale
  }

  /** Zooming out then in, or in then out, returns to the same scale. */
  lemma ZoomRoundTrip(scale: real)
    ensures Zoom(Zoom(scale, -1.0), 1.0) == scale
    ensures Zoom(Zoom(scale, 1.0), -1.0) == scale
  {
  }

  /** The arrow keys held this frame; Left beats Right and Up beats Down. */
  datatype Keys = Keys(left: bool, right: bool, up: bool, down: bool)

  const NO_KEYS: Keys := Keys(false, false, false, false)

  /** Panning by one step of `MoveStep(scale)` per axis. */
  function Pan(offset: Complex, scale: real, keys: Keys): (r: Complex)
  {
    Complex(if keys.left then offset.re - MoveStep(scale)
            else if keys.right then offset.re + MoveStep(scale)
            else offset.re,
            if keys.up then offset.im - MoveStep(scale)
            else if keys.down then offset.im + MoveStep(scale)
            else offset.im)
  }

  /**
   * Each axis moves by exactly one step or not at all, in the direction of
   * the winning key, and the step is proportional to the scale: at half the
   * scale the same keys move half as far.
   */
  lemma PanStep(offset: Complex, scale: real, keys: Keys)
    ensures var r := Pan(offset, scale, keys);
            && (keys.left ==> r.re == offset.re - MoveStep(scale))
            && (!keys.left && keys.right ==> r.re == offset.re + MoveStep(scale))
            && (!keys.left && !keys.right ==> r.re == offset.re)
            && (keys.up ==> r.im == offset.im - MoveStep(scale))
            && (!keys.up && keys.down ==> r.im == offset.im + MoveStep(scale))
            && (!keys.up && !keys.down ==> r.im == offset.im)
    ensures Pan(offset, scale / 2.0, keys).re - offset.re == (Pan(offset, scale, keys).re - offset.re) / 2.0
    ensures Pan(offset, scale / 2.0, keys).im - offset.im == (Pan(offset, scale, keys).im - offset.im) / 2.0
  {
  }

  /** What the Mandelbrot texture was last built from: `scale`, `offset` and panel size. */
  datatype ViewKey = ViewKey(scale: real, offset: Complex, size: nat)

  predicate MandelbrotStale(now: ViewKey, last: ViewKey)
  {
    now.scale != last.scale || now.size != last.size || now.offset != last.offset
  }

  /** The Julia texture also depends on the pointer. */
  predicate JuliaStale(now: ViewKey, mouse: (real, real), last: ViewKey, lastMouse: (real, real))
  {
    now.scale != last.scale || now.size != last.size || mouse != lastMouse || now.offset != last.offset
  }

  /** The field-by-field comparison is value inequality of the keys; a stale Mandelbrot texture makes the Julia one stale too. */
  lemma StaleIsKeyChange(now: ViewKey, mouse: (real, real), last: ViewKey, lastMouse: (real, real))
    ensures MandelbrotStale(now, last) <==> now != last
    ensures JuliaStale(now, mouse, last, lastMouse) <==> (now, mouse) != (last, lastMouse)
    ensures MandelbrotStale(now, last) ==> JuliaStale(now, mouse, last, lastMouse)
  {
  }

  /** A frame with no zoom, no pan and the same panel size and pointer as the last one rebuilds nothing. */
  lemma IdleFrameIsCached(last: ViewKey, mouse: (real, real), wheel: real)
    requires wheel != -1.0 && wheel != 1.0
    ensures var now := ViewKey(Zoom(last.scale, wheel), Pan(last.offset, Zoom(last.scale, wheel), NO_KEYS), last.size);
            !MandelbrotStale(now, last) && !JuliaStale(now, mouse, last, mouse)
  {
  }

  /** The explorer's frame state: the view, the last-seen cache key and the two textures. */
  class Explorer {
    var scale: real
    var offset: Complex
    var lastScale: real
    var lastOffset: Complex
    var lastSize: nat
    var lastMouse: (real, real)
    var mandelbrotTexture: seq<Byte>
    var juliaTexture: seq<Byte>

    ghost predicate Valid()
      reads this
    {
      scale > 0.0
    }

    function LastKey(): ViewKey
      reads this
    {
      ViewKey(lastScale, lastOffset, lastSize)
    }

    /** Start-up state: scale BASE_SCALE, no pan, sentinels that no real frame matches, empty textures. */
    constructor ()
      ensures Valid()
      ensures scale == BASE_SCALE && offset == ZERO
      ensures lastScale == 0.0 && lastOffset == Complex(-1.0, -1.0) && lastSize == 0 && lastMouse == (-1.0, -1.0)
      ensures mandelbrotTexture == [] && juliaTexture == []
    {
      scale := BASE_SCALE;
      offset := ZERO;
      lastScale := 0.0;
      lastOffset := Complex(-1.0, -1.0);
      lastSize := 0;
      lastMouse := (-1.0, -1.0);
      mandelbrotTexture := [];
      juliaTexture := [];
    }

    /**
     * One pass of the frame loop: zoom, then pan with the new scale, then
     * rebuild each texture whose key changed, then record the keys.
     */
    method Frame(width: nat, height: nat, wheel: real, keys: Keys, mouse: (real, real), palette: Palette)
      returns (rebuiltMandelbrot: bool, rebuiltJulia: bool)
      requires Valid()
      modifies this
      ensures Valid()
      ensures scale == Zoom(old(scale), wheel)
      ensures offset == Pan(old(offset), scale, keys)
      ensures var now := ViewKey(scale, offset, PanelSide(width, height));
              && rebuiltMandelbrot == MandelbrotStale(now, old(LastKey()))
              && rebuiltJulia == JuliaStale(now, mouse, old(LastKey()), old(lastMouse))
      ensures mandelbrotTexture
              == if rebuiltMandelbrot then MandelbrotBytes(PanelSide(width, height), scale, offset, palette)
                 else old(mandelbrotTexture)
      ensures juliaTexture
              == if rebuiltJulia then JuliaBytes(PanelSide(width, height), mouse, scale, offset, palette)
                 else old(juliaTexture)
      ensures LastKey() == ViewKey(scale, offset, PanelSide(width, height)) && lastMouse == mouse
      ensures old(lastScale) == 0.0 ==> rebuiltMandelbrot && rebuiltJulia
    {
      var size := PanelSide(width, height);
      Scroll(wheel);
      Move(keys);
      rebuiltMandelbrot, rebuiltJulia := Redraw(size, mouse, palette);
    }

    /** The scroll block: the wheel zooms. */
    method Scroll(wheel: real)
      requires Valid()
      modifies this`scale
      ensures Valid()
      ensures scale == Zoom(old(scale), wheel)
    {
      if wheel == -1.0 {
        scale := scale * 2.0;
      } else if wheel == 1.0 {
        scale := scale / 2.0;
      }
    }

    /** The move block: the arrow keys pan by a step proportional to the current scale. */
    method Move(keys: Keys)
      modifies this`offset
      ensures offset == Pan(old(offset), scale, keys)
    {
      var re, im := offset.re, offset.im;
      if keys.left {
        re := re - MoveStep(scale);
      } else if keys.right {
        re := re + MoveStep(scale);
      }
      if keys.up {
        im := im - MoveStep(scale);
      } else if keys.down {
        im := im + MoveStep(scale);
      }
      offset := Complex(re, im);
    }

    /** The two draw blocks and the bookkeeping after them: rebuild what is stale, then record this frame's keys. */
    method Redraw(size: nat, mouse: (real, real), palette: Palette) returns (rebuiltMandelbrot: bool, rebuiltJulia: bool)
      modifies this`mandelbrotTexture, this`juliaTexture, this`lastScale, this`lastOffset, this`lastSize, this`lastMouse
      ensures rebuiltMandelbrot == MandelbrotStale(ViewKey(scale, offset, size), old(LastKey()))
      ensures rebuiltJulia == JuliaStale(ViewKey(scale, offset, size), mouse, old(LastKey()), old(lastMouse))
      ensures mandelbrotTexture
              == if rebuiltMandelbrot then MandelbrotBytes(size, scale, offset, palette) else old(mandelbrotTexture)
      ensures juliaTexture
              == if rebuiltJulia then JuliaBytes(size, mouse, scale, offset, palette) else old(juliaTexture)
      ensures LastKey() == ViewKey(scale, offset, size) && lastMouse == mouse
    {
      rebuiltMandelbrot := scale != lastScale || size != lastSize || offset != lastOffset;
      if rebuiltMandelbrot {
        mandelbrotTexture := MandelbrotBytes(size, scale, offset, palette);
      }
      rebuiltJulia := scale != lastScale || size != lastSize || mouse != lastMouse || offset != lastOffset;
      if rebuiltJulia {
        juliaTexture := JuliaBytes(size, mouse, scale, offset, palette);
      }

      lastScale := scale;
      lastOffset := offset;
      lastMouse := mouse;
      lastSize := size;
    }
  }
}
