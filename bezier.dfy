/**
 * The Bezier-curve demo: the user clicks control points, and every frame
 * the curve through them is sampled at 1000 parameters by de Casteljau's
 * repeated linear interpolation, each sample coloured by a rainbow
 * iterator that walks the hue circle one degree at a time.
 */
module Bezier {
  import opened Wrappers
  import opened Pixels

  // ---------------------------------------------------------------------
  // The rainbow iterator

  /** The hue circle, in whole degrees. */
  const HUES: nat := 360

  /** The hue after one step: up by one degree, 360 wrapping to 0. */
  function NextHue(hue: nat): (r: nat)
    ensures r < HUES
    ensures hue + 1 < HUES ==> r == hue + 1
    ensures hue + 1 >= HUES ==> r == 0
  {
    if hue + 1 >= HUES then 0 else hue + 1
  }

  /**
   * The colour of a hue: six 60-degree segments, in each of which one
   * channel ramps by four per degree while one channel is full and one is
   * empty. Alpha is always 255.
   */
  function HueColor(h: nat): (c: Rgba)
    requires h < HUES
    ensures c.a == OPAQUE
    ensures c.r == 255 || c.g == 255 || c.b == 255
    ensures c.r == 0 || c.g == 0 || c.b == 0
    ensures h == 0 ==> c == Rgba(255, 0, 0, 255)
  {
    if h < 60 then Rgba(255, h * 4, 0, 255)
    else if h < 120 then Rgba(255 - (h - 60) * 4, 255, 0, 255)
    else if h < 180 then Rgba(0, 255, (h - 120) * 4, 255)
    else if h < 240 then Rgba(0, 255 - (h - 180) * 4, 255, 255)
    else if h < 300 then Rgba((h - 240) * 4, 0, 255, 255)
    else Rgba(255, 0, 255 - (h - 300) * 4, 255)
  }

  /** Starting from a hue on the circle, `k` steps land `k` degrees further round it. */
  lemma {:induction false} NextHueIterated(hue: nat, k: nat)
    requires hue < HUES
    ensures HueAfter(hue, k) == (hue + k) % HUES
  {
    if k > 0 {
      NextHueIterated(hue, k - 1);
    }
  }

  /** The hue after `k` steps. */
  function HueAfter(hue: nat, k: nat): nat
  {
    if k == 0 then hue else NextHue(HueAfter(hue, k - 1))
  }

  /** The rainbow's colours repeat every 360 steps. */
  lemma RainbowCycle(hue: nat)
    requires hue < HUES
    ensures HueAfter(hue, HUES) == hue
  {
    NextHueIterated(hue, HUES);
  }

  /** `Raimbow`: an endless iterator over hue colours. */
  class Rainbow {
    var hue: nat

    /** `Raimbow::new`. */
    constructor (hue: nat)
      ensures this.hue == hue
    {
      this.hue := hue;
    }

    /** `next`: step the hue (the `u16` increment must not overflow) and always yield its colour. */
    method Next() returns (c: Option<Rgba>)
      requires hue < 0xFFFF
      modifies this
      ensures hue == NextHue(old(hue))
      ensures c == Some(HueColor(hue))
    {
      hue := hue + 1;
      if hue >= HUES {
        hue := 0;
      }
      c := Some(HueColor(hue));
    }
  }

  // ---------------------------------------------------------------------
  // de Casteljau

  /** A point of the plane. */
  type Vec2 = (real, real)

  /** `bezier(p0, p1, t)`: the point a fraction `t` of the way from `p0` to `p1`. */
  function Lerp(p0: Vec2, p1: Vec2, t: real): Vec2
  {
    (p0.0 + (p1.0 - p0.0) * t, p0.1 + (p1.1 - p0.1) * t)
  }

  /** The interpolation starts at `p0` and ends at `p1`. */
  lemma LerpEnds(p0: Vec2, p1: Vec2)
    ensures Lerp(p0, p1, 0.0) == p0
    ensures Lerp(p0, p1, 1.0) == p1
  {
  }

  /** One level of the recursion: the interpolations of each neighbouring pair, one point fewer. */
  function Level(points: seq<Vec2>, t: real): (r: seq<Vec2>)
    ensures |r| == if |points| == 0 then 0 else |points| - 1
    ensures forall i :: 0 <= i < |r| ==> r[i] == Lerp(points[i], points[i + 1], t)
  {
    if |points| < 2 then [] else [Lerp(points[0], points[1], t)] + Level(points[1..], t)
  }

  /**
   * `recurse_bezier`: repeat levels until one point is left. Zero or one
   * control point gives the origin, not the point itself.
   */
  function DeCasteljau(points: seq<Vec2>, t: real): Vec2
    decreases |points|
  {
    var computed := Level(points, t);
    if |computed| > 1 then DeCasteljau(computed, t)
    else if |computed| == 1 then computed[0]
    else (0.0, 0.0)
  }

  /** The short cases: the origin for fewer than two points, the interpolation for two. */
  lemma DeCasteljauShort(points: seq<Vec2>, t: real)
    ensures |points| <= 1 ==> DeCasteljau(points, t) == (0.0, 0.0)
    ensures |points| == 2 ==> DeCasteljau(points, t) == Lerp(points[0], points[1], t)
  {
  }

  /** With two or more control points the curve starts at the first and ends at the last. */
  lemma {:induction false} DeCasteljauEnds(points: seq<Vec2>)
    requires |points| >= 2
    ensures DeCasteljau(points, 0.0) == points[0]
    ensures DeCasteljau(points, 1.0) == points[|points| - 1]
    decreases |points|
  {
    var n := |points|;
    var first, last := Level(points, 0.0), Level(points, 1.0);
    forall i | 0 <= i < n - 1
      ensures first[i] == points[i] && last[i] == points[i + 1]
    {
      LerpEnds(points[i], points[i + 1]);
    }
    if n > 2 {
      DeCasteljauEnds(first);
      DeCasteljauEnds(last);
    }
  }

  /** The collecting loop of `recurse_bezier`: each point paired with the one after it, if any. */
  method ComputeLevel(points: seq<Vec2>, t: real) returns (computed: seq<Vec2>)
    ensures computed == Level(points, t)
  {
    computed := [];
    var i := 0;
    // the last point has no successor and adds nothing
    while i + 1 < |points|
      invariant 0 <= i <= if |points| == 0 then 0 else |points| - 1
      invariant |computed| == i
      invariant forall j :: 0 <= j < i ==> computed[j] == Lerp(points[j], points[j + 1], t)
    {
      computed := computed + [Lerp(points[i], points[i + 1], t)];
      i := i + 1;
    }
    var spec := Level(points, t);
    assert |computed| == |spec|;
    forall j | 0 <= j < |computed|
      ensures computed[j] == spec[j]
    {
      assert computed[j] == Lerp(points[j], points[j + 1], t);
    }
  }

  /** `recurse_bezier` itself: one level, then recurse while more than one point is left. */
  method RecurseBezier(points: seq<Vec2>, t: real) returns (p: Vec2)
    ensures p == DeCasteljau(points, t)
    decreases |points|
  {
    var computed := ComputeLevel(points, t);
    if |computed| > 1 {
      p := RecurseBezier(computed, t);
    } else if |computed| == 1 {
      p := computed[0];
    } else {
      p := (0.0, 0.0);
    }
  }

  // ---------------------------------------------------------------------
  // The frame loop

  /** How many parameters `t = k / 1000` a frame samples. */
  const SAMPLES: nat := 1000

  /** The mouse buttons a frame sees. */
  datatype Buttons = Buttons(leftPressed: bool, rightPressed: bool, middleDown: bool)

  /** The list after the click handling: a left click adds the pointer, otherwise a right click removes the last point (if any). */
  function Clicked(points: seq<Vec2>, b: Buttons, mouse: Vec2): seq<Vec2>
  {
    if b.leftPressed then points + [mouse]
    else if b.rightPressed && |points| > 0 then points[..|points| - 1]
    else points
  }

  /** The control points the curve is drawn through: a held middle button adds the pointer for this frame. */
  function Drawn(points: seq<Vec2>, b: Buttons, mouse: Vec2): seq<Vec2>
  {
    var p := Clicked(points, b, mouse);
    if b.middleDown then p + [mouse] else p
  }

  /**
   * The sampling loop: the curve through `points` at `k / 1000` for each
   * `k`, coloured by a fresh rainbow started at hue 1 and advanced before
   * each use, so sample `k` has hue `k + 2` round the circle.
   */
  method Sample(points: seq<Vec2>) returns (samples: seq<(Vec2, Rgba)>)
    ensures |samples| == SAMPLES
    ensures forall k :: 0 <= k < SAMPLES ==>
              samples[k] == (DeCasteljau(points, k as real / 1000.0), HueColor((k + 2) % HUES))
  {
    var color := new Rainbow(1);
    samples := [];
    var k := 0;
    NextHueIterated(1, 0);
    while k < SAMPLES
      invariant 0 <= k <= SAMPLES
      invariant color.hue == HueAfter(1, k)
      invariant |samples| == k
      invariant forall j :: 0 <= j < k ==>
                  samples[j] == (DeCasteljau(points, j as real / 1000.0), HueColor((j + 2) % HUES))
    {
      var p := RecurseBezier(points, k as real / 1000.0);
      var c := color.Next();
      NextHueIterated(1, k + 1);
      samples := samples + [(p, c.value)];
      k := k + 1;
    }
  }

  /** The control points of the curve being edited. */
  class Curve {
    var points: seq<Vec2>

    constructor ()
      ensures points == []
    {
      points := [];
    }

    /**
     * One frame: handle the clicks, push the pointer while the middle
     * button is held, sample the curve, and pop the middle point again.
     */
    method Frame(b: Buttons, mouse: Vec2) returns (samples: seq<(Vec2, Rgba)>)
      modifies this
      ensures points == Clicked(old(points), b, mouse)
      ensures |samples| == SAMPLES
      ensures forall k :: 0 <= k < SAMPLES ==>
                samples[k] == (DeCasteljau(Drawn(old(points), b, mouse), k as real / 1000.0), HueColor((k + 2) % HUES))
    {
      if b.leftPressed {
        points := points + [mouse];
      } else if b.rightPressed && |points| > 0 {
        points := points[..|points| - 1];
      }
      ghost var clicked := points;
      if b.middleDown {
        points := points + [mouse];
      }

      samples := Sample(points);

      if b.middleDown {
        points := points[..|points| - 1];
      }
      assert points == clicked;
    }
  }
}
