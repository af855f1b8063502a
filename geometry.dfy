/**
 * Integer points, their squared distance, and the `min`/`max` clamps the
 * triangle demos use to keep points in the window and speeds bounded.
 *
 * The demos compare `sqrt(dx^2 + dy^2)` as an `f64`; `sqrt` is monotone,
 * so ordering by, or comparing against a threshold with, the integer
 * squared distance gives the same answers (a threshold `d` becomes `d * d`).
 */
module Geometry {

  /** A pixel position `(x, y)`, Rust's `(i32, i32)`. */
  type Point = (int, int)

  /** A per-frame displacement `(dx, dy)`. */
  type Speed = (int, int)

  /** The fastest a point may move per frame along each axis. */
  const MAX_SPEED: int := 3

  lemma SquareFacts(x: int)
    ensures x * x >= 0
    ensures x * x == 0 <==> x == 0
  {
    if x < 0 {
      assert x * x == (-x) * (-x);
    }
  }

  /** The squared Euclidean distance between two points. */
  function SqDistance(p1: Point, p2: Point): (r: nat)
    ensures r == 0 <==> p1 == p2
  {
    var dx, dy := p2.0 - p1.0, p2.1 - p1.1;
    SquareFacts(dx);
    SquareFacts(dy);
    dx * dx + dy * dy
  }

  /** The distance from `p` as a sort key. */
  function DistanceFrom(p: Point): Point -> int
  {
    q => SqDistance(p, q)
  }

  /** Distance does not depend on the direction it is measured in. */
  lemma DistanceSymmetric(p1: Point, p2: Point)
    ensures SqDistance(p1, p2) == SqDistance(p2, p1)
  {
    var dx, dy := p2.0 - p1.0, p2.1 - p1.1;
    assert (-dx) * (-dx) == dx * dx;
    assert (-dy) * (-dy) == dy * dy;
  }

  function Min(a: int, b: int): (r: int)
    ensures r <= a && r <= b && (r == a || r == b)
  {
    if a <= b then a else b
  }

  function Max(a: int, b: int): (r: int)
    ensures r >= a && r >= b && (r == a || r == b)
  {
    if a >= b then a else b
  }

  /** `v.max(lo).min(hi)`: with `lo <= hi` the result lies in `[lo, hi]` and is `v` whenever `v` already does. */
  lemma ClampRange(v: int, lo: int, hi: int)
    requires lo <= hi
    ensures lo <= Min(Max(v, lo), hi) <= hi
    ensures lo <= v <= hi ==> Min(Max(v, lo), hi) == v
    ensures Min(Max(v, lo), hi) == Max(Min(v, hi), lo)
  {
  }

  /** One speed component after adding a random draw, `(s + d).min(3).max(-3)`. */
  function Jitter(s: int, d: int): (r: int)
    ensures -MAX_SPEED <= r <= MAX_SPEED
    ensures -MAX_SPEED <= s + d <= MAX_SPEED ==> r == s + d
    ensures s + d > MAX_SPEED ==> r == MAX_SPEED
    ensures s + d < -MAX_SPEED ==> r == -MAX_SPEED
  {
    Max(Min(s + d, MAX_SPEED), -MAX_SPEED)
  }
}
