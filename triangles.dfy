/**
 * The first triangles demo: points wander in an 800x600 window with speeds
 * that drift randomly in [-3, 3], and each point is joined to the points
 * nearest to it.
 */
module Triangles {
  import opened Geometry
  import opened StableSort

  const WIDTH: int := 800
  const HEIGHT: int := 600

  /**
   * `nearest(p, list)`: the points of `list` ordered by their distance from
   * `p`, closest first, with ties kept in list order (a stable sort).
   */
  function Nearest(p: Point, list: seq<Point>): (r: seq<Point>)
    ensures |r| == |list|
    ensures multiset(r) == multiset(list)
    ensures forall i, j :: 0 <= i < j < |r| ==> SqDistance(p, r[i]) <= SqDistance(p, r[j])
  {
    SortBySortedPermutation(list, DistanceFrom(p));
    SortBy(list, DistanceFrom(p))
  }

  /** Points at the same distance from `p` come out in their order in `list`. */
  lemma NearestStable(p: Point, list: seq<Point>, d: int)
    ensures FilterKey(Nearest(p, list), DistanceFrom(p), d) == FilterKey(list, DistanceFrom(p), d)
  {
    SortByStable(list, DistanceFrom(p), d);
  }

  /** A point of the list is its own nearest point. */
  lemma NearestStartsAtItself(p: Point, list: seq<Point>)
    requires p in list
    ensures Nearest(p, list)[0] == p
  {
    var r := Nearest(p, list);
    assert p in multiset(list);
    var j :| 0 <= j < |r| && r[j] == p;
    assert SqDistance(p, r[0]) <= SqDistance(p, r[j]);
  }

  /** `random_speeds` for one speed: each component drifts by its draw and is clamped to [-3, 3]. */
  function Drift(s: Speed, d: (int, int)): (r: Speed)
    ensures -MAX_SPEED <= r.0 <= MAX_SPEED && -MAX_SPEED <= r.1 <= MAX_SPEED
    ensures -MAX_SPEED <= s.0 + d.0 <= MAX_SPEED ==> r.0 == s.0 + d.0
    ensures -MAX_SPEED <= s.1 + d.1 <= MAX_SPEED ==> r.1 == s.1 + d.1
  {
    (Jitter(s.0, d.0), Jitter(s.1, d.1))
  }

  /** `move_points` for one point: add the speed, then `.max(0).min(limit)` on each axis. */
  function MovePoint(p: Point, s: Speed): (r: Point)
    ensures 0 <= r.0 <= WIDTH && 0 <= r.1 <= HEIGHT
    ensures 0 <= p.0 + s.0 <= WIDTH ==> r.0 == p.0 + s.0
    ensures 0 <= p.1 + s.1 <= HEIGHT ==> r.1 == p.1 + s.1
  {
    (Min(Max(p.0 + s.0, 0), WIDTH), Min(Max(p.1 + s.1, 0), HEIGHT))
  }

  /**
   * `random_speeds`: every speed drifts by its own pair of draws, which
   * stand for the generator's `-1..=1`; the contract holds for any draw.
   */
  method RandomSpeeds(speeds: array<Speed>, draws: seq<(int, int)>)
    requires |draws| == speeds.Length
    modifies speeds
    ensures forall i :: 0 <= i < speeds.Length ==> speeds[i] == Drift(old(speeds[i]), draws[i])
  {
    var i := 0;
    while i < speeds.Length
      invariant 0 <= i <= speeds.Length
      invariant forall j :: 0 <= j < i ==> speeds[j] == Drift(old(speeds[j]), draws[j])
      invariant forall j :: i <= j < speeds.Length ==> speeds[j] == old(speeds[j])
    {
      speeds[i] := Drift(speeds[i], draws[i]);
      i := i + 1;
    }
  }

  /**
   * `move_points`: point `i` moves by `speeds[i]`; indexing `speeds` needs
   * it to be at least as long, and the borrow rules keep the two apart.
   */
  method MovePoints(points: array<Point>, speeds: array<Speed>)
    requires points != speeds
    requires speeds.Length >= points.Length
    modifies points
    ensures forall i :: 0 <= i < points.Length ==> points[i] == MovePoint(old(points[i]), speeds[i])
  {
    var i := 0;
    while i < points.Length
      invariant 0 <= i <= points.Length
      invariant forall j :: 0 <= j < i ==> points[j] == MovePoint(old(points[j]), speeds[j])
      invariant forall j :: i <= j < points.Length ==> points[j] == old(points[j])
    {
      points[i] := MovePoint(points[i], speeds[i]);
      i := i + 1;
    }
  }

  /** The motion part of a frame: speeds drift first, then points move by the new speeds. */
  method Frame(points: array<Point>, speeds: array<Speed>, draws: seq<(int, int)>)
    requires points != speeds
    requires speeds.Length >= points.Length && |draws| == speeds.Length
    modifies points, speeds
    ensures forall i :: 0 <= i < speeds.Length ==> speeds[i] == Drift(old(speeds[i]), draws[i])
    ensures forall i :: 0 <= i < points.Length
              ==> points[i] == MovePoint(old(points[i]), Drift(old(speeds[i]), draws[i]))
  {
    RandomSpeeds(speeds, draws);
    MovePoints(points, speeds);
  }
}
