/**
 * The second triangles demo: a hundred particles drift in a 1200x1000
 * window; each frame every particle moves by its speed, its speed drifts,
 * and a particle whose two nearest neighbours are close to it and to each
 * other is drawn as a triangle with them.
 */
module Triangles2 {
  import opened Geometry
  import opened StableSort

  const WIDTH: int := 1200
  const HEIGHT: int := 1000

  /** `TRIANGLE_DISTANCE` is 100; squared, since distances here are squared. */
  const TRIANGLE_SQ_DISTANCE: int := 100 * 100

  /** A point paired with its (squared) distance from a reference point. */
  type Measured = (Point, int)

  /** A particle: its position and its speed. */
  type Particle = (Point, Speed)

  /** The sort key of a measured point: its distance. */
  function Dist(e: Measured): int
  {
    e.1
  }

  /** `compute_distance`: every point, in order, paired with its distance from `p`. */
  function ComputeDistance(p: Point, points: seq<Point>): (r: seq<Measured>)
    ensures |r| == |points|
    ensures forall i :: 0 <= i < |r| ==> r[i].0 == points[i] && r[i].1 == SqDistance(p, points[i])
  {
    if points == [] then []
    else [(points[0], SqDistance(p, points[0]))] + ComputeDistance(p, points[1..])
  }

  /**
   * `sort_by_distance`: the measured points sorted by distance. Sorting
   * only rearranges the pairs, so every pair still carries the true
   * distance of its point, and the points are those of `points`.
   */
  function SortByDistance(p: Point, points: seq<Point>): (r: seq<Measured>)
    ensures |r| == |points|
    ensures multiset(r) == multiset(ComputeDistance(p, points))
    ensures forall i, j :: 0 <= i < j < |r| ==> r[i].1 <= r[j].1
    ensures forall i :: 0 <= i < |r| ==> r[i].0 in points && r[i].1 == SqDistance(p, r[i].0)
  {
    var measured := ComputeDistance(p, points);
    SortBySortedPermutation(measured, Dist);
    var r := SortBy(measured, Dist);
    MeasuredEntries(p, points, r);
    r
  }

  /** Any rearrangement of the measured points pairs each point of `points` with its true distance. */
  lemma MeasuredEntries(p: Point, points: seq<Point>, r: seq<Measured>)
    requires multiset(r) == multiset(ComputeDistance(p, points))
    ensures forall i :: 0 <= i < |r| ==> r[i].0 in points && r[i].1 == SqDistance(p, r[i].0)
  {
    var measured := ComputeDistance(p, points);
    forall i | 0 <= i < |r|
      ensures r[i].0 in points && r[i].1 == SqDistance(p, r[i].0)
    {
      assert r[i] in multiset(measured);
      var k :| 0 <= k < |measured| && measured[k] == r[i];
    }
  }

  /** Entries at the same distance come out in their input order. */
  lemma SortByDistanceStable(p: Point, points: seq<Point>, d: int)
    ensures FilterKey(SortByDistance(p, points), Dist, d) == FilterKey(ComputeDistance(p, points), Dist, d)
  {
    SortByStable(ComputeDistance(p, points), Dist, d);
  }

  /** Each particle is one of the points, so the first entry is the particle itself at distance 0. */
  lemma SortByDistanceStartsAtItself(p: Point, points: seq<Point>)
    requires p in points
    ensures SortByDistance(p, points)[0] == (p, 0)
  {
    var r := SortByDistance(p, points);
    var k :| 0 <= k < |points| && points[k] == p;
    var measured := ComputeDistance(p, points);
    assert measured[k] in multiset(r);
    var j :| 0 <= j < |r| && r[j] == measured[k];
  }

  /** The triangle test on the sorted list of a particle (which indexes it, so it has at least three entries). */
  predicate DrawsTriangle(nearest: seq<Measured>)
    requires |nearest| >= 3
  {
    nearest[1].1 < TRIANGLE_SQ_DISTANCE
    && nearest[2].1 < TRIANGLE_SQ_DISTANCE
    && SqDistance(nearest[1].0, nearest[2].0) < TRIANGLE_SQ_DISTANCE
  }

  /** A triangle is drawn exactly when its three corners are pairwise closer than 100. */
  lemma TriangleIsSmall(p: Point, points: seq<Point>)
    requires |points| >= 3
    ensures var r := SortByDistance(p, points);
            DrawsTriangle(r)
            <==> SqDistance(p, r[1].0) < TRIANGLE_SQ_DISTANCE
                 && SqDistance(p, r[2].0) < TRIANGLE_SQ_DISTANCE
                 && SqDistance(r[1].0, r[2].0) < TRIANGLE_SQ_DISTANCE
  {
  }

  /** Start-up: a position anywhere in the window (both edges included) and a speed in [-1, 1]. */
  predicate Initial(pt: Particle)
  {
    0 <= pt.0.0 <= WIDTH && 0 <= pt.0.1 <= HEIGHT && -1 <= pt.1.0 <= 1 && -1 <= pt.1.1 <= 1
  }

  /** What every frame keeps: the position in the window and the speed within [-3, 3]. */
  predicate Bounded(pt: Particle)
  {
    0 <= pt.0.0 <= WIDTH && 0 <= pt.0.1 <= HEIGHT
    && -MAX_SPEED <= pt.1.0 <= MAX_SPEED && -MAX_SPEED <= pt.1.1 <= MAX_SPEED
  }

  /**
   * One particle's frame update: the position moves by the OLD speed and is
   * clamped with `.min(limit).max(0)`, then the speed drifts by the draws.
   */
  function Advance(pt: Particle, d: (int, int)): (r: Particle)
    ensures Bounded(r)
    ensures 0 <= pt.0.0 + pt.1.0 <= WIDTH ==> r.0.0 == pt.0.0 + pt.1.0
    ensures 0 <= pt.0.1 + pt.1.1 <= HEIGHT ==> r.0.1 == pt.0.1 + pt.1.1
    ensures -MAX_SPEED <= pt.1.0 + d.0 <= MAX_SPEED ==> r.1.0 == pt.1.0 + d.0
    ensures -MAX_SPEED <= pt.1.1 + d.1 <= MAX_SPEED ==> r.1.1 == pt.1.1 + d.1
  {
    var (p, s) := pt;
    ((Max(Min(p.0 + s.0, WIDTH), 0), Max(Min(p.1 + s.1, HEIGHT), 0)),
     (Jitter(s.0, d.0), Jitter(s.1, d.1)))
  }

  /** A freshly spawned particle already satisfies the bound every frame keeps. */
  lemma InitialIsBounded(pt: Particle)
    requires Initial(pt)
    ensures Bounded(pt)
  {
  }

  /** The frame's update loop over all particles. */
  method Update(points: array<Particle>, draws: seq<(int, int)>)
    requires |draws| == points.Length
    modifies points
    ensures forall i :: 0 <= i < points.Length ==> points[i] == Advance(old(points[i]), draws[i])
    ensures forall i :: 0 <= i < points.Length ==> Bounded(points[i])
  {
    var i := 0;
    while i < points.Length
      invariant 0 <= i <= points.Length
      invariant forall j :: 0 <= j < i ==> points[j] == Advance(old(points[j]), draws[j])
      invariant forall j :: i <= j < points.Length ==> points[j] == old(points[j])
    {
      points[i] := Advance(points[i], draws[i]);
      i := i + 1;
    }
  }
}
