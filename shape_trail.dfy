/**
 * The shape-trail demo (the fourth triangles program): polygons fall from
 * the top of a 1200x1000 window, each leaving a fading trail. Every frame a
 * new head may be added, spent and fallen shapes are dropped, every shape
 * fades by one, and each shape in its first frame spawns one successor one
 * pixel lower.
 */
module ShapeTrail {

  const WIDTH: real := 1200.0
  const HEIGHT: real := 1000.0

  /** The cap on the list length below which a new head may be added. */
  const MAX_SHAPES: nat := 7 * 200

  /** `LENGTH_RANGE`: a trail is 150 to 249 frames long. */
  const MIN_LENGTH: nat := 150
  const MAX_LENGTH: nat := 250

  /** `TAU / CIRCLE_STEPS`: a 720th of a full turn (`TAU` as the nearest `f64` to 2 pi). */
  const ANGLE_STEP: real := 6.283185307179586 / 720.0

  /** A polygon of the trail; `color` counts down from `length` to 0. */
  datatype Shape = Shape(pos: (real, real), sides: nat, size: real, angle: real, color: nat, length: nat)

  /** `new_head`: a shape whose countdown starts full, `color == length`. */
  function NewHead(pos: (real, real), sides: nat, size: real, angle: real, length: nat): (s: Shape)
    ensures s.color == length && s.length == length
    ensures s.pos == pos && s.sides == sides && s.size == size && s.angle == angle
  {
    Shape(pos, sides, size, angle, length, length)
  }

  /** The first `retain`: the countdown has not run out. */
  predicate Lit(s: Shape)
  {
    s.color != 0
  }

  /** The second `retain`: the shape's top edge is still above the bottom of the window. */
  predicate OnScreen(s: Shape)
  {
    s.pos.1 - s.size < HEIGHT
  }

  /** `color == length - 1`: the shape has just faded once since it was made. */
  predicate Spawning(s: Shape)
  {
    s.color + 1 == s.length
  }

  /** `retain`: the elements that pass `keep`, in their original order. */
  function Filter(s: seq<Shape>, keep: Shape -> bool): (r: seq<Shape>)
    ensures |r| <= |s|
    ensures forall x :: x in r <==> x in s && keep(x)
  {
    if s == [] then [] else (if keep(s[0]) then [s[0]] else []) + Filter(s[1..], keep)
  }

  /** Filtering a list in two parts filters each part in place: survivors keep their relative order. */
  lemma {:induction false} FilterAppend(a: seq<Shape>, b: seq<Shape>, keep: Shape -> bool)
    ensures Filter(a + b, keep) == Filter(a, keep) + Filter(b, keep)
  {
    if a == [] {
      assert a + b == b;
    } else {
      assert (a + b)[1..] == a[1..] + b;
      FilterAppend(a[1..], b, keep);
    }
  }

  /** The decrement: every shape fades by one, which needs every countdown to be non-zero. */
  function Dimmed(s: seq<Shape>): (r: seq<Shape>)
    requires forall i :: 0 <= i < |s| ==> Lit(s[i])
    ensures |r| == |s|
    ensures forall i :: 0 <= i < |r| ==> r[i].color + 1 == s[i].color && r[i] == s[i].(color := r[i].color)
  {
    if s == [] then []
    else
      assert Lit(s[0]);
      [s[0].(color := s[0].color - 1)] + Dimmed(s[1..])
  }

  /**
   * The successor of a spawning shape: one pixel lower, same sides, a full
   * countdown. The constructor's arguments are given in the order
   * (angle + step, size), so the successor's size is the parent's angle
   * plus a step and its angle is the parent's size.
   */
  function Child(s: Shape): (c: Shape)
    ensures c.pos == (s.pos.0, s.pos.1 + 1.0) && c.sides == s.sides
    ensures c.size == s.angle + ANGLE_STEP && c.angle == s.size
    ensures c.color == s.length && c.length == s.length
  {
    Shape((s.pos.0, s.pos.1 + 1.0), s.sides, s.angle + ANGLE_STEP, s.size, s.length, s.length)
  }

  /**
   * The successors of the spawning shapes: exactly one child per spawning
   * shape, in list order.
   */
  function Offspring(s: seq<Shape>): (r: seq<Shape>)
    ensures |r| == |Filter(s, Spawning)| <= |s|
    ensures forall i :: 0 <= i < |r| ==> r[i] == Child(Filter(s, Spawning)[i])
    ensures forall c :: c in r <==> exists x :: x in s && Spawning(x) && c == Child(x)
  {
    if s == [] then []
    else
      var rest := Offspring(s[1..]);
      if Spawning(s[0]) then [Child(s[0])] + rest else rest
  }

  /** Spawning acts on each part of a list in place: the children of a split list are the children of each part, in order. */
  lemma {:induction false} OffspringAppend(a: seq<Shape>, b: seq<Shape>)
    ensures Offspring(a + b) == Offspring(a) + Offspring(b)
  {
    if a == [] {
      assert a + b == b;
    } else {
      assert (a + b)[1..] == a[1..] + b;
      OffspringAppend(a[1..], b);
    }
  }

  /** The shapes that survive both `retain`s. */
  function Survivors(s: seq<Shape>): (r: seq<Shape>)
    ensures forall x :: x in r <==> x in s && Lit(x) && OnScreen(x)
    ensures forall i :: 0 <= i < |r| ==> Lit(r[i])
  {
    Filter(Filter(s, Lit), OnScreen)
  }

  /** A frame's list update after the head step: retain, retain, decrement, extend. */
  function Step(s: seq<Shape>): (r: seq<Shape>)
  {
    var d := Dimmed(Survivors(s));
    d + Offspring(d)
  }

  /** Every shape has a countdown no longer than its trail, and a trail long enough that `length - 1` does not underflow. */
  ghost predicate WellFormed(s: seq<Shape>)
  {
    forall i :: 0 <= i < |s| ==> 1 <= s[i].length && s[i].color <= s[i].length
  }

  /**
   * After a step, the surviving shapes come first and none of them can
   * spawn again (their countdown is below their length); the appended
   * successors have full countdowns.
   */
  lemma StepAges(s: seq<Shape>)
    requires WellFormed(s)
    ensures WellFormed(Step(s))
    ensures var n := |Survivors(s)|;
            n <= |Step(s)|
            && (forall i :: 0 <= i < n ==> Step(s)[i].color < Step(s)[i].length)
            && (forall i :: n <= i < |Step(s)| ==> Step(s)[i].color == Step(s)[i].length)
  {
    var v := Survivors(s);
    var d := Dimmed(v);
    var r := d + Offspring(d);
    forall i | 0 <= i < |d|
      ensures 1 <= d[i].length && d[i].color < d[i].length
    {
      assert v[i] in s;
    }
    forall i | |d| <= i < |r|
      ensures 1 <= r[i].length && r[i].color == r[i].length
    {
      assert r[i] in Offspring(d);
      var x :| x in d && Spawning(x) && r[i] == Child(x);
    }
  }

  /** A surviving shape spawns in a step exactly when its countdown is still full, so it spawns once, in its first step. */
  lemma SpawnsOnlyWhenFresh(s: Shape)
    requires Lit(s)
    ensures Spawning(s.(color := s.color - 1)) <==> s.color == s.length
  {
  }

  /** The head a frame may add: the random draws for its position, sides, size and length. */
  datatype HeadDraw = HeadDraw(x: real, sides: nat, size: real, length: nat)

  /** What the generator guarantees about a head. */
  ghost predicate ValidHeadDraw(h: HeadDraw)
  {
    0.0 <= h.x < WIDTH && 3 <= h.sides < 7 && 30.0 <= h.size < 50.0 && MIN_LENGTH <= h.length < MAX_LENGTH
  }

  /** A head starts just above the window, a size's height up, unrotated. */
  function Head(h: HeadDraw): Shape
  {
    NewHead((h.x, -h.size), h.sides, h.size, 0.0, h.length)
  }

  /** The frame loop's shape list and the flag the timer thread sets. */
  class Trail {
    var shapes: seq<Shape>
    var createHead: bool

    ghost predicate Valid()
      reads this
    {
      WellFormed(shapes)
    }

    constructor ()
      ensures Valid() && shapes == [] && !createHead
    {
      shapes := [];
      createHead := false;
    }

    /** The timer thread's store of `true`. */
    method RequestHead()
      modifies this`createHead
      ensures createHead
    {
      createHead := true;
    }

    /** The head block: a raised flag is always cleared, and a head is pushed only while the list is below the cap. */
    method AddHead(h: HeadDraw)
      requires Valid() && ValidHeadDraw(h)
      modifies this
      ensures Valid() && !createHead
      ensures shapes == if old(createHead) && |old(shapes)| < MAX_SHAPES then old(shapes) + [Head(h)] else old(shapes)
    {
      if createHead {
        createHead := false;
        if |shapes| < MAX_SHAPES {
          shapes := shapes + [Head(h)];
        }
      }
    }

    /** `retain(keep)`: drops the shapes that fail `keep`, keeping the others in order. */
    method Retain(keep: Shape -> bool)
      modifies this`shapes
      ensures shapes == Filter(old(shapes), keep)
    {
      var kept: seq<Shape> := [];
      var i := |shapes|;
      while i > 0
        invariant 0 <= i <= |shapes|
        invariant kept == Filter(shapes[i..], keep)
      {
        i := i - 1;
        assert shapes[i..][1..] == shapes[i + 1..];
        kept := (if keep(shapes[i]) then [shapes[i]] else []) + kept;
      }
      assert shapes[0..] == shapes;
      shapes := kept;
    }

    /** The decrement loop; the `retain` before it guarantees no countdown is zero. */
    method Decrement()
      requires forall i :: 0 <= i < |shapes| ==> Lit(shapes[i])
      modifies this`shapes
      ensures shapes == Dimmed(old(shapes))
    {
      var i := 0;
      while i < |shapes|
        invariant 0 <= i <= |shapes| && |shapes| == |old(shapes)|
        invariant forall j :: 0 <= j < i ==> shapes[j] == old(shapes)[j].(color := old(shapes)[j].color - 1)
        invariant forall j :: i <= j < |shapes| ==> shapes[j] == old(shapes)[j]
      {
        shapes := shapes[i := shapes[i].(color := shapes[i].color - 1)];
        i := i + 1;
      }
      var d := Dimmed(old(shapes));
      assert forall j :: 0 <= j < |shapes| ==> shapes[j] == d[j];
    }

    /** `extend`: the successors of the spawning shapes go at the end of the list. */
    method Extend()
      modifies this`shapes
      ensures shapes == old(shapes) + Offspring(old(shapes))
    {
      var born: seq<Shape> := [];
      var i := |shapes|;
      while i > 0
        invariant 0 <= i <= |shapes|
        invariant born == Offspring(shapes[i..])
      {
        i := i - 1;
        assert shapes[i..][1..] == shapes[i + 1..];
        if Spawning(shapes[i]) {
          born := [Child(shapes[i])] + born;
        }
      }
      assert shapes[0..] == shapes;
      shapes := shapes + born;
    }

    /** One frame without the drawing: the head block, then the list update. */
    method Frame(h: HeadDraw)
      requires Valid() && ValidHeadDraw(h)
      modifies this
      ensures Valid() && !createHead
      ensures var added := if old(createHead) && |old(shapes)| < MAX_SHAPES then old(shapes) + [Head(h)] else old(shapes);
              shapes == Step(added)
    {
      AddHead(h);
      ghost var added := shapes;
      Retain(Lit);
      Retain(OnScreen);
      Decrement();
      Extend();
      StepAges(added);
    }
  }
}
