/**
 * The animation systems of the circle-and-triangle scene. Each frame, every
 * shape carrying an infinite animation component moves, grows, turns or
 * spins by a constant; every shape carrying an "animate to" component moves
 * a `1 / steps` fraction of the way to its goal and counts `steps` down, and
 * when the count is exhausted the component is removed and the shape's
 * animation index, if it has one, advances to the next animation of the
 * chain.
 */
module Anim {
  import opened Wrappers

  // ---------------------------------------------------------------------
  // Vectors and quaternions

  /** A three-component vector (`Vec3`), over the reals. */
  datatype Vec3 = Vec3(x: real, y: real, z: real)

  function Add(a: Vec3, b: Vec3): Vec3
  {
    Vec3(a.x + b.x, a.y + b.y, a.z + b.z)
  }

  /** `lerp`: the point a fraction `s` of the way from `a` to `b`. */
  function Lerp(a: Vec3, b: Vec3, s: real): Vec3
  {
    Vec3(a.x + (b.x - a.x) * s, a.y + (b.y - a.y) * s, a.z + (b.z - a.z) * s)
  }

  /** The interpolation starts at `a` and, at the fraction one, lands exactly on `b` (the 3-D counterpart of the Bezier demo's planar lerp). */
  lemma LerpEnds(a: Vec3, b: Vec3)
    ensures Lerp(a, b, 0.0) == a
    ensures Lerp(a, b, 1.0) == b
  {
  }

  /** A rotation quaternion, `(x, y, z, w)`. */
  datatype Quat = Quat(x: real, y: real, z: real, w: real)

  const IDENTITY: Quat := Quat(0.0, 0.0, 0.0, 1.0)

  /** The Hamilton product `p * q`: rotating by `q`, then by `p`. */
  function Mul(p: Quat, q: Quat): Quat
  {
    Quat(p.w * q.x + p.x * q.w + p.y * q.z - p.z * q.y,
         p.w * q.y - p.x * q.z + p.y * q.w + p.z * q.x,
         p.w * q.z + p.x * q.y - p.y * q.x + p.z * q.w,
         p.w * q.w - p.x * q.x - p.y * q.y - p.z * q.z)
  }

  /** Spinning by the identity (a turn of speed zero) leaves a rotation as it was. */
  lemma MulIdentity(q: Quat)
    ensures Mul(IDENTITY, q) == q && Mul(q, IDENTITY) == q
  {
  }

  // ---------------------------------------------------------------------
  // Animation chaining

  /** Which animation of a chain a shape is on, the chain's length if known, and whether it loops. */
  datatype AnimationIndex = AnimationIndex(index: nat, max: Option<nat>, looping: bool)

  /**
   * The index after an animation ends: one more, except that a looping
   * chain that reaches its length starts again at 0. A chain that does not
   * loop, or whose length is unknown, keeps counting past the end.
   */
  function Advanced(a: AnimationIndex): (r: AnimationIndex)
    ensures r.max == a.max && r.looping == a.looping
    ensures r.index == 0 <==> a.looping && a.max == Some(a.index + 1)
    ensures r.index != 0 ==> r.index == a.index + 1
  {
    var index := a.index + 1;
    if a.max.Some? && index == a.max.value && a.looping then a.(index := 0) else a.(index := index)
  }

  /** `update_animation_index`: a shape without an index is left alone. */
  function UpdateAnimationIndex(a: Option<AnimationIndex>): (r: Option<AnimationIndex>)
    ensures a.None? ==> r.None?
    ensures a.Some? ==> r.Some? && r.value.index == (if a.value.looping && a.value.max == Some(a.value.index + 1) then 0 else a.value.index + 1)
  {
    match a
    case None => None
    case Some(i) => Some(Advanced(i))
  }

  /** The index after `k` animations end. */
  function AdvancedBy(a: AnimationIndex, k: nat): AnimationIndex
  {
    if k == 0 then a else Advanced(AdvancedBy(a, k - 1))
  }

  /** In a looping chain of known length `m`, the index runs round `0 .. m`: after `k` ends it is `(index + k) % m`. */
  lemma {:induction false} LoopingChainCycles(a: AnimationIndex, k: nat)
    requires a.looping && a.max.Some? && a.index < a.max.value
    ensures AdvancedBy(a, k) == a.(index := (a.index + k) % a.max.value)
  {
    if k > 0 {
      LoopingChainCycles(a, k - 1);
      ModSucc(a.index + k - 1, a.max.value);
    }
  }

  /** Counting one further round a circle of `m`: the remainder goes up by one, wrapping at `m`. */
  lemma ModSucc(x: nat, m: nat)
    requires m > 0
    ensures (x + 1) % m == if x % m + 1 == m then 0 else x % m + 1
  {
    var q, r := x / m, x % m;
    assert x == q * m + r;
    if r + 1 == m {
      assert x + 1 == (q + 1) * m + 0;
      ModUnique(x + 1, m, q + 1, 0);
    } else {
      assert x + 1 == q * m + (r + 1);
      ModUnique(x + 1, m, q, r + 1);
    }
  }

  /** A remainder is determined by any quotient-and-remainder decomposition. */
  lemma ModUnique(y: int, m: int, q: int, r: int)
    requires m > 0 && 0 <= r < m && y == q * m + r
    ensures y % m == r
  {
    var q0, r0 := y / m, y % m;
    assert y == q0 * m + r0;
    var d := q - q0;
    assert d * m == r0 - r;
    if d > 0 {
      AtLeastOnce(d, m);
    } else if d < 0 {
      AtLeastOnce(-d, m);
    }
  }

  lemma AtLeastOnce(d: int, m: int)
    requires d >= 1 && m > 0
    ensures d * m >= m
  {
    assert d * m == (d - 1) * m + m;
  }

  /** A chain that does not loop (or has no known length) only counts up, past its length if need be. */
  lemma {:induction false} OpenChainCounts(a: AnimationIndex, k: nat)
    requires !a.looping || a.max.None?
    ensures AdvancedBy(a, k) == a.(index := a.index + k)
  {
    if k > 0 {
      OpenChainCounts(a, k - 1);
    }
  }

  // ---------------------------------------------------------------------
  // The "animate to" countdown

  /** An "animate to" component: the goal and the frames left to reach it. */
  datatype Target<T> = Target(goal: T, steps: real)

  /** What one frame of an "animate to" system leaves: the animated value, the component (if kept) and the animation index. */
  datatype Outcome<T, G> = Outcome(value: T, target: Option<Target<G>>, index: Option<AnimationIndex>)

  /**
   * One frame for one shape. While frames are left, `step` moves the value
   * the fraction `1 / steps` of the way to the goal and one frame is used
   * up; otherwise the value is untouched, the component removed and the
   * animation index advanced once.
   */
  function CountDown<T, G>(value: T, t: Target<G>, index: Option<AnimationIndex>, step: (T, G, real) -> T): (o: Outcome<T, G>)
    ensures t.steps > 0.0 ==> o == Outcome(step(value, t.goal, 1.0 / t.steps), Some(Target(t.goal, t.steps - 1.0)), index)
    ensures t.steps <= 0.0 ==> o.value == value && o.target.None? && o.index == UpdateAnimationIndex(index)
  {
    if t.steps > 0.0 then Outcome(step(value, t.goal, 1.0 / t.steps), Some(t.(steps := t.steps - 1.0)), index)
    else Outcome(value, None, UpdateAnimationIndex(index))
  }

  /** The `turn_arround_to` step: the angle moves by `(goal - angle) * fraction`. */
  function Turn(angle: real, goal: real, fraction: real): real
  {
    angle + (goal - angle) * fraction
  }

  /** With the fraction `1 / steps`, that is the source's `(goal - angle) / steps`. */
  lemma TurnDividesBySteps(angle: real, goal: real, steps: real)
    requires steps > 0.0
    ensures Turn(angle, goal, 1.0 / steps) == angle + (goal - angle) / steps
  {
  }

  /** `k` frames of one "animate to" system; once the component is removed the system no longer sees the shape. */
  function Frames<T, G>(o: Outcome<T, G>, k: nat, step: (T, G, real) -> T): Outcome<T, G>
    decreases k
  {
    if k == 0 || o.target.None? then o
    else Frames(CountDown(o.value, o.target.value, o.index, step), k - 1, step)
  }

  /**
   * Started with a whole number `n >= 1` of steps, and with a step that
   * lands exactly on the goal at the fraction one, the value is at the goal
   * after `n` frames with the component still present and its count at 0;
   * frame `n + 1` removes it and advances the animation index once.
   */
  lemma {:induction false} CountDownReachesGoal<T>(value: T, goal: T, n: nat, index: Option<AnimationIndex>, step: (T, T, real) -> T)
    requires n >= 1
    requires forall v :: step(v, goal, 1.0) == goal
    ensures Frames(Outcome(value, Some(Target(goal, n as real)), index), n, step) == Outcome(goal, Some(Target(goal, 0.0)), index)
    ensures Frames(Outcome(value, Some(Target(goal, n as real)), index), n + 1, step) == Outcome(goal, None, UpdateAnimationIndex(index))
  {
    var o := Outcome(value, Some(Target(goal, n as real)), index);
    var next := CountDown(value, Target(goal, n as real), index, step);
    assert Frames(o, n, step) == Frames(next, n - 1, step);
    assert Frames(o, n + 1, step) == Frames(next, n, step);
    if n == 1 {
      assert next == Outcome(goal, Some(Target(goal, 0.0)), index);
    } else {
      assert next == Outcome(step(value, goal, 1.0 / (n as real)), Some(Target(goal, (n - 1) as real)), index);
      CountDownReachesGoal(step(value, goal, 1.0 / (n as real)), goal, n - 1, index, step);
    }
  }

  /** The turning countdown started at `n` frames reaches its goal angle exactly on frame `n`. */
  lemma TurnReachesGoal(angle: real, goal: real, n: nat, index: Option<AnimationIndex>)
    requires n >= 1
    ensures Frames(Outcome(angle, Some(Target(goal, n as real)), index), n, Turn) == Outcome(goal, Some(Target(goal, 0.0)), index)
    ensures Frames(Outcome(angle, Some(Target(goal, n as real)), index), n + 1, Turn) == Outcome(goal, None, UpdateAnimationIndex(index))
  {
    CountDownReachesGoal(angle, goal, n, index, Turn);
  }

  /** The moving and growing countdowns started at `n` frames reach their goal vector exactly on frame `n`. */
  lemma LerpReachesGoal(v: Vec3, goal: Vec3, n: nat, index: Option<AnimationIndex>)
    requires n >= 1
    ensures Frames(Outcome(v, Some(Target(goal, n as real)), index), n, Lerp) == Outcome(goal, Some(Target(goal, 0.0)), index)
    ensures Frames(Outcome(v, Some(Target(goal, n as real)), index), n + 1, Lerp) == Outcome(goal, None, UpdateAnimationIndex(index))
  {
    forall u
      ensures Lerp(u, goal, 1.0) == goal
    {
      LerpEnds(u, goal);
    }
    CountDownReachesGoal(v, goal, n, index, Lerp);
  }

  // ---------------------------------------------------------------------
  // A shape and its components

  /**
   * One shape entity: its transform, its place on a circle round the
   * centre, and the animation components it may carry (absent ones are
   * `None`).
   */
  class Shape {
    var translation: Vec3
    var rotation: Quat
    var scale: Vec3
    /** `ArroundCenter.angle`. */
    var angle: real

    var rotating: Option<Quat>
    var moving: Option<Vec3>
    var growing: Option<Vec3>
    var turning: Option<real>

    /** `RotatingTo`: the goal is an angle about the z axis. */
    var rotatingTo: Option<Target<real>>
    var movingTo: Option<Target<Vec3>>
    var growingTo: Option<Target<Vec3>>
    var turningTo: Option<Target<real>>

    var animationIndex: Option<AnimationIndex>

    constructor (translation: Vec3, angle: real, animationIndex: Option<AnimationIndex>)
      ensures this.translation == translation && rotation == IDENTITY && scale == Vec3(1.0, 1.0, 1.0)
      ensures this.angle == angle && this.animationIndex == animationIndex
      ensures rotating.None? && moving.None? && growing.None? && turning.None?
      ensures rotatingTo.None? && movingTo.None? && growingTo.None? && turningTo.None?
    {
      this.translation := translation;
      rotation := IDENTITY;
      scale := Vec3(1.0, 1.0, 1.0);
      this.angle := angle;
      this.animationIndex := animationIndex;
      rotating, moving, growing, turning := None, None, None, None;
      rotatingTo, movingTo, growingTo, turningTo := None, None, None, None;
    }

    // The infinite animations: a constant change every frame.

    /** `rotate_shapes`: the component holds the quaternion of a turn by its speed about z (the trigonometry is done outside the model), applied before the current rotation. */
    method Rotate()
      requires rotating.Some?
      modifies this`rotation
      ensures rotation == Mul(rotating.value, old(rotation))
      ensures rotating.value == IDENTITY ==> rotation == old(rotation)
    {
      MulIdentity(rotation);
      rotation := Mul(rotating.value, rotation);
    }

    /** `grow_shapes`. */
    method Grow()
      requires growing.Some?
      modifies this`scale
      ensures scale == Add(old(scale), growing.value)
    {
      scale := Add(scale, growing.value);
    }

    /** `move_shapes`. */
    method Move()
      requires moving.Some?
      modifies this`translation
      ensures translation == Add(old(translation), moving.value)
    {
      translation := Add(translation, moving.value);
    }

    /** `turn_arround_shapes`. */
    method TurnAround()
      requires turning.Some?
      modifies this`angle
      ensures angle == old(angle) + turning.value
    {
      angle := angle + turning.value;
    }

    // The "animate to" systems.

    /**
     * `rotate_to_shapes`. The quaternion interpolation towards the rotation
     * about z by the goal angle involves trigonometry and a normalisation,
     * so it is the parameter `towards`.
     */
    method RotateTo(towards: (Quat, real, real) -> Quat)
      requires rotatingTo.Some?
      modifies this`rotation, this`rotatingTo, this`animationIndex
      ensures var o := CountDown(old(rotation), old(rotatingTo.value), old(animationIndex), towards);
              rotation == o.value && rotatingTo == o.target && animationIndex == o.index
    {
      var t := rotatingTo.value;
      if t.steps > 0.0 {
        rotation := towards(rotation, t.goal, 1.0 / t.steps);
        rotatingTo := Some(t.(steps := t.steps - 1.0));
      } else {
        rotatingTo := None;
        animationIndex := UpdateAnimationIndex(animationIndex);
      }
    }

    /** `move_to_shapes`. */
    method MoveTo()
      requires movingTo.Some?
      modifies this`translation, this`movingTo, this`animationIndex
      ensures var o := CountDown(old(translation), old(movingTo.value), old(animationIndex), Lerp);
              translation == o.value && movingTo == o.target && animationIndex == o.index
    {
      var t := movingTo.value;
      if t.steps > 0.0 {
        translation := Lerp(translation, t.goal, 1.0 / t.steps);
        movingTo := Some(t.(steps := t.steps - 1.0));
      } else {
        movingTo := None;
        animationIndex := UpdateAnimationIndex(animationIndex);
      }
    }

    /** `grow_to_shapes`. */
    method GrowTo()
      requires growingTo.Some?
      modifies this`scale, this`growingTo, this`animationIndex
      ensures var o := CountDown(old(scale), old(growingTo.value), old(animationIndex), Lerp);
              scale == o.value && growingTo == o.target && animationIndex == o.index
    {
      var t := growingTo.value;
      if t.steps > 0.0 {
        scale := Lerp(scale, t.goal, 1.0 / t.steps);
        growingTo := Some(t.(steps := t.steps - 1.0));
      } else {
        growingTo := None;
        animationIndex := UpdateAnimationIndex(animationIndex);
      }
    }

    /** `turn_arround_to_shapes`. */
    method TurnAroundTo()
      requires turningTo.Some?
      modifies this`angle, this`turningTo, this`animationIndex
      ensures var o := CountDown(old(angle), old(turningTo.value), old(animationIndex), Turn);
              angle == o.value && turningTo == o.target && animationIndex == o.index
    {
      var t := turningTo.value;
      if t.steps > 0.0 {
        TurnDividesBySteps(angle, t.goal, t.steps);
        angle := angle + (t.goal - angle) / t.steps;
        turningTo := Some(t.(steps := t.steps - 1.0));
      } else {
        turningTo := None;
        animationIndex := UpdateAnimationIndex(animationIndex);
      }
    }
  }
}
