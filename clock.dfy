/**
 * The clock-grid demo: a grid of small analogue clocks, each running at its
 * own speed. Every frame each clock's seconds advance by its speed, with
 * carries into minutes and hours held in unsigned bytes.
 */
module ClockGrid {

  const WIDTH: int := 1200
  const HEIGHT: int := 1000

  /** Each clock face is a 50 by 50 square. */
  const CLOCK_WIDTH: int := 50
  const CLOCK_HEIGHT: int := 50

  /** `CLOCK_NUMBER`: as many columns and rows as fill half the window, (12, 10). */
  const COLUMNS: int := WIDTH / CLOCK_WIDTH / 2
  const ROWS: int := HEIGHT / CLOCK_HEIGHT / 2

  /** `CLOCK_MARGIN`: the spare room shared out among the gaps, (42, 41). */
  const MARGIN_X: int := (WIDTH - COLUMNS * CLOCK_WIDTH) / (COLUMNS + 2)
  const MARGIN_Y: int := (HEIGHT - ROWS * CLOCK_HEIGHT) / (ROWS + 2)

  /** The speed range `1..10`: at least one and at most nine seconds per frame. */
  const MIN_SPEED: int := 1
  const MAX_SPEED: int := 9

  /** An unsigned byte, as the `u8` fields are. */
  type U8 = x: int | 0 <= x < 256

  /** One clock: its top-left corner, its time and its speed. */
  datatype Clock = Clock(pos: (int, int), sec: U8, min: U8, hour: U8, speed: U8)

  lemma GridConstants()
    ensures COLUMNS == 12 && ROWS == 10 && MARGIN_X == 42 && MARGIN_Y == 41
  {
  }

  // ---------------------------------------------------------------------
  // The tick

  /** The byte additions of a tick do not overflow (in Rust they would panic in a debug build). */
  predicate TickSafe(c: Clock)
  {
    c.sec + c.speed < 256
    && (c.sec + c.speed >= 60 ==> c.min < 255)
    && (c.sec + c.speed >= 60 && c.min + 1 >= 60 ==> c.hour < 255)
  }

  /**
   * One frame for one clock: the seconds advance by the speed; reaching 60
   * wraps them and carries a minute, and a minute reaching 60 wraps and
   * carries an hour, which wraps at 12.
   */
  function Tick(c: Clock): (r: Clock)
    requires TickSafe(c)
    ensures r.pos == c.pos && r.speed == c.speed
    ensures r.sec < 60
    ensures r.min != c.min <==> c.sec + c.speed >= 60
    ensures c.sec + c.speed >= 60 && c.min < 59 ==> r.min == c.min + 1
    ensures c.sec + c.speed < 60 ==> r.sec == c.sec + c.speed
    ensures r.hour != c.hour ==> r.min < c.min
    ensures c.min < 60 ==> r.min < 60
    ensures c.hour < 12 ==> r.hour < 12
  {
    var sec := c.sec + c.speed;
    if sec < 60 then c.(sec := sec)
    else
      var min := c.min + 1;
      if min < 60 then c.(sec := sec % 60, min := min)
      else
        var hour := c.hour + 1;
        c.(sec := sec % 60, min := min % 60, hour := if hour >= 12 then hour % 12 else hour)
  }

  /** The time shown, in seconds after twelve o'clock. */
  function Seconds(c: Clock): int
  {
    c.hour * 3600 + c.min * 60 + c.sec
  }

  /** A twelve-hour clock face in seconds. */
  const HALF_DAY: int := 12 * 3600

  /**
   * While the seconds cannot pass 120 in one step and the minutes and hours
   * are in range, a tick advances the time shown by exactly the speed,
   * modulo twelve hours.
   */
  lemma TickAdvancesTime(c: Clock)
    requires c.sec + c.speed < 120 && c.min < 60 && c.hour < 12
    ensures TickSafe(c)
    ensures Seconds(Tick(c)) == (Seconds(c) + c.speed) % HALF_DAY
  {
    var r := Tick(c);
    var total := Seconds(c) + c.speed;
    assert 0 <= total < 2 * HALF_DAY;
    if c.sec + c.speed < 60 {
      assert total < HALF_DAY;
    } else if c.min + 1 < 60 {
      assert total < HALF_DAY;
      assert Seconds(r) == total;
    } else if c.hour + 1 < 12 {
      assert Seconds(r) == total;
    } else {
      assert Seconds(r) == total - HALF_DAY;
    }
  }

  /** A clock showing a proper time (seconds and minutes below 60, hours below 12) at a speed from the range. */
  predicate Normal(c: Clock)
  {
    c.sec < 60 && c.min < 60 && c.hour < 12 && MIN_SPEED <= c.speed <= MAX_SPEED
  }

  /**
   * Ticking never overflows a normal clock and keeps it normal; a start
   * with the seconds at 60 (what the start-up arithmetic produces) is safe
   * too and becomes normal after one tick.
   */
  lemma TickKeepsNormal(c: Clock)
    requires c.sec <= 60 && c.min < 60 && c.hour < 12 && MIN_SPEED <= c.speed <= MAX_SPEED
    ensures TickSafe(c) && Normal(Tick(c))
  {
  }

  /** The per-frame loop over every clock. */
  method TickAll(clocks: array<Clock>)
    requires forall i :: 0 <= i < clocks.Length ==> TickSafe(clocks[i])
    modifies clocks
    ensures forall i :: 0 <= i < clocks.Length ==> clocks[i] == Tick(old(clocks[i]))
  {
    var i := 0;
    while i < clocks.Length
      invariant 0 <= i <= clocks.Length
      invariant forall j :: 0 <= j < i ==> clocks[j] == Tick(old(clocks[j]))
      invariant forall j :: i <= j < clocks.Length ==> clocks[j] == old(clocks[j])
    {
      clocks[i] := Tick(clocks[i]);
      i := i + 1;
    }
  }

  // ---------------------------------------------------------------------
  // The grid

  /** Where clock `(x, y)` of the grid sits: a margin before every clock, counting the first. */
  function GridPos(x: int, y: int): (int, int)
  {
    (MARGIN_X * (x + 1) + CLOCK_WIDTH * x, MARGIN_Y * (y + 1) + CLOCK_HEIGHT * y)
  }

  /** Every clock face of the grid lies inside the window, and neighbouring faces are a margin apart. */
  lemma GridInsideWindow(x: int, y: int)
    requires 0 <= x < COLUMNS && 0 <= y < ROWS
    ensures var p := GridPos(x, y);
            0 < p.0 && p.0 + CLOCK_WIDTH <= WIDTH && 0 < p.1 && p.1 + CLOCK_HEIGHT <= HEIGHT
    ensures GridPos(x + 1, y).0 == GridPos(x, y).0 + CLOCK_WIDTH + MARGIN_X
    ensures GridPos(x, y + 1).1 == GridPos(x, y).1 + CLOCK_HEIGHT + MARGIN_Y
  {
    GridConstants();
  }

  /** `FPS * 3`: the number of frames the start-up offset is worth at speed one. */
  const DURATION: int := 60 * 3

  /**
   * The start-up time of a clock of the given speed: `speed * DURATION`
   * seconds before twelve, computed in floating point as
   * `|60 - t % 60|`, `|60 - t / 60 % 60|` and `|12 - t / 3600 % 12|` and
   * truncated to bytes, with `t = speed * 180`. Since `t` is a whole
   * number of minutes the seconds come out as 60, not 0; the minutes are
   * `60 - 3 * speed`, and the hour `12 - speed / 20` truncates to 11.
   */
  function StartClock(pos: (int, int), speed: U8): (c: Clock)
    requires MIN_SPEED <= speed <= MAX_SPEED
    ensures c.pos == pos && c.speed == speed
    ensures Seconds(c) == HALF_DAY + 60 - speed * DURATION
  {
    Clock(pos, 60, 60 - 3 * speed, 11, speed)
  }

  /** A clock the tick keeps well-behaved: seconds at most 60, minutes and hours in range, a speed from the range. */
  predicate Running(c: Clock)
  {
    c.sec <= 60 && c.min < 60 && c.hour < 12 && MIN_SPEED <= c.speed <= MAX_SPEED
  }

  /** The clock after `k` frames; from the first tick on it shows a proper time. */
  function Ticks(c: Clock, k: nat): (r: Clock)
    requires Running(c)
    ensures Running(r) && r.pos == c.pos && r.speed == c.speed
    ensures k > 0 ==> Normal(r)
  {
    if k == 0 then c
    else
      var d := Ticks(c, k - 1);
      TickKeepsNormal(d);
      Tick(d)
  }

  /** From the first frame on, a clock has advanced by exactly its speed per frame, modulo twelve hours. */
  lemma {:induction false} TicksAdvanceTime(c: Clock, k: nat)
    requires Running(c) && k > 0
    ensures Seconds(Ticks(c, k)) == (Seconds(c) + Elapsed(c.speed, k)) % HALF_DAY
  {
    if k == 1 {
      TickKeepsNormal(c);
      TickAdvancesTime(c);
    } else {
      TicksAdvanceTime(c, k - 1);
      TicksStep(c, k, Seconds(c) + Elapsed(c.speed, k - 1));
    }
  }

  /** The seconds `k` frames at `speed` add up to. */
  function Elapsed(speed: int, k: nat): int
  {
    if k == 0 then 0 else Elapsed(speed, k - 1) + speed
  }

  /** Frames at a fixed speed add up to the product. */
  lemma {:induction false} ElapsedIsProduct(speed: int, k: nat)
    ensures Elapsed(speed, k) == k * speed
  {
    if k > 0 {
      ElapsedIsProduct(speed, k - 1);
    }
  }

  /** Frame `k` adds the speed to the count frame `k - 1` shows, modulo twelve hours. */
  lemma TicksStep(c: Clock, k: nat, x: int)
    requires Running(c) && k > 1 && Seconds(Ticks(c, k - 1)) == x % HALF_DAY
    ensures Seconds(Ticks(c, k)) == (x + c.speed) % HALF_DAY
  {
    var d := Ticks(c, k - 1);
    TickKeepsNormal(d);
    TickAdvancesTime(d);
    ModAddBack(x, c.speed);
  }

  /** Adding to a reduced count and reducing again is reducing once. */
  lemma ModAddBack(x: int, s: int)
    ensures (x % HALF_DAY + s) % HALF_DAY == (x + s) % HALF_DAY
  {
    var q := x / HALF_DAY;
    assert x == q * HALF_DAY + x % HALF_DAY;
    ModShift(x % HALF_DAY + s, q);
  }

  lemma ModShift(y: int, q: int)
    ensures (y + q * HALF_DAY) % HALF_DAY == y % HALF_DAY
  {
  }

  /**
   * The start-up offset makes every clock meet: whatever its speed, after
   * DURATION frames a clock shows one minute past twelve (the seconds that
   * start at 60 count as an extra minute).
   */
  lemma ClocksMeet(pos: (int, int), speed: U8)
    requires MIN_SPEED <= speed <= MAX_SPEED
    ensures var c := Ticks(StartClock(pos, speed), DURATION);
            c.hour == 0 && c.min == 1 && c.sec == 0
  {
    var c := StartClock(pos, speed);
    var d := Ticks(c, DURATION);
    TicksAdvanceTime(c, DURATION);
    ElapsedIsProduct(speed, DURATION);
    OneMinute(d, Seconds(c) + Elapsed(speed, DURATION));
  }

  /** The only proper time congruent to twelve hours and one minute is 0:01:00. */
  lemma OneMinute(d: Clock, t: int)
    requires Normal(d) && t == HALF_DAY + 60 && Seconds(d) == t % HALF_DAY
    ensures d.hour == 0 && d.min == 1 && d.sec == 0
  {
  }

  /** The clock of grid cell `(x, y)`, with the speed drawn for it. */
  function Built(speeds: seq<U8>, x: int, y: int): Clock
    requires 0 <= x < COLUMNS && 0 <= y < ROWS && |speeds| == COLUMNS * ROWS
    requires forall i :: 0 <= i < |speeds| ==> MIN_SPEED <= speeds[i] <= MAX_SPEED
  {
    GridConstants();
    StartClock(GridPos(x, y), speeds[x * ROWS + y])
  }

  /**
   * Grid construction: for each column `x`, for each row `y`, push the clock
   * at `GridPos(x, y)` with its start-up time; the `x * ROWS + y`-th speed
   * drawn is that clock's.
   */
  method BuildGrid(speeds: seq<U8>) returns (clocks: seq<Clock>)
    requires |speeds| == COLUMNS * ROWS
    requires forall i :: 0 <= i < |speeds| ==> MIN_SPEED <= speeds[i] <= MAX_SPEED
    ensures |clocks| == COLUMNS * ROWS
    ensures forall x, y :: 0 <= x < COLUMNS && 0 <= y < ROWS ==>
              clocks[x * ROWS + y] == StartClock(GridPos(x, y), speeds[x * ROWS + y])
  {
    GridConstants();
    clocks := [];
    var x := 0;
    while x < COLUMNS
      invariant 0 <= x <= COLUMNS
      invariant |clocks| == x * ROWS
      invariant forall x', y' :: 0 <= x' < x && 0 <= y' < ROWS ==>
                  clocks[x' * ROWS + y'] == Built(speeds, x', y')
    {
      var y := 0;
      while y < ROWS
        invariant 0 <= y <= ROWS
        invariant |clocks| == x * ROWS + y
        invariant forall x', y' :: 0 <= x' < x && 0 <= y' < ROWS ==>
                    clocks[x' * ROWS + y'] == Built(speeds, x', y')
        invariant forall y' :: 0 <= y' < y ==> clocks[x * ROWS + y'] == Built(speeds, x, y')
      {
        clocks := clocks + [Built(speeds, x, y)];
        y := y + 1;
      }
      x := x + 1;
    }
    forall x, y | 0 <= x < COLUMNS && 0 <= y < ROWS
      ensures clocks[x * ROWS + y] == StartClock(GridPos(x, y), speeds[x * ROWS + y])
    {
      assert clocks[x * ROWS + y] == Built(speeds, x, y);
    }
  }
}
