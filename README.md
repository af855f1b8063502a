# rust-graphics demos, modelled in Dafny

This project models the logic inside a set of small Rust graphics demos. Windowing, drawing and random-number plumbing are set aside.

- **Mandelbrot/Julia explorer.**
  - Escape-time loops in both forms.
  - The colour rule and the RGBA byte buffers.
  - Zoom, pan and the cache that decides which texture to rebuild.
- **Texture rotation demo.**
  - Rows-of-pixels textures with `size`, `inline`, `slice`, `rotate`, `paint` and `into_vec_texture`.
  - The loop that scrambles an image by rotating random squares.
- **Clock grid.** Per-frame carries of `sec`/`min`/`hour`, the grid layout and the start-up times.
- **The two triangle demos.**
  - Sorting points by distance, stably.
  - Speeds and positions clamped every frame.
  - The triangle test.
- **Shape trail.** Adding heads under a cap, `retain`, the countdown and spawning successors.
- **Bezier demo.** The rainbow hue iterator, de Casteljau's recursion and the per-frame push/pop of points.
- **Animation systems of the circle-and-triangle scene.**
  - The infinite per-frame animations.
  - The "animate to" countdowns and the removal of their components.
  - Advancing the animation index of a chain.

Each Dafny module follows one program:

| module | program |
|---|---|
| `Mandelbrot` | `rust-mandelbrot/src/main.rs` |
| `Rotation` | `rust-rotation/src/main.rs` |
| `ClockGrid` | `rust-clock/src/main.rs` |
| `Triangles` | `rust-triangles/src/main.rs` |
| `Triangles2` | `rust-triangles2/src/main.rs` |
| `ShapeTrail` | `rust-triangles4/src/main.rs` |
| `Bezier` | `rust-bezier/src/main.rs` |
| `Anim` | `rust-tri-circle/src/anim.rs` |

Shared modules:

- `Wrappers`: `Option`.
- `Pixels`: bytes, RGBA pixels and flattening into a byte buffer.
- `Geometry`: integer points, squared distance and clamping.
- `StableSort`: a stable sort by an integer key. It stands in for Rust's `sort_by`, and `StableSortCharacterisation` shows that any stable sort gives the same result.

Code that changes state in place is modelled as methods:

- Classes: `Explorer`, `VecTexture`, `Trail`, `Rainbow`, `Curve` and `Shape`.
- Arrays: `TickAll`, `RandomSpeeds`, `MovePoints` and `Update`.
- Loops: `EscapeCount`, `Rotate`, `ComputeLevel`, `Sample`, `BuildGrid` and `Scramble`.

Each method is proved against a specification function, and the properties are proved as lemmas about that function.

Where the programs and their documentation differ, the model follows the code:

- Zooming in has no floor on the scale.
- The panel side `(width / 2).min(height)` is not clamped away from zero.
- The coordinate readout leaves out the `scale / MOVE_SCALE` bias that the two textures use (`ReadoutDropsBias`).
- `TextureSlice::slice` reads its rectangle as (x, y, rows, end column). `SliceConventions` relates this to the (x, y, width, height) of `VecTexture::slice`.
- Children in the shape trail receive the parent's `angle + step` as their size and the parent's size as their angle, as the constructor's argument order gives.
- The clock start-up arithmetic yields 60 seconds rather than 0. As a result, every clock shows 0:01:00, not 12:00, after `DURATION` frames (`ClocksMeet`).

## Model

| member | source | states |
|---|---|---|
| Pixels.Bytes | rust-mandelbrot/src/main.rs:80-85 | a pixel's four bytes are red, green, blue and alpha, in that order |
| Pixels.FlattenLength | rust-rotation/src/main.rs:29-34 | flattening pixels gives four bytes per pixel |
| Pixels.FlattenAt | rust-rotation/src/main.rs:29-34 | byte `k` of pixel `i` sits at offset `4*i + k` of the flattened buffer |
| Pixels.FlattenLayout | rust-mandelbrot/src/main.rs:51-88 | the whole buffer has length `4*n`, and every pixel occupies its own four bytes in order |
| Pixels.FlattenAppend | rust-rotation/src/main.rs:29-34 | flattening distributes over concatenation of pixel runs; `InlineRowByRow` uses it for the per-row `flat_map` |
| Mandelbrot.Step | rust-mandelbrot/src/main.rs:68-71 | one iteration `z = z*z + c` (definition); `FixedPointOrbit` and `FirstStepFromOrigin` state its behaviour |
| Mandelbrot.Orbit | rust-mandelbrot/src/main.rs:65-72 | the `k`-th iterate of the loop body (definition); the escape count is characterised over it by `Escape` and `EscapeIsFirstExit` |
| Mandelbrot.EscapeFrom | rust-mandelbrot/src/main.rs:67-72 | continuing the count from `i` gives a count in `[i, ITERATIONS]` with every earlier orbit point inside the disk, and the point at the count outside it unless the cap is reached |
| Mandelbrot.Escape | rust-mandelbrot/src/main.rs:65-72 | the escape count is at most ITERATIONS, every orbit point before it lies inside `|z| < 2`, and below the cap the point at the count lies outside |
| Mandelbrot.EscapeIsFirstExit | rust-mandelbrot/src/main.rs:65-72 | any count with the first-exit property equals `Escape`, so the loop's result is uniquely determined |
| Mandelbrot.EscapeCount | rust-mandelbrot/src/main.rs:65-72 | the `while i < ITERATIONS && norm < 2` loop returns the first exit index (or ITERATIONS) and equals `Escape` |
| Mandelbrot.MandelbrotCountBounds | rust-mandelbrot/src/main.rs:57-73 | with `z0 = 0` the count lies in `[1, ITERATIONS]` |
| Mandelbrot.FixedPointOrbit | rust-mandelbrot/src/main.rs:68-71 | a fixed point of `z*z + c` is its own orbit at every step |
| Mandelbrot.OriginNeverEscapes | rust-mandelbrot/src/main.rs:65-72 | `c = 0` yields the count ITERATIONS |
| Mandelbrot.FarParameterEscapesAtOnce | rust-mandelbrot/src/main.rs:65-72 | any `c` with `|c| >= 2` yields exactly 1 |
| Mandelbrot.FirstStepFromOrigin | rust-mandelbrot/src/main.rs:65-71 | from `z0 = 0` the orbit starts inside the disk and its first step is `c` |
| Mandelbrot.OutsideStartEscapesAtZero | rust-mandelbrot/src/main.rs:116-127 | a Julia start with `|z0| >= 2` yields count 0 whatever `c` is |
| Mandelbrot.Color | rust-mandelbrot/src/main.rs:75-86 | alpha is always 255, the count ITERATIONS gives opaque black, and any other count gives the palette colour of the count |
| Mandelbrot.PanelSide | rust-mandelbrot/src/main.rs:22-23 | the panel side is the smaller of `width / 2` and `height`, with no lower clamp |
| Mandelbrot.ViewPoint | rust-mandelbrot/src/main.rs:58-63 | the biased pixel-to-plane mapping of the Mandelbrot panel (definition); `ViewPixelInvertsViewPoint` proves it invertible, and `StartViewCentreIsInterior`/`StartViewCornerEscapes` evaluate it at start-up |
| Mandelbrot.ViewPixelInvertsViewPoint | rust-mandelbrot/src/main.rs:58-63 | the pixel-to-plane mapping is invertible for a positive scale: mapping back recovers the pixel |
| Mandelbrot.Readout | rust-mandelbrot/src/main.rs:161-166 | the readout exists exactly when the panel is non-empty (otherwise the division has no value) |
| Mandelbrot.ReadoutDropsBias | rust-mandelbrot/src/main.rs:105-109 | the readout shows the point `scale / MOVE_SCALE` to the right of the Julia constant the same pointer picks, with the same imaginary part |
| Mandelbrot.JuliaStart | rust-mandelbrot/src/main.rs:117-120 | the starting `z` of Julia pixel `(x, y)` (definition); `JuliaStartIsBaseView` equates it with the readout mapping at the base zoom with no pan |
| Mandelbrot.JuliaStartIsBaseView | rust-mandelbrot/src/main.rs:117-120 | a Julia start is the readout mapping at BASE_SCALE with no pan. `JuliaLayout` shows every Julia pixel starts there, so the start never follows zoom or pan |
| Mandelbrot.MandelbrotBytes | rust-mandelbrot/src/main.rs:50-94 | the bytes of the Mandelbrot texture (definition); `MandelbrotLayout` gives their length and per-pixel content |
| Mandelbrot.JuliaConstant | rust-mandelbrot/src/main.rs:104-109 | the Julia constant `c` under the pointer, bias included (definition); `ReadoutDropsBias` relates it to the readout |
| Mandelbrot.JuliaBytes | rust-mandelbrot/src/main.rs:110-143 | the bytes of the Julia texture (definition); `JuliaLayout` gives their layout and `JuliaDependsOnViewOnlyThroughConstant` their dependence on the view |
| Mandelbrot.MandelbrotLayout | rust-mandelbrot/src/main.rs:51-88 | the Mandelbrot buffer holds `size*size` pixels of 4 bytes, and pixel `i` (column `i % size`, row `i / size`) sits at bytes `4i..4i+4` with alpha 255 |
| Mandelbrot.JuliaLayout | rust-mandelbrot/src/main.rs:110-143 | the Julia buffer has the same layout, with the colour of the Julia escape count of pixel `i` |
| Mandelbrot.JuliaDependsOnViewOnlyThroughConstant | rust-mandelbrot/src/main.rs:103-149 | two views that pick the same constant produce identical Julia buffers |
| Mandelbrot.StartViewCentreIsInterior | rust-mandelbrot/src/main.rs:11-12 | on a 400-pixel panel at start-up, pixel (250, 200) shows `c = 0` and its bytes are `[0, 0, 0, 255]` |
| Mandelbrot.StartViewCornerEscapes | rust-mandelbrot/src/main.rs:58-64 | at start-up the corner pixel shows `-2.5 - 2i`, which escapes after one step and takes the palette colour for 1 |
| Mandelbrot.Zoom | rust-mandelbrot/src/main.rs:26-32 | wheel -1 enlarges the scale, wheel +1 shrinks it, anything else keeps it, and the scale stays positive |
| Mandelbrot.ZoomRoundTrip | rust-mandelbrot/src/main.rs:27-31 | zooming out then in (or in then out) returns exactly to the same scale, so there is no floor or clamp |
| Mandelbrot.Pan | rust-mandelbrot/src/main.rs:35-46 | the arrow-key offset update (definition); `PanStep` states each axis's step and its halving with the scale |
| Mandelbrot.PanStep | rust-mandelbrot/src/main.rs:35-46 | each axis moves by exactly `scale / 8` in the key's direction (Left beats Right, Up beats Down) or not at all, and the step halves with the scale |
| Mandelbrot.StaleIsKeyChange | rust-mandelbrot/src/main.rs:49 | the Mandelbrot texture is stale exactly when scale, offset or size changed; the Julia texture also when the pointer moved; a stale Mandelbrot implies a stale Julia |
| Mandelbrot.IdleFrameIsCached | rust-mandelbrot/src/main.rs:98-102 | a frame with no zoom, no keys, the same size and the same pointer rebuilds neither texture |
| Mandelbrot.Explorer.constructor | rust-mandelbrot/src/main.rs:11-20 | start-up scale BASE_SCALE, no pan, sentinels 0 and (-1, -1), empty textures |
| Mandelbrot.Explorer.Frame | rust-mandelbrot/src/main.rs:21-156 | one frame zooms, then pans with the new scale, rebuilds exactly the stale textures from the new view and records the new keys; the first frame after start-up always rebuilds both |
| Mandelbrot.Explorer.Scroll | rust-mandelbrot/src/main.rs:26-32 | the scale becomes `Zoom(old scale, wheel)` and stays positive |
| Mandelbrot.Explorer.Move | rust-mandelbrot/src/main.rs:35-46 | the offset becomes `Pan(old offset, scale, keys)` |
| Mandelbrot.Explorer.Redraw | rust-mandelbrot/src/main.rs:48-155 | each texture is rebuilt iff stale and otherwise left untouched; then the `last_*` fields are set to this frame's values |
| StableSort.FilterKey | rust-triangles/src/main.rs:24 | the elements with a given key, in input order, all come from the input |
| StableSort.SortBy | rust-triangles/src/main.rs:24 | the stable sort by a key, by insertion (definition); `SortBySortedPermutation`, `SortByStable` and `StableSortCharacterisation` show it is the unique sorted, stable permutation, so it stands for `sort_by` |
| StableSort.SortBySortedPermutation | rust-triangles/src/main.rs:24 | the sort is non-decreasing in the key and is a permutation of its input |
| StableSort.SortByStable | rust-triangles2/src/main.rs:39 | for every key, the elements with that key keep their input order |
| StableSort.StableSortIsUnique | rust-triangles2/src/main.rs:39 | two sorted sequences with the same per-key order are equal |
| StableSort.StableSortCharacterisation | rust-triangles2/src/main.rs:38-40 | any result that is sorted by the key and keeps every key's input order (which `sort_by` guarantees) equals `SortBy` |
| Geometry.SqDistance | rust-triangles/src/main.rs:14-16 | the (squared) distance is zero exactly when the two points are equal |
| Geometry.DistanceSymmetric | rust-triangles2/src/main.rs:25-27 | distance is symmetric |
| Geometry.Min | rust-triangles/src/main.rs:38-39 | `min` is one of its arguments and no larger than either |
| Geometry.Max | rust-triangles/src/main.rs:38-39 | `max` is one of its arguments and no smaller than either |
| Geometry.ClampRange | rust-triangles/src/main.rs:38-39 | `.max(lo).min(hi)` lands in `[lo, hi]`, keeps values already there, and equals `.min(hi).max(lo)` |
| Geometry.Jitter | rust-triangles/src/main.rs:31-32 | `(s + d).min(3).max(-3)` lies in `[-3, 3]`, is `s + d` when that is in range, and saturates otherwise |
| Triangles.Nearest | rust-triangles/src/main.rs:18-26 | the result is a permutation of the list, non-decreasing in distance from `p` |
| Triangles.NearestStable | rust-triangles/src/main.rs:24 | points at equal distance keep their input order |
| Triangles.NearestStartsAtItself | rust-triangles/src/main.rs:18-26 | a point of the list comes first in its own nearest list |
| Triangles.Drift | rust-triangles/src/main.rs:30-33 | each drifted component lies in `[-3, 3]` and equals `s + d` when that is in range |
| Triangles.MovePoint | rust-triangles/src/main.rs:37-40 | the moved point lies in `[0, WIDTH] x [0, HEIGHT]` and equals `p + s` on each axis where that is in range |
| Triangles.RandomSpeeds | rust-triangles/src/main.rs:28-34 | every speed is replaced by its drift with its own draw; the length is unchanged |
| Triangles.MovePoints | rust-triangles/src/main.rs:36-41 | point `i` becomes `MovePoint(old point, speeds[i])`; the speeds and the length are unchanged |
| Triangles.Frame | rust-triangles/src/main.rs:78-79 | the speeds drift first, then every point moves by its new speed |
| Triangles2.ComputeDistance | rust-triangles2/src/main.rs:29-35 | the same points in the same order, each paired with its distance from `p` |
| Triangles2.SortByDistance | rust-triangles2/src/main.rs:37-41 | a permutation of `compute_distance`, non-decreasing in distance, each entry pairing a point of the list with its true distance |
| Triangles2.SortByDistanceStable | rust-triangles2/src/main.rs:39 | entries at equal distance keep their `compute_distance` order |
| Triangles2.SortByDistanceStartsAtItself | rust-triangles2/src/main.rs:84-92 | a particle's own sorted list starts with itself at distance 0 |
| Triangles2.DrawsTriangle | rust-triangles2/src/main.rs:93-96 | the triangle test on a particle's sorted list (definition); `TriangleIsSmall` restates it as pairwise distances of the three corners |
| Triangles2.TriangleIsSmall | rust-triangles2/src/main.rs:93-96 | a triangle is drawn exactly when the nearest two others are within 100 of the particle and of each other |
| Triangles2.Advance | rust-triangles2/src/main.rs:75-81 | the position moves by the old speed, clamped into the window; the speed then drifts, clamped to `[-3, 3]`; both are exact when in range |
| Triangles2.InitialIsBounded | rust-triangles2/src/main.rs:61-66 | a freshly spawned particle already meets the per-frame bound |
| Triangles2.Update | rust-triangles2/src/main.rs:75-81 | every particle is advanced with its own draw and stays bounded |
| Rotation.Size | rust-rotation/src/main.rs:26-28 | `size` (definition); `SizeOfRectangular` proves it is (width, height) on a rectangular texture |
| Rotation.SizeOfRectangular | rust-rotation/src/main.rs:26-28 | on a rectangular texture `size` is (width, height) |
| Rotation.JoinLength | rust-rotation/src/main.rs:29-34 | joining `h` rows of `w` pixels gives `h*w` pixels |
| Rotation.JoinAt | rust-rotation/src/main.rs:29-34 | pixel `(x, y)` is pixel `y*w + x` of the joined rows |
| Rotation.Inline | rust-rotation/src/main.rs:29-34 | `inline` (definition); `InlineLayout` gives its byte layout, `InlineRowByRow` its per-row form, and `IntoVecTextureInvertsInline` its inverse |
| Rotation.InlineLayout | rust-rotation/src/main.rs:29-34 | `inline` gives `4*w*h` bytes, row-major, with pixel `(x, y)` at byte `4*(y*w + x)` |
| Rotation.InlineRowByRow | rust-rotation/src/main.rs:29-34 | the inlined bytes are the first row's bytes followed by the inlined remaining rows, as the per-row `flat_map` produces them |
| Rotation.Slice | rust-rotation/src/main.rs:42-46 | an in-bounds slice has `h` rows of `w` pixels with `r[j][i] == t[y+j][x+i]` |
| Rotation.SliceOfSlice | rust-rotation/src/main.rs:89-93 | the slice-of-slice reads `rect.2` rows, from column `rect.0` up to column `rect.3` |
| Rotation.SliceConventions | rust-rotation/src/main.rs:89-93 | the slice-of-slice equals `VecTexture::slice` with the third field read as the row count and the fourth as the end column |
| Rotation.Rotated | rust-rotation/src/main.rs:48-59 | the output has `|t[0]|` rows of `|t|` pixels, `out[x][rows-1-y] == in[y][x]`, and cells that no input row reaches stay `[0; 4]` |
| Rotation.Rotate | rust-rotation/src/main.rs:48-59 | the nested write loop over a zero-filled output produces exactly `Rotated(t)` |
| Rotation.RotatedRectangular | rust-rotation/src/main.rs:48-59 | a `w` by `h` texture rotates to `w` rows of `h` pixels, where output row `a`, column `b` is input row `h-1-b`, column `a` |
| Rotation.RotateTwice | rust-rotation/src/main.rs:48-59 | two quarter turns reverse both the rows and each row |
| Rotation.RotateFourTimes | rust-rotation/src/main.rs:48-59 | four quarter turns give back the original texture |
| Rotation.Painted | rust-rotation/src/main.rs:60-68 | painting writes every painting pixel at `pos` plus its offset, keeps every other pixel and keeps every row length |
| Rotation.VecTexture.constructor | rust-rotation/src/main.rs:155-156 | a texture object holds the given rows |
| Rotation.VecTexture.Paint | rust-rotation/src/main.rs:60-68 | the nested write loop changes the rows in place to exactly `Painted(old rows, painting, pos)` |
| Rotation.PaintThenSlice | rust-rotation/src/main.rs:163-166 | slicing the painted rectangle back out gives the painting |
| Rotation.SliceFitsBack | rust-rotation/src/main.rs:163-166 | a slice fits back at its own corner |
| Rotation.SliceThenPaint | rust-rotation/src/main.rs:163-166 | painting a texture's own slice back where it came from changes nothing |
| Rotation.ChunkPixel | rust-rotation/src/main.rs:116-122 | a chunk's bytes fill the first channels, and missing channels stay 255 |
| Rotation.BytesToPixels | rust-rotation/src/main.rs:114-123 | `chunks(4)` gives `ceil(n / 4)` pixels |
| Rotation.Chunks | rust-rotation/src/main.rs:124-126 | `chunks(width)` gives rows whose concatenation is the input, all of `width` pixels except a possibly shorter last one |
| Rotation.IntoVecTexture | rust-rotation/src/main.rs:111-127 | `into_vec_texture` (definition); the inverse of `Inline` by `IntoVecTextureInvertsInline`, and rectangular for `4*w*h` bytes by `IntoVecTextureRectangular` |
| Rotation.PixelsOfFlatten | rust-rotation/src/main.rs:114-123 | grouping the bytes of whole pixels by four gives the pixels back |
| Rotation.ChunksOfJoin | rust-rotation/src/main.rs:124-126 | cutting the joined rows of a rectangular texture at its width gives the rows back |
| Rotation.IntoVecTextureInvertsInline | rust-rotation/src/main.rs:111-127 | `into_vec_texture(inline(t), w) == t` for every rectangular `w`-wide texture |
| Rotation.IntoVecTextureRectangular | rust-rotation/src/main.rs:111-127 | `4*w*h` bytes read back as `h` rows of `w` pixels |
| Rotation.ChunksRectangular | rust-rotation/src/main.rs:124-126 | `h*w` pixels cut at width `w` give `h` full rows |
| Rotation.ScrambleRound | rust-rotation/src/main.rs:158-166 | a drawn square lies in bounds, and its rotation is a square that fits back at the same corner. Painting it keeps the image `w` by `h`, and the rotated square is then exactly what the image shows there |
| Rotation.RoundSquare | rust-rotation/src/main.rs:163-165 | one round's rotated square is `size` by `size` |
| Rotation.Scrambled | rust-rotation/src/main.rs:157-168 | the image after any number of rounds keeps its dimensions |
| Rotation.ScrambleSteps | rust-rotation/src/main.rs:155-168 | the recorded steps are the untouched image at the origin followed by one entry per round |
| Rotation.StepsMatchImage | rust-rotation/src/main.rs:163-167 | each recorded square equals the image's content in that square right after its round |
| Rotation.Scramble | rust-rotation/src/main.rs:155-168 | the ten-round loop over the mutable image produces exactly `ScrambleSteps` |
| ClockGrid.GridConstants | rust-clock/src/main.rs:22-28 | the grid is 12 by 10 clocks with margins 42 and 41 |
| ClockGrid.Tick | rust-clock/src/main.rs:139-161 | a tick keeps `pos` and `speed` and leaves `sec < 60`. The minute changes exactly when `sec + speed >= 60`, and the hour only changes when the minute wraps. `min < 60` and `hour < 12` are preserved |
| ClockGrid.TickAdvancesTime | rust-clock/src/main.rs:147-159 | within the bounds, a tick advances `hour*3600 + min*60 + sec` by the speed modulo 43200 |
| ClockGrid.TickKeepsNormal | rust-clock/src/main.rs:147-159 | a tick never overflows a byte from a proper time (or seconds at 60) and lands on a proper time |
| ClockGrid.TickAll | rust-clock/src/main.rs:139-161 | every clock of the array is ticked once |
| ClockGrid.GridPos | rust-clock/src/main.rs:80-83 | the top-left corner of clock `(x, y)` (definition); `GridInsideWindow` proves every clock lies inside the window, one margin apart |
| ClockGrid.GridInsideWindow | rust-clock/src/main.rs:81-82 | every clock square lies inside the window, and neighbours are one margin apart |
| ClockGrid.StartClock | rust-clock/src/main.rs:75-88 | a clock starts at seconds 60, minutes `60 - 3*speed` and hour 11, which is `speed * DURATION` seconds before 12:01 |
| ClockGrid.Ticks | rust-clock/src/main.rs:139-161 | repeated ticks keep position and speed and show a proper time from the first tick on |
| ClockGrid.TicksAdvanceTime | rust-clock/src/main.rs:147-159 | after `k >= 1` frames the time shown is the start time plus `k` times the speed, modulo twelve hours |
| ClockGrid.ClocksMeet | rust-clock/src/main.rs:77-87 | after DURATION frames every clock, whatever its speed, shows 0:01:00 |
| ClockGrid.BuildGrid | rust-clock/src/main.rs:73-90 | the grid has 120 clocks pushed x-major, and clock `x*ROWS + y` sits at its grid position with its drawn speed and start time |
| ShapeTrail.NewHead | rust-triangles4/src/main.rs:52-54 | a head's countdown starts full, `color == length` |
| ShapeTrail.Filter | rust-triangles4/src/main.rs:139-140 | `retain` keeps exactly the elements that pass |
| ShapeTrail.FilterAppend | rust-triangles4/src/main.rs:139-140 | `retain` acts on each part of a list in place, so survivors keep their relative order |
| ShapeTrail.Dimmed | rust-triangles4/src/main.rs:141-143 | every shape's colour drops by exactly one and nothing else changes (no underflow, since zeros were removed) |
| ShapeTrail.Child | rust-triangles4/src/main.rs:158-165 | a child is one pixel lower with the same sides and a full countdown. Its size is the parent's angle plus a step, and its angle is the parent's size |
| ShapeTrail.Offspring | rust-triangles4/src/main.rs:145-169 | exactly one child per spawning shape, in list order: entry `i` is the child of the `i`-th spawning shape, and no other shape is appended |
| ShapeTrail.OffspringAppend | rust-triangles4/src/main.rs:148-168 | the children of a list split in two are the children of each part, in order, so `extend` keeps list order |
| ShapeTrail.Survivors | rust-triangles4/src/main.rs:139-140 | the survivors are exactly the shapes that are lit and not past the bottom edge |
| ShapeTrail.Step | rust-triangles4/src/main.rs:139-169 | the list update of a frame after the head block (definition); `StepAges` states what it keeps, and `Trail.Frame` proves the in-place frame ends at it |
| ShapeTrail.StepAges | rust-triangles4/src/main.rs:139-169 | after a step the survivors come first, with countdowns below their length so they cannot spawn again, followed by children with full countdowns; well-formedness is kept |
| ShapeTrail.SpawnsOnlyWhenFresh | rust-triangles4/src/main.rs:141-148 | a lit shape spawns in a step exactly when its countdown was still full before the decrement. That it spawns only once follows from `StepAges`: after a step every survivor's countdown is below its length |
| ShapeTrail.Head | rust-triangles4/src/main.rs:97-104 | the head pushed from the random draws (definition); by `NewHead` its countdown starts full |
| ShapeTrail.Trail.constructor | rust-triangles4/src/main.rs:59-74 | the list starts empty and the flag lowered |
| ShapeTrail.Trail.RequestHead | rust-triangles4/src/main.rs:175-178 | the timer sets the flag |
| ShapeTrail.Trail.AddHead | rust-triangles4/src/main.rs:92-107 | a raised flag is always cleared, and a head is pushed only when the flag was raised and the list is below MAX_SHAPES |
| ShapeTrail.Trail.Retain | rust-triangles4/src/main.rs:139-140 | the list becomes `Filter(old list, keep)` |
| ShapeTrail.Trail.Decrement | rust-triangles4/src/main.rs:141-143 | the list becomes `Dimmed(old list)` |
| ShapeTrail.Trail.Extend | rust-triangles4/src/main.rs:145-169 | the children of the spawning shapes are appended after the old list |
| ShapeTrail.Trail.Frame | rust-triangles4/src/main.rs:91-170 | one frame is the head block followed by retain, retain, decrement and extend, and it keeps the list well-formed |
| Bezier.NextHue | rust-bezier/src/main.rs:25-28 | the hue goes up by one and wraps from 360 to 0, staying in `[0, 360)` |
| Bezier.HueColor | rust-bezier/src/main.rs:30-37 | each segment stays within bytes, alpha is 255, one channel is full and one is empty, and hue 0 is red |
| Bezier.NextHueIterated | rust-bezier/src/main.rs:24-28 | `k` steps from hue `h` land on `(h + k) % 360` |
| Bezier.RainbowCycle | rust-bezier/src/main.rs:24-28 | the rainbow repeats every 360 steps |
| Bezier.Rainbow.constructor | rust-bezier/src/main.rs:17-19 | the iterator starts at the given hue |
| Bezier.Rainbow.Next | rust-bezier/src/main.rs:24-38 | `next` steps the hue and always returns `Some` of the new hue's colour |
| Bezier.Lerp | rust-bezier/src/main.rs:45-47 | `bezier`, linear interpolation (definition); `LerpEnds` proves it runs from `p0` at 0 to `p1` at 1 |
| Bezier.LerpEnds | rust-bezier/src/main.rs:45-47 | `bezier(p0, p1, 0) == p0` and `bezier(p0, p1, 1) == p1` |
| Bezier.Level | rust-bezier/src/main.rs:52-57 | a level has one point fewer, and point `i` is the interpolation of neighbours `i` and `i+1` |
| Bezier.DeCasteljau | rust-bezier/src/main.rs:49-64 | `recurse_bezier` as a function: one `Level` per call (definition). `DeCasteljauShort` and `DeCasteljauEnds` state its short-list and end-point behaviour, and `RecurseBezier` is proved equal to it |
| Bezier.DeCasteljauShort | rust-bezier/src/main.rs:59-63 | zero or one point gives `(0, 0)`, not the point itself, and two points give their interpolation |
| Bezier.DeCasteljauEnds | rust-bezier/src/main.rs:49-64 | with two or more points the curve starts at the first point and ends at the last |
| Bezier.ComputeLevel | rust-bezier/src/main.rs:50-57 | the peeking loop computes exactly one level |
| Bezier.RecurseBezier | rust-bezier/src/main.rs:49-64 | the recursive method computes de Casteljau's point |
| Bezier.Sample | rust-bezier/src/main.rs:87-91 | 1000 samples, sample `k` being the curve at `k / 1000` coloured with hue `(k + 2) % 360` |
| Bezier.Clicked | rust-bezier/src/main.rs:77-81 | the point list after the click handling (definition); `Curve.Frame` proves the list ends as this |
| Bezier.Drawn | rust-bezier/src/main.rs:83-85 | the control points sampled this frame, with the held middle-button point (definition); `Curve.Frame` samples exactly these |
| Bezier.Curve.constructor | rust-bezier/src/main.rs:72 | the point list starts empty |
| Bezier.Curve.Frame | rust-bezier/src/main.rs:77-95 | a left click pushes the pointer, otherwise a right click pops; the middle-button point is used for sampling and then removed, leaving only the click changes |
| Anim.Lerp | rust-tri-circle/src/anim.rs:223-225 | glam's `lerp` on vectors (definition); `LerpEnds` and `LerpReachesGoal` state where it lands |
| Anim.LerpEnds | rust-tri-circle/src/anim.rs:223-225 | the interpolation starts at the value and, at fraction one, lands exactly on the goal |
| Anim.Mul | rust-tri-circle/src/anim.rs:150 | the quaternion product `Transform::rotate` applies (definition); `MulIdentity` proves the identity is neutral |
| Anim.MulIdentity | rust-tri-circle/src/anim.rs:146-152 | the identity quaternion is neutral on both sides, so a turn of speed zero leaves the rotation as it was (used by `Shape.Rotate`) |
| Anim.Advanced | rust-tri-circle/src/anim.rs:175-181 | the index resets to 0 exactly when the chain loops and the next index equals `max`; otherwise it goes up by one; `max` and `looping` are kept |
| Anim.UpdateAnimationIndex | rust-tri-circle/src/anim.rs:173-183 | a missing index stays missing, and a present one advances |
| Anim.LoopingChainCycles | rust-tri-circle/src/anim.rs:175-181 | in a looping chain of length `m` the index after `k` ends is `(index + k) % m` |
| Anim.OpenChainCounts | rust-tri-circle/src/anim.rs:175-181 | a chain that does not loop, or has no length, counts up by `k` past its end |
| Anim.CountDown | rust-tri-circle/src/anim.rs:197-207 | with `steps > 0` the value takes the step at `1 / steps`, `steps` goes down by one and the component is kept. Otherwise the value is untouched, the component removed and the index advanced once |
| Anim.Turn | rust-tri-circle/src/anim.rs:267-270 | the turning step at a fraction (definition); `TurnDividesBySteps` shows it is the source's division by `steps` |
| Anim.TurnDividesBySteps | rust-tri-circle/src/anim.rs:267-270 | the turning step at fraction `1 / steps` is `angle + (goal - angle) / steps` |
| Anim.CountDownReachesGoal | rust-tri-circle/src/anim.rs:197-207 | from `n` steps, with a step exact at fraction one, the value is at the goal after `n` frames with the count at 0. Frame `n + 1` removes the component and advances the index |
| Anim.TurnReachesGoal | rust-tri-circle/src/anim.rs:265-277 | a turn countdown from `n` reaches its angle exactly on frame `n` and is removed on frame `n + 1` |
| Anim.LerpReachesGoal | rust-tri-circle/src/anim.rs:219-232 | move and grow countdowns from `n` reach their goal vector on frame `n` and are removed on frame `n + 1` |
| Anim.Shape.constructor | rust-tri-circle/src/anim.rs:24-76 | a shape with the given translation, angle and index, the identity rotation and unit scale, and no animation component |
| Anim.Shape.Rotate | rust-tri-circle/src/anim.rs:146-152 | the rotation is pre-multiplied by the component's quaternion, and an identity component (speed zero) leaves it unchanged |
| Anim.Shape.Grow | rust-tri-circle/src/anim.rs:153-159 | the scale grows by the factor |
| Anim.Shape.Move | rust-tri-circle/src/anim.rs:160-164 | the translation moves by the direction |
| Anim.Shape.TurnAround | rust-tri-circle/src/anim.rs:165-171 | the angle round the centre grows by the component's angle |
| Anim.Shape.RotateTo | rust-tri-circle/src/anim.rs:185-209 | the rotation, the component and the index become the countdown outcome for the rotation goal |
| Anim.Shape.MoveTo | rust-tri-circle/src/anim.rs:210-233 | the translation, the component and the index become the countdown outcome with `lerp` |
| Anim.Shape.GrowTo | rust-tri-circle/src/anim.rs:234-255 | the scale, the component and the index become the countdown outcome with `lerp` |
| Anim.Shape.TurnAroundTo | rust-tri-circle/src/anim.rs:256-278 | the angle, the component and the index become the countdown outcome of `(goal - angle) / steps` |

## Left out

- Drawing, windowing, events and timing are not modelled. This covers macroquad, fltk and sdl2 drawing, `next_frame`, event pumps, sleeps and the rotation demo's replay animation (`rust-rotation/src/main.rs:170-211`). `Texture2D::from_rgba8` is represented by the byte buffer it receives.
- The HSV-to-RGB conversion of the `palette` crate is a parameter `palette` of the colour rule, as a function of the escape count.
- Floating point: `f32`/`f64` values are reals.
  - No rounding is modelled, and neither are the float `as u8` / `as u32` casts.
  - The exactness of the last countdown step (`CountDownReachesGoal`) holds over the reals.
  - The panel side is a natural number, as the `as u32` cast of the screen size makes it.
- Square roots are not modelled: distances are squared integers. `sqrt` is monotone and separates the integer squares that occur in a window, so the order and the `< 100` test are unchanged (`< 100*100` on squares).
- Randomness: every `gen_range` draw is a parameter.
  - Contracts that need a range require it: clock speeds in `1..=9`, the shape trail's `ValidHeadDraw`, and the rotation demo's `ValidDraw`.
  - The triangle speed drifts (`Triangles.RandomSpeeds`, `Triangles.Frame`, `Triangles2.Update`) hold for any draw, not only the `-1..=1` the generator gives.
  - `Rotation.ValidDraw` is wider than the generator's range. It asks for a side of at least one (not `limit / 3`), and its corner may sit up to and including `w - size` (not strictly below). A side of 0, which `gen_range(limit / 3, limit)` can produce on an image narrower than three pixels, would make `rotate` index an empty slice.
- The timer thread of the shape trail and its atomic flag are modelled as a method, `RequestHead`, called between frames. Concurrency is not modelled.
- Bevy ECS: queries, `Commands` and plugin registration are replaced by one `Shape` object per entity, with absent components as `None`. A component removal is modelled as immediate; Bevy applies it when the command buffer is flushed.
- Animation systems with trigonometry and `lyon` paths are not modelled: `update_circles_radius`, `update_regular_polygons_radius_or_sides` and `update_position_on_arround_center_change`.
- Anim.Shape.RotateTo: `Quat::from_rotation_z` and glam's quaternion `lerp` are not modelled. The interpolation is a parameter `towards`, and the goal is the component's angle.
- Anim.Shape.Rotate: the quaternion of the turn, `from_rotation_z(speed)`, is held by the component already computed, since its trigonometry is not modelled.
- Indexing out of range, where Rust panics, becomes a precondition:
  - `Size` needs a non-empty texture.
  - `Rotated` needs `RowsWithin`: no row longer than the first.
  - `Slice` needs `SliceFits`, `SliceOfSlice` its row bounds, and `Painted` needs `Fits`.
- Rotation.Slice: a zero-height rectangle is held to the same bounds, although Rust's `(0..0).map(..)` returns `[]` without indexing. A `y` past the last row is rejected.
- Rotation.SliceOfSlice: zero rows with `rect.0 > rect.3` are rejected, although Rust returns an empty slice.
- Rotation.Painted: a painting whose trailing rows are empty must still fit vertically, although Rust never indexes for an empty row.
- `TextureSlice::paint` always panics. It is not a member, because a member with an unsatisfiable precondition could never be called.
- `TextureSlice::size`, `inline`, `rotate` and `owned` behave exactly like their `VecTexture` versions on the rows of the slice, so the same functions serve both.
- The `u16` casts in `texture2d` and the panel textures are not modelled.
- `load_image` is not modelled (`rust-rotation/src/main.rs:147-150`). The image's bytes and width are parameters of `IntoVecTexture`.
- Integer widths:
  - `u8` is modelled where it can overflow: the clock fields have a byte subtype, and `TickSafe` states the no-overflow condition.
  - Other integer widths (`i32` positions, `usize` indices, `u16` hues and countdowns) are unbounded.
  - Bezier.Rainbow.Next requires the hue to be below `0xFFFF`, which always holds since the hue is at most 359.
  - Anim.Advanced: the `usize` index increment is unbounded and does not wrap.
- The drawing of lines to the nearest points (`rust-triangles/src/main.rs:88-94`) is left out; only the list it indexes is modelled.
- The other programs of the repository (rain, jumping triangle, Fourier, circles, city, and the scene set-up of the circle-and-triangle demo) are not part of this model.
