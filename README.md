# wobbly-bars in Dafny

A model of the simulation and drawing core of *wobbly-bars*. This is a small Rust program that draws sixteen vertical
bars. Each bar oscillates like a damped spring around a centre height, and the mouse pushes a bar when the
left button is held over it. The model covers:

- the `Bar` record and its physics step `update_bar`, split into an integer skeleton and the velocity
  updates in their order (module `BarModel`, `bar.dfy`);
- `draw_bar`, which paints a bar into the row-major `WIDTH * HEIGHT` frame buffer in place
  (module `Drawing`, `draw.dfy`);
- the initial vector of sixteen bars and the column geometry that every later snapshot keeps
  (module `Layout`, `layout.dfy`);
- the per-tick loop that updates every bar in place, and any number of ticks in a row
  (module `Physics`, `physics.dfy`);
- one frame of the presentation loop: clear the buffer, then draw every bar of a snapshot
  (module `Render`, `render.dfy`).

The compile-time constants are in module `Config` (`config.dfy`).

`Bar` (src/main.rs:22-31) derives `Copy` in the program, so it is the datatype `BarModel.Bar` here, with the
same six fields. `update_bar(&mut self)` on an element of the
bar vector becomes `UpdateBar`, which returns the new record. `Tick` writes each new record back into an
`array<Bar>` in place. The frame buffer is an `array<u32>`.

`update_bar` first computes the provisional height `((height as f32) + velocity) as isize`. The model
evaluates that sum exactly over the reals and then applies Rust's cast: round toward zero, saturating at the
bounds of a 64-bit `isize`. The clamp into `[0, HEIGHT]` is proved for every integer, so the bound holds
whatever the float cast produces. The velocity is a `real` and is updated in the program's order: the mouse
acceleration first, then the spring, then the damping.

## Behaviour worth noting

- The hit-test at src/main.rs:49 excludes both edges of a bar. Pressing the button exactly on `lpos` or on
  `lpos + width` pushes no bar, so the leftmost pixel column of every bar is drawn by that bar but cannot be
  pushed (`HitExcludesEdges`, `NoHitNoPush`, `LeftColumnNotHit`).
- The spring term at src/main.rs:52 applies on every tick, including ticks in which the mouse pushes the bar.
  A press adds exactly `ACC_RATE * (1 - DAMPING)` to the velocity the bar would otherwise get
  (`ForcingAddsDampedAcceleration`).
- The debug print at src/main.rs:45-47 shows the height before the velocity is added.

## Model

| member | source | states |
|---|---|---|
| `BarModel.Clamp` | src/main.rs:54-60 | the stored height lies in `[0, HEIGHT]`; a height already in range is kept; the result is the point of `[0, HEIGHT]` nearest to the provisional height |
| `BarModel.Hit` | src/main.rs:49 | a bar can be hit only while the button is down and only if it has a width |
| `BarModel.Provisional` | src/main.rs:48 | the provisional height stays within `isize`; a whole-pixel velocity moves the height by exactly that many pixels unless the cast saturates |
| `BarModel.TruncateToIsize` | src/main.rs:48 | the `as isize` cast stays within the `isize` bounds; it rounds toward zero, down for non-negative values and up for negative ones, unless it saturates |
| `BarModel.Updated` | src/main.rs:43-61 | one tick changes only `height` and `velocity`; `width`, `lpos`, `colour` and `debug` are kept, and the new height is at most `HEIGHT` |
| `BarModel.UpdateBar` | src/main.rs:43-61 | the step-by-step update (provisional height, mouse acceleration, spring, damping, bounds check) gives exactly the closed-form `Updated` |
| `BarModel.HitExcludesEdges` | src/main.rs:49 | the hit area excludes `lpos` and `lpos + width`, includes the midpoint of a bar that has a width, and is empty while the button is up |
| `BarModel.HeightIgnoresMouse` | src/main.rs:48-60 | the height stored in a tick does not depend on the mouse input; the mouse acts only through the velocity |
| `BarModel.ForcingAddsDampedAcceleration` | src/main.rs:49-53 | on a hit, the new velocity is the unpressed velocity plus `ACC_RATE` damped once, so the spring still applies on the forced path |
| `BarModel.NoHitNoPush` | src/main.rs:49-53 | without a hit (button up, or cursor outside the open interval, edges included) the tick is exactly the tick with the button up: no acceleration is added |
| `BarModel.InRangeHeightStored` | src/main.rs:48-60 | when `height + velocity` falls in `[0, HEIGHT]`, the stored height is that sum rounded down, with no clamping |
| `BarModel.EquilibriumIsFixed` | src/main.rs:48-60 | a bar at `CENTRE_HEIGHT` with velocity 0 and the button up is not changed by a tick |
| `Drawing.DrawableIffInBounds` | src/main.rs:36-38 | for a height of at most `HEIGHT`, every index that `draw_bar` writes is inside the `WIDTH * HEIGHT` buffer exactly when the bar is `Drawable`; both directions are proved |
| `Drawing.CoversIsRectangle` | src/main.rs:36-38 | the buffer cells a drawable bar paints are exactly the `x + WIDTH*y` with `lpos <= x < lpos+width` and `HEIGHT-height <= y < HEIGHT` |
| `Drawing.PaintedIdempotent` | src/main.rs:35-41 | drawing a bar twice leaves the same buffer as drawing it once |
| `Drawing.EmptyBarPaintsNothing` | src/main.rs:36-38 | a bar of height 0 or width 0 leaves the buffer unchanged |
| `Drawing.DrawBar` | src/main.rs:35-41 | in place, every cell of the bar's rectangle gets `colour` and every other cell keeps its old value |
| `Layout.InitialBars` | src/main.rs:80-95 | sixteen bars; bar `i` has `width = WIDTH / N_BARS`, `lpos = i * (WIDTH / N_BARS)`, `height = CENTRE_HEIGHT`, velocity 0 and debug off |
| `Layout.InitialBarsWellFormed` | src/main.rs:70-95 | the initial vector has the layout geometry, and `CENTRE_HEIGHT <= HEIGHT` |
| `Layout.WellFormedIsDrawable` | src/main.rs:80-95 | in that geometry the columns are pairwise disjoint, each ends by `WIDTH`, and `draw_bar` is safe for every bar |
| `Layout.DisjointCoversOnce` | src/main.rs:36-38 | with disjoint columns, no buffer cell is painted by two bars |
| `Layout.AtMostOneBarHit` | src/main.rs:49 | in that geometry, a cursor inside one bar's hit area is outside every other bar's, so a press pushes at most one bar per tick |
| `Layout.LeftColumnNotHit` | src/main.rs:49 | a cursor on the leftmost pixel column of any bar pushes no bar, although that column is drawn by the bar |
| `Physics.Tick` | src/main.rs:103-105 | in place, every element of the bar array becomes its update with the same input; the length is unchanged |
| `Physics.Run` | src/main.rs:98-108 | any number of successive ticks keeps the number of bars and each bar's width, `lpos`, colour and debug flag |
| `Physics.TickPreservesLayout` | src/main.rs:103-105 | one tick keeps the geometry (so `0 <= height <= HEIGHT`), the colours and the debug flags |
| `Physics.RunPreservesLayout` | src/main.rs:98-108 | any sequence of ticks, with any inputs, keeps the geometry, the colours and the debug flags |
| `Physics.PublishedSnapshotsWellFormed` | src/main.rs:80-109 | every snapshot reached from the initial vector has the layout geometry and disjoint columns |
| `Render.ClearBuffer` | src/main.rs:125-127 | every buffer cell becomes 0 |
| `Render.DrawBars` | src/main.rs:133-135 | drawing the bars one after another leaves the buffer as `PaintAll`, each bar painted over the previous result |
| `Render.PaintAllAt` | src/main.rs:133-135 | with disjoint columns, each cell ends with the colour of the one bar covering it; a cell no bar covers keeps its value |
| `Render.RenderFrame` | src/main.rs:125-135 | after the clear and the drawing of a well-formed snapshot, each cell holds its covering bar's colour, or 0 if no bar covers it |

## Left out

- The physics thread and the two `mpsc` channels are not modelled (src/main.rs:66-67, 78, 96, 101-102, 106-113, 132, 136, 140). This includes shutdown by dropping the receiver (src/main.rs:146). `Run` stands for the ticks in which an input arrived. The `Err` branch of the receive, where no update happens, is not modelled.
- The minifb window is not modelled: creation, key and mouse polling, and `update_with_buffer` (src/main.rs:71-75, 123, 128-131, 139, 144). It is a foreign library that does I/O. The mouse position and button state are parameters.
- Wall-clock pacing is not modelled: `precise_time_ns` and `sleep` (src/main.rs:97, 99, 114-116). It depends on the clock and the OS.
- The debug `println!` (src/main.rs:45-47) is not modelled. It is diagnostic output and changes no state.
- UpdateBar: the velocity arithmetic is exact over the reals, not `f32`. Rounding of the sum, the spring and the damping is not modelled, and neither are NaN or infinite velocities. The clamp bound holds for every integer the cast can produce, so it does not rely on this.
- Updated: the mouse position is a real, and `lpos as f32` and `(lpos + width) as f32` are exact. That is true for the layout's values, which are at most 1024, but not for every `usize`.
- DrawBar: the model requires `Drawable` and does not model what the program does for other bars. A bar whose rectangle reaches past the buffer panics on an out-of-range index in every build. A bar with `height > HEIGHT` panics on the `usize` underflow of `HEIGHT - height` when overflow checks are on (debug builds). In release builds the subtraction wraps around, the row range is empty, and nothing is drawn. Every bar that the layout and the ticks produce is drawable (`PublishedSnapshotsWellFormed`).
- `usize` overflow of `lpos + width` is not modelled; the model uses unbounded naturals.
