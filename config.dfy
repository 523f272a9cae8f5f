/** Compile-time configuration of the wobbly-bars program (src/main.rs:11-21). */
module Config {

  /** Window width in pixels. */
  const WIDTH: nat := 1024
  /** Window height in pixels. */
  const HEIGHT: nat := 768
  /** Number of bars across the window. */
  const N_BARS: nat := 16
  /** Equilibrium height that the spring pulls every bar towards. */
  const CENTRE_HEIGHT: nat := 256
  /** Velocity added in one tick while the mouse button is held over a bar. */
  const ACC_RATE: real := 6.0
  /** Spring constant divided by mass. */
  const SPRING_RATE: real := 0.02
  /** Fraction of the velocity removed by damping in each tick. */
  const DAMPING: real := 0.07

  /** Column width of every bar: `WIDTH / N_BARS` in unsigned integer division. */
  const BAR_WIDTH: nat := WIDTH / N_BARS

  /** Bounds of Rust's `isize` on a 64-bit target. */
  const ISIZE_MIN: int := -0x8000_0000_0000_0000
  const ISIZE_MAX: int := 0x7FFF_FFFF_FFFF_FFFF

  /** A packed RGB pixel, Rust's `u32`. */
  newtype u32 = x: int | 0 <= x < 0x1_0000_0000
}
