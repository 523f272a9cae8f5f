/** One bar and its physics step (`Bar` and `Bar::update_bar`, src/main.rs:22-61). */
module BarModel {
  import opened Config

  /**
   * One vertical bar. `width`, `lpos` and `height` are `usize` in the program,
   * `velocity` is an `f32` in pixels per tick, modelled here as an exact real.
   */
  datatype Bar = Bar(width: nat, lpos: nat, height: nat, velocity: real, colour: u32, debug: bool)

  /** Distance between two integers. */
  function Dist(a: int, b: int): nat
  {
    if a < b then b - a else a - b
  }

  /**
   * The bounds check that turns the provisional `isize` height back into a
   * `usize`: the result lies in `[0, HEIGHT]` and is the point of that range
   * nearest to `h`, so a height already in range is kept as it is.
   */
  function Clamp(h: int): (r: nat)
    ensures r <= HEIGHT
    ensures 0 <= h <= HEIGHT ==> r == h
    ensures forall v :: 0 <= v <= HEIGHT ==> Dist(h, r) <= Dist(h, v)
  {
    if h > HEIGHT then HEIGHT else if h < 0 then 0 else h
  }

  /**
   * Rust's `f32 as isize` cast on the (exact) value `x`: rounds toward zero and
   * saturates at the bounds of `isize`.
   */
  function TruncateToIsize(x: real): (r: int)
    ensures ISIZE_MIN <= r <= ISIZE_MAX
    ensures 0.0 <= x ==> 0 <= r && r as real <= x && (r < ISIZE_MAX ==> x < (r + 1) as real)
    ensures x < 0.0 ==> r <= 0 && x <= r as real && (ISIZE_MIN < r ==> (r - 1) as real < x)
  {
    if 0.0 <= x then
      if x.Floor > ISIZE_MAX then ISIZE_MAX else x.Floor
    else
      var t := -((-x).Floor);
      if t < ISIZE_MIN then ISIZE_MIN else t
  }

  /**
   * The mouse hit-test of `update_bar`: the button is down and the cursor lies
   * strictly between the bar's left and right edges.
   */
  predicate Hit(b: Bar, mouseX: real, mousedown: bool): (h: bool)
    ensures h ==> mousedown && 0 < b.width
  {
    mouseX < (b.lpos + b.width) as real && mouseX > b.lpos as real && mousedown
  }

  /**
   * The provisional height of one tick: the old height plus the velocity, cast
   * to `isize`. It stays within `isize`, and a whole-pixel velocity moves the
   * height by exactly that many pixels unless the cast saturates.
   */
  function Provisional(b: Bar): (p: int)
    ensures ISIZE_MIN <= p <= ISIZE_MAX
    ensures b.velocity == b.velocity.Floor as real && ISIZE_MIN <= b.height + b.velocity.Floor <= ISIZE_MAX ==>
      p == b.height + b.velocity.Floor
  {
    TruncateToIsize(b.height as real + b.velocity)
  }

  /**
   * What one tick of `update_bar` makes of a bar, in closed form: the height is
   * the clamped provisional height, the velocity is the old velocity plus the
   * mouse acceleration (when hit), minus the spring term of the provisional
   * height, all of it then damped. Nothing else changes.
   */
  function Updated(b: Bar, mouseX: real, mousedown: bool): (r: Bar)
    ensures r.width == b.width && r.lpos == b.lpos && r.colour == b.colour && r.debug == b.debug
    ensures r.height <= HEIGHT
  {
    var p := Provisional(b);
    var push := if Hit(b, mouseX, mousedown) then ACC_RATE else 0.0;
    b.(height := Clamp(p),
       velocity := (b.velocity + push - (p - CENTRE_HEIGHT) as real * SPRING_RATE) * (1.0 - DAMPING))
  }

  /**
   * `Bar::update_bar`, step by step as the program does it: provisional height,
   * mouse acceleration, spring, damping, then the bounds check and commit.
   * The bar is a `Copy` value, so the update returns the new record.
   */
  method UpdateBar(b: Bar, mouseX: real, mousedown: bool) returns (r: Bar)
    ensures r == Updated(b, mouseX, mousedown)
  {
    var height: int := b.height;
    height := TruncateToIsize(height as real + b.velocity);
    var velocity := b.velocity;
    if mouseX < (b.lpos + b.width) as real && mouseX > b.lpos as real && mousedown {
      velocity := velocity + ACC_RATE;
    }
    velocity := velocity - (height as real - CENTRE_HEIGHT as real) * SPRING_RATE;
    velocity := velocity - velocity * DAMPING;
    if height > HEIGHT {
      height := HEIGHT;
    } else if height < 0 {
      height := 0;
    }
    r := b.(height := height, velocity := velocity);
  }

  /** Both edges of a bar are outside its hit area; its midpoint is inside when it has a width. */
  lemma HitExcludesEdges(b: Bar)
    ensures !Hit(b, b.lpos as real, true)
    ensures !Hit(b, (b.lpos + b.width) as real, true)
    ensures 0 < b.width ==> Hit(b, b.lpos as real + b.width as real / 2.0, true)
    ensures forall x :: !Hit(b, x, false)
  {
  }

  /**
   * The height written in a tick depends only on the bar's old state, never on
   * the mouse: the mouse acts on the velocity, and so on the next tick's height.
   */
  lemma HeightIgnoresMouse(b: Bar, x1: real, d1: bool, x2: real, d2: bool)
    ensures Updated(b, x1, d1).height == Updated(b, x2, d2).height
  {
  }

  /**
   * Pressing the mouse over a bar adds exactly `ACC_RATE` damped once to the
   * velocity the bar would get without the press: the spring term is applied on
   * both paths, it is not replaced by the mouse acceleration.
   */
  lemma ForcingAddsDampedAcceleration(b: Bar, mouseX: real)
    requires Hit(b, mouseX, true)
    ensures Updated(b, mouseX, true).velocity == Updated(b, mouseX, false).velocity + ACC_RATE * (1.0 - DAMPING)
  {
  }

  /**
   * Without a hit, whether from the button being up or from the cursor being
   * outside the open interval, edges included, the tick is exactly the tick
   * with the button up: no acceleration is added.
   */
  lemma NoHitNoPush(b: Bar, mouseX: real, mousedown: bool)
    requires !Hit(b, mouseX, mousedown)
    ensures Updated(b, mouseX, mousedown) == Updated(b, mouseX, false)
  {
  }

  /**
   * When the old height plus the velocity lands inside `[0, HEIGHT]`, the new
   * height is that sum rounded down: the bounds check does not alter it.
   */
  lemma InRangeHeightStored(b: Bar, mouseX: real, mousedown: bool)
    requires 0.0 <= b.height as real + b.velocity < (HEIGHT + 1) as real
    ensures Updated(b, mouseX, mousedown).height == (b.height as real + b.velocity).Floor
  {
  }

  /** A bar resting at `CENTRE_HEIGHT` with no velocity and no mouse press stays exactly as it is. */
  lemma EquilibriumIsFixed(b: Bar, mouseX: real)
    requires b.height == CENTRE_HEIGHT && b.velocity == 0.0
    ensures Updated(b, mouseX, false) == b
  {
  }
}
