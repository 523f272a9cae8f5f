/**
 * Rasterising a bar into the row-major frame buffer (`Bar::draw_bar`,
 * src/main.rs:34-41). The buffer holds `WIDTH * HEIGHT` pixels and pixel
 * `(x, y)` lives at index `x + WIDTH * y`; bars grow up from the bottom row.
 */
module Drawing {
  import opened Config
  import opened BarModel

  /** Buffer index of pixel `(x, y)`. */
  function CellIndex(x: nat, y: nat): nat
  {
    x + WIDTH * y
  }

  /**
   * `draw_bar` runs without a panic in every build profile: the row range
   * `HEIGHT - height` does not underflow (a panic with overflow checks on, a
   * wrap-around to an empty range without them), and every index it writes is
   * inside the buffer, which, once the rectangle is not empty, means the
   * columns end by `WIDTH`.
   */
  predicate Drawable(b: Bar)
  {
    b.height <= HEIGHT && (b.height == 0 || b.width == 0 || b.lpos + b.width <= WIDTH)
  }

  /** Index `k` lies in columns `[b.lpos, b.lpos + b.width)` and rows `[y0, y1)`. */
  predicate Band(b: Bar, k: int, y0: int, y1: int)
  {
    0 <= k && b.lpos <= k % WIDTH < b.lpos + b.width && y0 <= k / WIDTH < y1
  }

  /** Index `k` lies in the rectangle that `draw_bar` paints for `b`. */
  predicate Covers(b: Bar, k: int)
  {
    Band(b, k, HEIGHT - b.height, HEIGHT)
  }

  /** The buffer `s` after `b` is drawn into it. */
  function Painted(b: Bar, s: seq<u32>): seq<u32>
  {
    seq(|s|, k requires 0 <= k < |s| => if Covers(b, k) then b.colour else s[k])
  }

  /** Pixel `(x, y)` with `x < WIDTH` sits at column `x` of row `y`. */
  lemma CellIndexSplits(x: nat, y: nat)
    requires x < WIDTH
    ensures CellIndex(x, y) % WIDTH == x && CellIndex(x, y) / WIDTH == y
  {
  }

  /**
   * For a bar of height at most `HEIGHT`, `Drawable` holds exactly when every
   * pixel of its rectangle indexes inside the `WIDTH * HEIGHT` buffer.
   */
  lemma DrawableIffInBounds(b: Bar)
    requires b.height <= HEIGHT
    ensures Drawable(b) <==>
      forall x: nat, y: nat :: b.lpos <= x < b.lpos + b.width && HEIGHT - b.height <= y < HEIGHT ==>
        CellIndex(x, y) < WIDTH * HEIGHT
  {
    if !Drawable(b) {
      var x, y := b.lpos + b.width - 1, HEIGHT - 1;
      assert CellIndex(x, y) >= WIDTH * HEIGHT;
    }
  }

  /**
   * For a drawable bar, the indices `Covers` picks out are exactly the pixels
   * `(x, y)` of its rectangle.
   */
  lemma CoversIsRectangle(b: Bar, k: int)
    requires Drawable(b) && 0 <= k < WIDTH * HEIGHT
    ensures Covers(b, k) <==>
      exists x: nat, y: nat :: b.lpos <= x < b.lpos + b.width && HEIGHT - b.height <= y < HEIGHT && k == CellIndex(x, y)
  {
    if Covers(b, k) {
      var x, y := k % WIDTH, k / WIDTH;
      assert k == CellIndex(x, y);
    }
    forall x: nat, y: nat | b.lpos <= x < b.lpos + b.width && HEIGHT - b.height <= y < HEIGHT && k == CellIndex(x, y)
      ensures Covers(b, k)
    {
      CellIndexSplits(x, y);
    }
  }

  /** Drawing the same bar twice leaves what drawing it once left. */
  lemma PaintedIdempotent(b: Bar, s: seq<u32>)
    ensures Painted(b, Painted(b, s)) == Painted(b, s)
  {
  }

  /** A bar of height zero, or of width zero, leaves the buffer unchanged. */
  lemma EmptyBarPaintsNothing(b: Bar, s: seq<u32>)
    requires b.height == 0 || b.width == 0
    ensures Painted(b, s) == s
  {
  }

  /**
   * `Bar::draw_bar`: the nested loops over rows `HEIGHT - height .. HEIGHT`
   * and columns `lpos .. lpos + width` store `colour` in every pixel of the
   * rectangle; every other pixel keeps its value.
   */
  method DrawBar(b: Bar, buffer: array<u32>)
    requires buffer.Length == WIDTH * HEIGHT
    requires Drawable(b)
    modifies buffer
    ensures buffer[..] == Painted(b, old(buffer[..]))
    ensures forall k :: 0 <= k < buffer.Length ==> buffer[k] == if Covers(b, k) then b.colour else old(buffer[k])
  {
    var top := HEIGHT - b.height;
    for yval := top to HEIGHT
      invariant forall k :: 0 <= k < buffer.Length ==>
        buffer[k] == if Band(b, k, top, yval) then b.colour else old(buffer[k])
    {
      for xval := b.lpos to b.lpos + b.width
        invariant forall k :: 0 <= k < buffer.Length ==>
          buffer[k] == if Band(b, k, top, yval) || (k / WIDTH == yval && b.lpos <= k % WIDTH < xval)
                       then b.colour else old(buffer[k])
      {
        CellIndexSplits(xval, yval);
        buffer[xval + WIDTH * yval] := b.colour;
      }
    }
    assert buffer[..] == Painted(b, old(buffer[..]));
  }
}
