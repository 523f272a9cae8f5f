/**
 * One frame of the presentation loop on the frame buffer: clear it
 * (src/main.rs:125-127), then draw every bar of the received snapshot
 * (src/main.rs:133-135).
 */
module Render {
  import opened Config
  import opened BarModel
  import opened Drawing
  import opened Layout

  /** The buffer `s` after every bar of `bars` is drawn into it, first to last. */
  function PaintAll(bars: seq<Bar>, s: seq<u32>): seq<u32>
    decreases |bars|
  {
    if bars == [] then s else Painted(bars[|bars| - 1], PaintAll(bars[..|bars| - 1], s))
  }

  /** `for i in buffer.iter_mut() { *i = 0; }`: every pixel becomes 0. */
  method ClearBuffer(buffer: array<u32>)
    modifies buffer
    ensures forall k :: 0 <= k < buffer.Length ==> buffer[k] == 0
  {
    for i := 0 to buffer.Length
      invariant forall k :: 0 <= k < i ==> buffer[k] == 0
    {
      buffer[i] := 0;
    }
  }

  /** `for bar in r.iter() { bar.draw_bar(&mut buffer) }`. */
  method DrawBars(bars: seq<Bar>, buffer: array<u32>)
    requires buffer.Length == WIDTH * HEIGHT
    requires forall i :: 0 <= i < |bars| ==> Drawable(bars[i])
    modifies buffer
    ensures buffer[..] == PaintAll(bars, old(buffer[..]))
  {
    for i := 0 to |bars|
      invariant buffer[..] == PaintAll(bars[..i], old(buffer[..]))
    {
      assert bars[..i + 1][..i] == bars[..i];
      DrawBar(bars[i], buffer);
    }
    assert bars[..|bars|] == bars;
  }

  /**
   * With disjoint columns, drawing all bars gives each pixel the colour of the
   * one bar covering it, and leaves every uncovered pixel as it was.
   */
  lemma {:induction false} PaintAllAt(bars: seq<Bar>, s: seq<u32>, k: int)
    requires Disjoint(bars) && 0 <= k < |s|
    ensures |PaintAll(bars, s)| == |s|
    ensures forall i :: 0 <= i < |bars| && Covers(bars[i], k) ==> PaintAll(bars, s)[k] == bars[i].colour
    ensures (forall i :: 0 <= i < |bars| ==> !Covers(bars[i], k)) ==> PaintAll(bars, s)[k] == s[k]
    decreases |bars|
  {
    if bars != [] {
      var n := |bars| - 1;
      var init := bars[..n];
      PaintAllAt(init, s, k);
      forall i | 0 <= i < |bars| && Covers(bars[i], k)
        ensures PaintAll(bars, s)[k] == bars[i].colour
      {
        if Covers(bars[n], k) {
          DisjointCoversOnce(bars, i, n, k);
        } else {
          assert init[i] == bars[i];
        }
      }
    }
  }

  /**
   * One frame: after the clear and the drawing of a well-formed snapshot,
   * each pixel holds the colour of the bar whose rectangle covers it, and 0
   * where no bar does.
   */
  method RenderFrame(snapshot: seq<Bar>, buffer: array<u32>)
    requires buffer.Length == WIDTH * HEIGHT
    requires WellFormed(snapshot)
    modifies buffer
    ensures forall k, i :: 0 <= k < buffer.Length && 0 <= i < |snapshot| && Covers(snapshot[i], k) ==>
      buffer[k] == snapshot[i].colour
    ensures forall k :: 0 <= k < buffer.Length && (forall i :: 0 <= i < |snapshot| ==> !Covers(snapshot[i], k)) ==>
      buffer[k] == 0
  {
    ClearBuffer(buffer);
    WellFormedIsDrawable(snapshot);
    ghost var cleared := buffer[..];
    DrawBars(snapshot, buffer);
    forall k | 0 <= k < buffer.Length
      ensures forall i :: 0 <= i < |snapshot| && Covers(snapshot[i], k) ==> buffer[k] == snapshot[i].colour
      ensures (forall i :: 0 <= i < |snapshot| ==> !Covers(snapshot[i], k)) ==> buffer[k] == 0
    {
      PaintAllAt(snapshot, cleared, k);
    }
  }
}
