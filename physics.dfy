/** The per-tick update of every bar in the physics thread (src/main.rs:98-108). */
module Physics {
  import opened BarModel
  import opened Layout

  /** One message of the mouse channel: cursor x position and left-button state. */
  datatype Input = Input(mouseX: real, mousedown: bool)

  /** Every bar of `bars` after one tick with the same mouse input. */
  function TickAll(bars: seq<Bar>, input: Input): seq<Bar>
  {
    seq(|bars|, i requires 0 <= i < |bars| => Updated(bars[i], input.mouseX, input.mousedown))
  }

  /** The bars after one tick for each received input, in order. */
  function Run(bars: seq<Bar>, inputs: seq<Input>): (r: seq<Bar>)
    ensures |r| == |bars|
    ensures forall i :: 0 <= i < |bars| ==>
      r[i].width == bars[i].width && r[i].lpos == bars[i].lpos &&
      r[i].colour == bars[i].colour && r[i].debug == bars[i].debug
    decreases |inputs|
  {
    if inputs == [] then bars else Run(TickAll(bars, inputs[0]), inputs[1..])
  }

  /**
   * `for bar in bars.iter_mut() { bar.update_bar(x, down) }`: every element of
   * the vector is replaced, in place, by its update with the one input; the
   * length does not change.
   */
  method Tick(bars: array<Bar>, input: Input)
    modifies bars
    ensures bars[..] == TickAll(old(bars[..]), input)
  {
    for i := 0 to bars.Length
      invariant forall j :: 0 <= j < i ==> bars[j] == Updated(old(bars[j]), input.mouseX, input.mousedown)
      invariant forall j :: i <= j < bars.Length ==> bars[j] == old(bars[j])
    {
      bars[i] := UpdateBar(bars[i], input.mouseX, input.mousedown);
    }
  }

  /** One tick keeps the geometry, the colours and the debug flags of a well-formed vector. */
  lemma TickPreservesLayout(bars: seq<Bar>, input: Input)
    requires WellFormed(bars)
    ensures WellFormed(TickAll(bars, input))
    ensures forall i :: 0 <= i < |bars| ==>
      TickAll(bars, input)[i].colour == bars[i].colour && TickAll(bars, input)[i].debug == bars[i].debug
  {
  }

  /**
   * Any number of ticks, with any inputs, keeps the geometry, the colours and
   * the debug flags: every bar stays in its column with `0 <= height <= HEIGHT`.
   */
  lemma {:induction false} RunPreservesLayout(bars: seq<Bar>, inputs: seq<Input>)
    requires WellFormed(bars)
    ensures WellFormed(Run(bars, inputs))
    ensures forall i :: 0 <= i < |bars| ==>
      Run(bars, inputs)[i].colour == bars[i].colour && Run(bars, inputs)[i].debug == bars[i].debug
    decreases |inputs|
  {
    if inputs != [] {
      TickPreservesLayout(bars, inputs[0]);
      RunPreservesLayout(TickAll(bars, inputs[0]), inputs[1..]);
    }
  }

  /**
   * Every snapshot the physics thread publishes, after any sequence of inputs,
   * is well formed: disjoint columns inside the window, each bar drawable.
   */
  lemma PublishedSnapshotsWellFormed(inputs: seq<Input>)
    ensures WellFormed(Run(InitialBars(), inputs))
    ensures Disjoint(Run(InitialBars(), inputs))
  {
    InitialBarsWellFormed();
    RunPreservesLayout(InitialBars(), inputs);
    WellFormedIsDrawable(Run(InitialBars(), inputs));
  }
}
