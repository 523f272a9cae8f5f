/** The bars the physics thread starts from (src/main.rs:70, 80-95) and the geometry they keep. */
module Layout {
  import opened Config
  import opened BarModel
  import opened Drawing

  /**
   * The sixteen bars of the initial vector: bar `i` sits at `i * BAR_WIDTH`,
   * one column wide, at rest at the centre height, with its palette colour.
   */
  function InitialBars(): (bars: seq<Bar>)
    ensures |bars| == N_BARS
    ensures forall i :: 0 <= i < |bars| ==>
      bars[i].width == BAR_WIDTH && bars[i].lpos == i * BAR_WIDTH &&
      bars[i].height == CENTRE_HEIGHT && bars[i].velocity == 0.0 && !bars[i].debug
  {
    [Bar(BAR_WIDTH, 0, CENTRE_HEIGHT, 0.0, 0x0000CC, false),
     Bar(BAR_WIDTH, BAR_WIDTH * 1, CENTRE_HEIGHT, 0.0, 0xCC00CC, false),
     Bar(BAR_WIDTH, BAR_WIDTH * 2, CENTRE_HEIGHT, 0.0, 0x99004C, false),
     Bar(BAR_WIDTH, BAR_WIDTH * 3, CENTRE_HEIGHT, 0.0, 0x00CC66, false),
     Bar(BAR_WIDTH, BAR_WIDTH * 4, CENTRE_HEIGHT, 0.0, 0x0000FF, false),
     Bar(BAR_WIDTH, BAR_WIDTH * 5, CENTRE_HEIGHT, 0.0, 0x00FF00, false),
     Bar(BAR_WIDTH, BAR_WIDTH * 6, CENTRE_HEIGHT, 0.0, 0x808080, false),
     Bar(BAR_WIDTH, BAR_WIDTH * 7, CENTRE_HEIGHT, 0.0, 0x009900, false),
     Bar(BAR_WIDTH, BAR_WIDTH * 8, CENTRE_HEIGHT, 0.0, 0xCCCC00, false),
     Bar(BAR_WIDTH, BAR_WIDTH * 9, CENTRE_HEIGHT, 0.0, 0x009900, false),
     Bar(BAR_WIDTH, BAR_WIDTH * 10, CENTRE_HEIGHT, 0.0, 0x808080, false),
     Bar(BAR_WIDTH, BAR_WIDTH * 11, CENTRE_HEIGHT, 0.0, 0x00FF00, false),
     Bar(BAR_WIDTH, BAR_WIDTH * 12, CENTRE_HEIGHT, 0.0, 0x0000FF, false),
     Bar(BAR_WIDTH, BAR_WIDTH * 13, CENTRE_HEIGHT, 0.0, 0x00CC66, false),
     Bar(BAR_WIDTH, BAR_WIDTH * 14, CENTRE_HEIGHT, 0.0, 0x99004C, false),
     Bar(BAR_WIDTH, BAR_WIDTH * 15, CENTRE_HEIGHT, 0.0, 0xCC00CC, false)]
  }

  /**
   * The geometry every snapshot of the bars keeps: sixteen bars, bar `i` at
   * `i * BAR_WIDTH` with width `BAR_WIDTH`, and a height within the window.
   */
  predicate WellFormed(bars: seq<Bar>)
  {
    |bars| == N_BARS &&
    forall i :: 0 <= i < |bars| ==>
      bars[i].width == BAR_WIDTH && bars[i].lpos == i * BAR_WIDTH && bars[i].height <= HEIGHT
  }

  /** No two bars share a column. */
  predicate Disjoint(bars: seq<Bar>)
  {
    forall i, j :: 0 <= i < j < |bars| ==>
      bars[i].lpos + bars[i].width <= bars[j].lpos || bars[j].lpos + bars[j].width <= bars[i].lpos
  }

  /** The initial vector is well formed, and its centre height is within the window. */
  lemma InitialBarsWellFormed()
    ensures WellFormed(InitialBars())
    ensures CENTRE_HEIGHT <= HEIGHT
  {
  }

  /**
   * In a well-formed vector the columns are pairwise disjoint, each ends by
   * `WIDTH`, and so `draw_bar` is safe for every bar.
   */
  lemma WellFormedIsDrawable(bars: seq<Bar>)
    requires WellFormed(bars)
    ensures Disjoint(bars)
    ensures forall i :: 0 <= i < |bars| ==> bars[i].lpos + bars[i].width <= WIDTH && Drawable(bars[i])
  {
    assert BAR_WIDTH == 64;
    forall i, j | 0 <= i < j < |bars|
      ensures bars[i].lpos + bars[i].width <= bars[j].lpos
    {
      assert (i + 1) * 64 <= j * 64;
    }
    forall i | 0 <= i < |bars|
      ensures bars[i].lpos + bars[i].width <= WIDTH
    {
      assert (i + 1) * 64 <= 16 * 64;
    }
  }

  /** No buffer index is covered by two different bars of a disjoint vector. */
  lemma DisjointCoversOnce(bars: seq<Bar>, i: int, j: int, k: int)
    requires Disjoint(bars) && 0 <= i < |bars| && 0 <= j < |bars|
    requires Covers(bars[i], k) && Covers(bars[j], k)
    ensures i == j
  {
  }

  /**
   * In a well-formed vector, a mouse press moves at most one bar in a tick:
   * a cursor inside one bar's hit area is outside every other bar's.
   */
  lemma AtMostOneBarHit(bars: seq<Bar>, mouseX: real, i: int)
    requires WellFormed(bars) && 0 <= i < |bars| && Hit(bars[i], mouseX, true)
    ensures forall j :: 0 <= j < |bars| && j != i ==> !Hit(bars[j], mouseX, true)
  {
    WellFormedIsDrawable(bars);
    forall j | 0 <= j < |bars| && j != i
      ensures !Hit(bars[j], mouseX, true)
    {
      if j < i {
        assert (bars[j].lpos + bars[j].width) as real <= bars[i].lpos as real;
      } else {
        assert (bars[i].lpos + bars[i].width) as real <= bars[j].lpos as real;
      }
    }
  }

  /**
   * The hit areas leave a gap at each bar's left column: with the cursor on
   * pixel column `i * BAR_WIDTH`, which bar `i` draws, no bar is pushed.
   */
  lemma LeftColumnNotHit(bars: seq<Bar>, i: int)
    requires WellFormed(bars) && 0 <= i < |bars|
    ensures forall j :: 0 <= j < |bars| ==> !Hit(bars[j], (i * BAR_WIDTH) as real, true)
    ensures 0 < bars[i].height ==> Covers(bars[i], CellIndex(bars[i].lpos, HEIGHT - 1))
  {
    assert BAR_WIDTH == 64;
    forall j | 0 <= j < |bars|
      ensures !Hit(bars[j], (i * BAR_WIDTH) as real, true)
    {
      if j < i {
        assert (j + 1) * 64 <= i * 64;
        assert (bars[j].lpos + bars[j].width) as real <= (i * BAR_WIDTH) as real;
      } else {
        assert (i * BAR_WIDTH) as real <= bars[j].lpos as real;
      }
    }
    if 0 < bars[i].height {
      assert i * 64 + 64 <= 1024;
      CellIndexSplits(bars[i].lpos, HEIGHT - 1);
    }
  }
}
