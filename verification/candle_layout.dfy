/** Where each candle glyph is drawn: body and wick heights, the baseline
    of its level, the centre offset by direction, and the clamped top. */
module CandleLayout {
  import opened ChartMath
  import opened ChartData

  /** The shared mobile/desktop classification that sizes the chart. */
  datatype Viewport = Mobile | Desktop

  function PlotHeight(v: Viewport): int { if v.Mobile? then 250 else 340 }
  function BodyScale(v: Viewport): real { if v.Mobile? then 0.85 else 1.35 }
  function WickTop(v: Viewport): int { if v.Mobile? then 10 else 14 }
  function WickBottom(v: Viewport): int { if v.Mobile? then 10 else 14 }
  function PerYearOffset(v: Viewport): int { if v.Mobile? then 7 else 18 }
  function UpDownOffsetY(v: Viewport): int { if v.Mobile? then 7 else 12 }

  /** The computed placement of one candle inside its year column. */
  datatype Glyph = Glyph(bodyH: int, totalH: int, baselineY: real, centerY: real, top: real, xShift: int)

  /** The margin kept free above and below every glyph. */
  const Edge: real := 10.0

  /** The lowest top that keeps a glyph of height `totalH` off the bottom edge. */
  function TopLimit(v: Viewport, totalH: int): real {
    PlotHeight(v) as real - totalH as real - Edge
  }

  /** The height at which a level sits: level 0 at the bottom of the plot,
      `MaxLevel` at its top. */
  function BaselineY(level: real, v: Viewport): real {
    PlotHeight(v) as real - (level / MaxLevel) * PlotHeight(v) as real
  }

  /** The per-candle geometry of the chart. */
  function Layout(c: Candle, v: Viewport): (g: Glyph)
    ensures g.baselineY == BaselineY(c.level, v)
    ensures g.totalH == WickTop(v) + g.bodyH + WickBottom(v)
    ensures c.intensity * BodyScale(v) - 0.5 < g.bodyH as real <= c.intensity * BodyScale(v) + 0.5
    ensures Edge <= TopLimit(v, g.totalH) ==> Edge <= g.top <= TopLimit(v, g.totalH)
    ensures TopLimit(v, g.totalH) < Edge ==> g.top == Edge
    ensures Edge <= g.centerY - g.totalH as real / 2.0 <= TopLimit(v, g.totalH) ==> g.top == g.centerY - g.totalH as real / 2.0
    ensures g.centerY - g.totalH as real / 2.0 < Edge ==> g.top == Edge
    ensures Edge <= TopLimit(v, g.totalH) < g.centerY - g.totalH as real / 2.0 ==> g.top == TopLimit(v, g.totalH)
    ensures c.kind.Up? ==> g.centerY < g.baselineY && g.xShift < 0
    ensures c.kind.Down? ==> g.centerY > g.baselineY && g.xShift > 0
    ensures c.kind.Up? ==> g.baselineY - g.centerY == UpDownOffsetY(v) as real && g.xShift == -PerYearOffset(v)
    ensures c.kind.Down? ==> g.centerY - g.baselineY == UpDownOffsetY(v) as real && g.xShift == PerYearOffset(v)
  {
    var isUp := c.kind.Up?;
    var bodyH := Round(c.intensity * BodyScale(v));
    var totalH := WickTop(v) + bodyH + WickBottom(v);
    var plotH := PlotHeight(v) as real;
    var baselineY := BaselineY(c.level, v);
    var centerY := baselineY + (if isUp then -UpDownOffsetY(v) else UpDownOffsetY(v)) as real;
    var top := Clamp(centerY - totalH as real / 2.0, Edge, TopLimit(v, totalH));
    var xShift := if isUp then -PerYearOffset(v) else PerYearOffset(v);
    Glyph(bodyH, totalH, baselineY, centerY, top, xShift)
  }

  /** A level on the scale puts the baseline inside the plot. */
  lemma BaselineInPlot(c: Candle, v: Viewport)
    requires 0.0 <= c.level <= MaxLevel
    ensures 0.0 <= Layout(c, v).baselineY <= PlotHeight(v) as real
  {
    var plotH := PlotHeight(v) as real;
    assert 0.0 <= c.level / MaxLevel <= 1.0;
    assert 0.0 <= (c.level / MaxLevel) * plotH <= plotH;
  }

  /** Higher levels sit higher up: screen y grows downwards, so a larger
      level never gives a lower baseline. */
  lemma BaselineDescends(level1: real, level2: real, v: Viewport)
    requires level1 <= level2
    ensures BaselineY(level2, v) <= BaselineY(level1, v)
    ensures level1 < level2 ==> BaselineY(level2, v) < BaselineY(level1, v)
  {
    var plotH := PlotHeight(v) as real;
    assert (level2 / MaxLevel) * plotH - (level1 / MaxLevel) * plotH == ((level2 - level1) / MaxLevel) * plotH;
  }

  /** Candles on one level share a baseline; an up and a down candle are
      offset from it, vertically and horizontally, by the same amount in
      opposite directions. */
  lemma PairSymmetric(up: Candle, down: Candle, v: Viewport)
    requires up.kind.Up? && down.kind.Down? && up.level == down.level
    ensures Layout(up, v).baselineY == Layout(down, v).baselineY
    ensures Layout(up, v).centerY - Layout(up, v).baselineY
         == -(Layout(down, v).centerY - Layout(down, v).baselineY)
    ensures Layout(up, v).xShift == -Layout(down, v).xShift != 0
  {
  }

  /** Up to intensity 200 the band `[10, plotHeight - totalH - 10]` is
      non-empty in both viewports, so clamping keeps the glyph inside it. */
  lemma BandNonEmpty(c: Candle, v: Viewport)
    requires 0.0 <= c.intensity <= 200.0
    ensures Edge <= TopLimit(v, Layout(c, v).totalH)
    ensures Edge <= Layout(c, v).top <= TopLimit(v, Layout(c, v).totalH)
  {
    var g := Layout(c, v);
    assert c.intensity * BodyScale(v) <= 200.0 * BodyScale(v);
  }

  /** Every candle of the dataset, in both viewports, is drawn inside the band. */
  lemma CandleDataInBand(v: Viewport)
    ensures forall i :: 0 <= i < |CandleData| ==>
      Edge <= Layout(CandleData[i], v).top <= TopLimit(v, Layout(CandleData[i], v).totalH)
  {
    CandleDataWellFormed();
    forall i | 0 <= i < |CandleData|
      ensures Edge <= Layout(CandleData[i], v).top <= TopLimit(v, Layout(CandleData[i], v).totalH)
    {
      BandNonEmpty(CandleData[i], v);
    }
  }

  /** The same-year candles of the dataset are mirror images around one baseline. */
  lemma CandleDataPairsSymmetric(i: nat, j: nat, v: Viewport)
    requires i < |CandleData| && j < |CandleData|
    requires CandleData[i].year == CandleData[j].year
    requires CandleData[i].kind.Up? && CandleData[j].kind.Down?
    ensures Layout(CandleData[i], v).baselineY == Layout(CandleData[j], v).baselineY
    ensures Layout(CandleData[i], v).centerY - Layout(CandleData[i], v).baselineY
         == -(Layout(CandleData[j], v).centerY - Layout(CandleData[j], v).baselineY)
  {
    CandleDataWellFormed();
    PairSymmetric(CandleData[i], CandleData[j], v);
  }

  /** The last green candle of 2025 on desktop: a 78 px body, a 106 px glyph,
      and a top pinned to the upper edge. */
  lemma Aethir2025Desktop()
    ensures Layout(CandleData[9], Desktop).bodyH == 78
    ensures Layout(CandleData[9], Desktop).totalH == 106
    ensures Layout(CandleData[9], Desktop).top == 10.0
  {
    var g := Layout(CandleData[9], Desktop);
    assert 58.0 * 1.35 == 78.3;
    assert g.bodyH == 78;
    assert g.baselineY == 340.0 - (4.2 / 4.5) * 340.0;
    assert g.centerY - 53.0 < 10.0;
  }
}
