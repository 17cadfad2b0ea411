/** Placement of the desktop tooltip next to the hovered candle: centred
    on the candle and clamped inside the window horizontally; above the
    candle when an estimated 190 px panel fits there, otherwise below. */
module Tooltip {
  import opened Wrappers
  import opened ChartMath
  import opened ChartInteraction

  const TooltipWidth: real := 390.0
  const Margin: real := 12.0
  const Gap: real := 14.0
  const EstimatedHeight: real := 190.0

  /** `window.innerWidth`, or 1200 where there is no window. */
  function WindowWidth(innerWidth: Option<real>): (w: real)
    ensures innerWidth.Some? ==> w == innerWidth.value
    ensures innerWidth.None? ==> w == 1200.0
  {
    innerWidth.GetOr(1200.0)
  }

  datatype Placement = Placement(left: real, top: real)

  /** Whether the panel has to go below the candle: there is not room for it above. */
  predicate FlipsBelow(rect: Rect) {
    rect.top - Gap - EstimatedHeight < Margin
  }

  /** The desktop tooltip's `left` and `top` for a candle at `rect` in a
      window `ww` wide. */
  function DesktopPlacement(rect: Rect, ww: real): (p: Placement)
    ensures ww >= TooltipWidth + 2.0 * Margin ==> Margin <= p.left && p.left + TooltipWidth <= ww - Margin
    ensures ww < TooltipWidth + 2.0 * Margin ==> p.left == Margin
    ensures Margin <= rect.left + rect.width / 2.0 - TooltipWidth / 2.0 <= ww - TooltipWidth - Margin
            ==> p.left + TooltipWidth / 2.0 == rect.left + rect.width / 2.0
    ensures ww >= TooltipWidth + 2.0 * Margin && rect.left + rect.width / 2.0 - TooltipWidth / 2.0 < Margin
            ==> p.left == Margin
    ensures ww >= TooltipWidth + 2.0 * Margin && rect.left + rect.width / 2.0 - TooltipWidth / 2.0 > ww - TooltipWidth - Margin
            ==> p.left == ww - TooltipWidth - Margin
    ensures FlipsBelow(rect) ==> p.top == rect.Bottom() + Gap
    ensures !FlipsBelow(rect) ==> p.top + EstimatedHeight + Gap == rect.top && Margin <= p.top
  {
    var left := rect.left + rect.width / 2.0 - TooltipWidth / 2.0;
    var left' := Clamp(left, Margin, ww - TooltipWidth - Margin);
    var top := rect.top - Gap;
    var top' := if top - EstimatedHeight < Margin then rect.Bottom() + Gap else top - EstimatedHeight;
    Placement(left', top')
  }

  /** For a well-formed candle rectangle the panel never overlaps the candle
      vertically: it ends 14 px above it or starts 14 px below it. */
  lemma PanelClearsCandle(rect: Rect, ww: real)
    requires rect.WellFormed()
    ensures var p := DesktopPlacement(rect, ww);
      p.top + EstimatedHeight < rect.top || rect.Bottom() < p.top
  {
  }

  /** With the default 1200 px window, a candle at the left edge gets a panel
      pinned to the margin, and one near the top gets it flipped below. */
  lemma DefaultWindowExamples()
    ensures DesktopPlacement(Rect(0.0, 100.0, 70.0, 106.0), WindowWidth(None)) == Placement(12.0, 220.0)
    ensures DesktopPlacement(Rect(600.0, 300.0, 70.0, 106.0), WindowWidth(None)) == Placement(440.0, 96.0)
  {
  }
}
