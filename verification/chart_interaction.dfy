/** The chart's ephemeral UI state (hovered candle, crosshair) and the
    event handlers that change it: hover, plot move and leave, the
    tooltip's "Open story" button, candle click/tap and keyboard
    activation, and the x-axis year buttons. Element measurements are
    parameters; a missing element is `None`. */
module ChartInteraction {
  import opened Wrappers
  import opened ChartMath
  import opened ChartData
  import opened StoryId

  /** A `getBoundingClientRect` result in viewport coordinates. */
  datatype Rect = Rect(left: real, top: real, width: real, height: real) {
    function Bottom(): real { top + height }
    /** The browser never reports negative extents. */
    predicate WellFormed() { width >= 0.0 && height >= 0.0 }
  }

  datatype Point = Point(x: real, y: real)

  /** The hovered or tapped candle, its rectangle, and whether a story
      section existed for its year when it was shown. */
  datatype Hover = Hover(key: string, candle: Candle, rect: Rect, hasStory: bool)

  datatype ChartState = ChartState(hovered: Option<Hover>, crosshair: Option<Point>)

  /** The state after an event, and what the event asks of the page. */
  datatype Step = Step(state: ChartState, effect: Effect)

  /** The point `p` lies on the plot rectangle `r`, in plot coordinates. */
  predicate WithinPlot(p: Point, r: Rect) {
    0.0 <= p.x <= r.width && 0.0 <= p.y <= r.height
  }

  /** A plot-relative point clamped onto the plot. */
  function ClampOnto(p: Point, plot: Rect): (q: Point)
    ensures plot.WellFormed() ==> WithinPlot(q, plot)
    ensures WithinPlot(p, plot) ==> q == p
  {
    Point(Clamp(p.x, 0.0, plot.width), Clamp(p.y, 0.0, plot.height))
  }

  /** A client-space point made plot-relative and clamped onto the plot. */
  function PlotPoint(clientX: real, clientY: real, plot: Rect): (p: Point)
    ensures plot.WellFormed() ==> WithinPlot(p, plot)
    ensures WithinPlot(Point(clientX - plot.left, clientY - plot.top), plot)
            ==> p == Point(clientX - plot.left, clientY - plot.top)
  {
    ClampOnto(Point(clientX - plot.left, clientY - plot.top), plot)
  }

  /** The centre of the rectangle `rect`, relative to the plot `plot`. */
  function CentreIn(rect: Rect, plot: Rect): Point {
    Point(rect.left + rect.width / 2.0 - plot.left, rect.top + rect.height / 2.0 - plot.top)
  }

  /** `showTooltip`: remember the candle (with its story flag) and, when
      asked to and the plot is mounted, snap the crosshair to the candle's
      centre. Nothing happens when the candle element is missing. */
  function ShowTooltip(st: ChartState, key: string, c: Candle, el: Option<Rect>,
                       plot: Option<Rect>, snapCrosshair: bool, doc: set<string>): (r: ChartState)
    ensures el.None? ==> r == st
    ensures el.Some? ==> r.hovered == Some(Hover(key, c, el.value, HasStoryForYear(c.year, doc)))
    ensures el.Some? && (!snapCrosshair || plot.None?) ==> r.crosshair == st.crosshair
    ensures el.Some? && snapCrosshair && plot.Some? && plot.value.WellFormed()
            ==> r.crosshair.Some? && WithinPlot(r.crosshair.value, plot.value)
    ensures el.Some? && snapCrosshair && plot.Some?
            && WithinPlot(CentreIn(el.value, plot.value), plot.value)
            ==> r.crosshair == Some(CentreIn(el.value, plot.value))
  {
    match el
    case None => st
    case Some(rect) =>
      var hovered := Some(Hover(key, c, rect, HasStoryForYear(c.year, doc)));
      if plot.Some? && snapCrosshair then
        ChartState(hovered, Some(ClampOnto(CentreIn(rect, plot.value), plot.value)))
      else
        ChartState(hovered, st.crosshair)
  }

  /** `hideTooltip`. */
  function HideTooltip(st: ChartState): (r: ChartState)
    ensures r.hovered.None? && r.crosshair == st.crosshair
  {
    st.(hovered := None)
  }

  /** `onPlotMove`: on desktop, the crosshair follows the mouse, clamped
      onto the plot; on mobile, or with the plot unmounted, nothing changes. */
  function OnPlotMove(st: ChartState, isMobile: bool, plot: Option<Rect>, clientX: real, clientY: real): (r: ChartState)
    ensures isMobile || plot.None? ==> r == st
    ensures r.hovered == st.hovered
    ensures !isMobile && plot.Some? && plot.value.WellFormed()
            ==> r.crosshair.Some? && WithinPlot(r.crosshair.value, plot.value)
    ensures !isMobile && plot.Some? && WithinPlot(Point(clientX - plot.value.left, clientY - plot.value.top), plot.value)
            ==> r.crosshair == Some(Point(clientX - plot.value.left, clientY - plot.value.top))
  {
    if isMobile then st
    else match plot
      case None => st
      case Some(pr) => st.(crosshair := Some(PlotPoint(clientX, clientY, pr)))
  }

  /** `onPlotLeave`. */
  function OnPlotLeave(st: ChartState): (r: ChartState)
    ensures r.crosshair.None? && r.hovered.None?
  {
    HideTooltip(st.(crosshair := None))
  }

  /** `openStoryFromTooltip`: with a story-bearing candle shown, close the
      tooltip and navigate to its story; otherwise do nothing. */
  function OpenStoryFromTooltip(st: ChartState, doc: set<string>): (r: Step)
    ensures st.hovered.None? || !st.hovered.value.hasStory ==> r == Step(st, Stay)
    ensures st.hovered.Some? && st.hovered.value.hasStory
            ==> r.state == ChartState(None, st.crosshair)
                && r.effect == ScrollToStory(st.hovered.value.candle.year, doc)
  {
    match st.hovered
    case None => Step(st, Stay)
    case Some(h) =>
      if !h.hasStory then Step(st, Stay)
      else Step(HideTooltip(st), ScrollToStory(h.candle.year, doc))
  }

  /** `onClick` of a candle. On mobile: a candle without a story only shows
      its tooltip; the first tap on a story candle shows the tooltip, a tap
      on the candle already shown jumps. On desktop a click jumps when
      there is a story and otherwise does nothing. */
  function OnCandleClick(st: ChartState, isMobile: bool, key: string, c: Candle, el: Option<Rect>,
                         plot: Option<Rect>, doc: set<string>): (r: Step)
    ensures isMobile && !HasStoryForYear(c.year, doc)
            ==> r == Step(ShowTooltip(st, key, c, el, plot, false, doc), Stay)
    ensures isMobile && HasStoryForYear(c.year, doc) && st.hovered.Some? && st.hovered.value.key == key
            ==> r.state == st && r.effect.Navigate? && Some(r.effect.id) == ResolveStoryId(c.year, doc)
    ensures isMobile && HasStoryForYear(c.year, doc) && !(st.hovered.Some? && st.hovered.value.key == key)
            ==> r == Step(ShowTooltip(st, key, c, el, plot, false, doc), Stay)
    ensures !isMobile ==> r.state == st
    ensures !isMobile ==> (r.effect.Navigate? <==> HasStoryForYear(c.year, doc))
    ensures r.effect.Navigate? ==> Some(r.effect.id) == ResolveStoryId(c.year, doc)
  {
    var storyOk := HasStoryForYear(c.year, doc);
    if isMobile then
      if !storyOk then Step(ShowTooltip(st, key, c, el, plot, false, doc), Stay)
      else if st.hovered.Some? && st.hovered.value.key == key then Step(st, ScrollToStory(c.year, doc))
      else Step(ShowTooltip(st, key, c, el, plot, false, doc), Stay)
    else if storyOk then Step(st, ScrollToStory(c.year, doc))
    else Step(st, Stay)
  }

  /** `onKeyDown` of a focused candle: Enter or Space jumps when there is a story. */
  function OnCandleKeyDown(st: ChartState, keyName: string, c: Candle, doc: set<string>): (r: Step)
    ensures r.state == st
    ensures r.effect.Navigate? <==> (keyName == "Enter" || keyName == " ") && HasStoryForYear(c.year, doc)
    ensures r.effect.Navigate? ==> Some(r.effect.id) == ResolveStoryId(c.year, doc)
  {
    if keyName == "Enter" || keyName == " " then
      if HasStoryForYear(c.year, doc) then Step(st, ScrollToStory(c.year, doc)) else Step(st, Stay)
    else Step(st, Stay)
  }

  /** An x-axis year button: disabled without a story, otherwise it jumps. */
  function OnAxisClick(year: string, doc: set<string>): (e: Effect)
    ensures e.Navigate? <==> HasStoryForYear(year, doc)
    ensures e.Navigate? ==> e.id in doc && Some(e.id) == ResolveStoryId(year, doc)
  {
    var ok := HasStoryForYear(year, doc);
    if !ok then Stay else ScrollToStory(year, doc)
  }

  /** The hover's story flag agrees with the document. */
  ghost predicate Consistent(st: ChartState, doc: set<string>) {
    st.hovered.Some? ==> st.hovered.value.hasStory == HasStoryForYear(st.hovered.value.candle.year, doc)
  }

  /** Showing a tooltip records the story flag the document gives. */
  lemma ShowTooltipConsistent(st: ChartState, key: string, c: Candle, el: Option<Rect>,
                              plot: Option<Rect>, snap: bool, doc: set<string>)
    requires Consistent(st, doc)
    ensures Consistent(ShowTooltip(st, key, c, el, plot, snap, doc), doc)
  {
  }

  /** Moving over and leaving the plot keep the story flag in step. */
  lemma PlotHandlersKeepConsistent(st: ChartState, isMobile: bool, plot: Option<Rect>,
                                   doc: set<string>, x: real, y: real)
    requires Consistent(st, doc)
    ensures Consistent(OnPlotMove(st, isMobile, plot, x, y), doc)
    ensures Consistent(OnPlotLeave(st), doc)
  {
  }

  /** "Open story" keeps the story flag in step with an unchanged document. */
  lemma OpenStoryKeepsConsistent(st: ChartState, doc: set<string>)
    requires Consistent(st, doc)
    ensures Consistent(OpenStoryFromTooltip(st, doc).state, doc)
  {
  }

  /** A candle click or tap keeps the story flag in step. */
  lemma CandleClickKeepsConsistent(st: ChartState, isMobile: bool, key: string, c: Candle, el: Option<Rect>,
                                   plot: Option<Rect>, doc: set<string>)
    requires Consistent(st, doc)
    ensures Consistent(OnCandleClick(st, isMobile, key, c, el, plot, doc).state, doc)
  {
    ShowTooltipConsistent(st, key, c, el, plot, false, doc);
  }

  /** Keyboard activation of a candle keeps the story flag in step. */
  lemma CandleKeyDownKeepsConsistent(st: ChartState, keyName: string, c: Candle, doc: set<string>)
    requires Consistent(st, doc)
    ensures Consistent(OnCandleKeyDown(st, keyName, c, doc).state, doc)
  {
  }

  /** In a consistent state, "Open story" on a story-bearing candle really navigates. */
  lemma OpenStoryNavigates(st: ChartState, doc: set<string>)
    requires Consistent(st, doc)
    requires st.hovered.Some? && st.hovered.value.hasStory
    ensures OpenStoryFromTooltip(st, doc).effect.Navigate?
    ensures OpenStoryFromTooltip(st, doc).effect.id in doc
    ensures OpenStoryFromTooltip(st, doc).state.hovered.None?
  {
  }

  /** The candle's click handler alone: on mobile, the first call for a story
      candle shows its tooltip and a second call for the same candle
      navigates. On a phone the second tap never reaches this handler while
      the sheet is open; see `PhoneTapsNeverNavigate`. */
  lemma TapTwiceNavigates(st: ChartState, key: string, c: Candle, el: Rect, plot: Option<Rect>, doc: set<string>)
    requires HasStoryForYear(c.year, doc)
    requires st.hovered.None? || st.hovered.value.key != key
    ensures var first := OnCandleClick(st, true, key, c, Some(el), plot, doc);
      && first.effect == Stay
      && first.state.hovered == Some(Hover(key, c, el, true))
      && first.state.crosshair == st.crosshair
      && OnCandleClick(first.state, true, key, c, Some(el), plot, doc).effect.Navigate?
  {
  }

  /** `n` mobile taps on the same candle: the final state and the effects in order. */
  function Taps(st: ChartState, n: nat, key: string, c: Candle, el: Option<Rect>,
                plot: Option<Rect>, doc: set<string>): seq<Step>
    decreases n
  {
    if n == 0 then []
    else
      var s := OnCandleClick(st, true, key, c, el, plot, doc);
      [s] + Taps(s.state, n - 1, key, c, el, plot, doc)
  }

  /** The first of `n` taps, followed by the rest. */
  lemma TapsUnfold(st: ChartState, n: nat, key: string, c: Candle, el: Option<Rect>,
                   plot: Option<Rect>, doc: set<string>)
    requires n > 0
    ensures var s := OnCandleClick(st, true, key, c, el, plot, doc);
      Taps(st, n, key, c, el, plot, doc) == [s] + Taps(s.state, n - 1, key, c, el, plot, doc)
  {
  }

  /** The tooltip of candle `key` is shown, flagged as having no story. */
  ghost predicate ShowsStoryless(st: ChartState, key: string, c: Candle, rect: Rect) {
    st.hovered == Some(Hover(key, c, rect, false))
  }

  /** One mobile tap on a candle without a story. */
  lemma StorylessTap(st: ChartState, key: string, c: Candle, el: Option<Rect>, plot: Option<Rect>, doc: set<string>)
    requires !HasStoryForYear(c.year, doc)
    ensures OnCandleClick(st, true, key, c, el, plot, doc).effect == Stay
    ensures el.Some? ==> ShowsStoryless(OnCandleClick(st, true, key, c, el, plot, doc).state, key, c, el.value)
  {
  }

  /** On mobile, tapping a candle without a story any number of times never
      navigates. */
  lemma {:induction false} StorylessTapsNeverNavigate(st: ChartState, n: nat, key: string, c: Candle,
                                                    el: Option<Rect>, plot: Option<Rect>, doc: set<string>)
    requires !HasStoryForYear(c.year, doc)
    ensures var ts := Taps(st, n, key, c, el, plot, doc);
      |ts| == n && forall i :: 0 <= i < n ==> ts[i].effect == Stay
    decreases n
  {
    if n > 0 {
      var s := OnCandleClick(st, true, key, c, el, plot, doc);
      StorylessTap(st, key, c, el, plot, doc);
      StorylessTapsNeverNavigate(s.state, n - 1, key, c, el, plot, doc);
      TapsUnfold(st, n, key, c, el, plot, doc);
      StaysPrepend(Taps(st, n, key, c, el, plot, doc), s, Taps(s.state, n - 1, key, c, el, plot, doc), n);
    }
  }

  /** Prepending a step that stays to steps that stay. */
  lemma StaysPrepend(ts: seq<Step>, s: Step, rest: seq<Step>, n: nat)
    requires ts == [s] + rest && |rest| + 1 == n
    requires s.effect == Stay && forall i :: 0 <= i < |rest| ==> rest[i].effect == Stay
    ensures |ts| == n && forall i :: 0 <= i < n ==> ts[i].effect == Stay
  {
  }

  /** Once the candle's element is measured, every one of those taps leaves
      its storyless tooltip shown. */
  lemma {:induction false} StorylessTapsKeepTooltip(st: ChartState, n: nat, key: string, c: Candle,
                                                  rect: Rect, plot: Option<Rect>, doc: set<string>)
    requires !HasStoryForYear(c.year, doc)
    ensures var ts := Taps(st, n, key, c, Some(rect), plot, doc);
      |ts| == n && forall i :: 0 <= i < n ==> ShowsStoryless(ts[i].state, key, c, rect)
    decreases n
  {
    if n > 0 {
      var s := OnCandleClick(st, true, key, c, Some(rect), plot, doc);
      StorylessTap(st, key, c, Some(rect), plot, doc);
      StorylessTapsKeepTooltip(s.state, n - 1, key, c, rect, plot, doc);
      TapsUnfold(st, n, key, c, Some(rect), plot, doc);
      ShowsPrepend(Taps(st, n, key, c, Some(rect), plot, doc), s,
                   Taps(s.state, n - 1, key, c, Some(rect), plot, doc), n, key, c, rect);
    }
  }

  /** Prepending a step that shows the storyless tooltip to steps that do. */
  lemma ShowsPrepend(ts: seq<Step>, s: Step, rest: seq<Step>, n: nat, key: string, c: Candle, rect: Rect)
    requires ts == [s] + rest && |rest| + 1 == n
    requires ShowsStoryless(s.state, key, c, rect)
    requires forall i :: 0 <= i < |rest| ==> ShowsStoryless(rest[i].state, key, c, rect)
    ensures |ts| == n && forall i :: 0 <= i < n ==> ShowsStoryless(ts[i].state, key, c, rect)
  {
  }

  /** What a tap can hit on the mobile sheet: the full-screen backdrop, the
      card's close button, or its "Open story" button. */
  datatype SheetTarget = Backdrop | CloseButton | OpenStory

  /** The backdrop and the close button both clear the crosshair and hide
      the tooltip, closing the sheet. */
  function CloseSheet(st: ChartState): (r: ChartState)
    ensures r.hovered.None? && r.crosshair.None?
  {
    HideTooltip(st.(crosshair := None))
  }

  /** A tap on the open sheet. "Open story" is disabled without a story,
      so a tap on it then does nothing. */
  function SheetTap(st: ChartState, target: SheetTarget, doc: set<string>): (r: Step)
    ensures target != OpenStory ==> r == Step(CloseSheet(st), Stay)
    ensures target == OpenStory ==> r == OpenStoryFromTooltip(st, doc)
  {
    match target
    case Backdrop => Step(CloseSheet(st), Stay)
    case CloseButton => Step(CloseSheet(st), Stay)
    case OpenStory => OpenStoryFromTooltip(st, doc)
  }

  /** A tap at the place where candle `key` is drawn, on a phone: while a
      tooltip is shown the sheet covers the whole screen, so the tap lands
      on its backdrop; otherwise it reaches the candle. */
  function PhoneTap(st: ChartState, key: string, c: Candle, el: Option<Rect>,
                    plot: Option<Rect>, doc: set<string>): (r: Step)
    ensures st.hovered.Some? ==> r == Step(CloseSheet(st), Stay)
    ensures st.hovered.None? ==> r == OnCandleClick(st, true, key, c, el, plot, doc)
  {
    if st.hovered.Some? then SheetTap(st, Backdrop, doc)
    else OnCandleClick(st, true, key, c, el, plot, doc)
  }

  /** Whatever the state, a tap at a candle's place on a phone never
      navigates: the candle only sees taps while no tooltip is shown, and
      then it shows one. */
  lemma PhoneTapStays(st: ChartState, key: string, c: Candle, el: Option<Rect>,
                      plot: Option<Rect>, doc: set<string>)
    ensures PhoneTap(st, key, c, el, plot, doc).effect == Stay
  {
  }

  /** Taps at a candle's place on a phone toggle the sheet: with none shown
      the candle's tooltip opens, with one shown the backdrop closes it. */
  lemma PhoneTapToggles(st: ChartState, key: string, c: Candle, el: Option<Rect>,
                        plot: Option<Rect>, doc: set<string>)
    ensures st.hovered.None? && el.Some?
            ==> PhoneTap(st, key, c, el, plot, doc).state.hovered
                == Some(Hover(key, c, el.value, HasStoryForYear(c.year, doc)))
    ensures st.hovered.Some? ==> PhoneTap(st, key, c, el, plot, doc).state == ChartState(None, None)
  {
  }

  /** `n` taps at the same candle's place on a phone. */
  function PhoneTaps(st: ChartState, n: nat, key: string, c: Candle, el: Option<Rect>,
                     plot: Option<Rect>, doc: set<string>): seq<Step>
    decreases n
  {
    if n == 0 then []
    else
      var s := PhoneTap(st, key, c, el, plot, doc);
      [s] + PhoneTaps(s.state, n - 1, key, c, el, plot, doc)
  }

  lemma PhoneTapsUnfold(st: ChartState, n: nat, key: string, c: Candle, el: Option<Rect>,
                        plot: Option<Rect>, doc: set<string>)
    requires n > 0
    ensures var s := PhoneTap(st, key, c, el, plot, doc);
      PhoneTaps(st, n, key, c, el, plot, doc) == [s] + PhoneTaps(s.state, n - 1, key, c, el, plot, doc)
  {
  }

  /** However often a phone user taps a candle, even one with a story, the
      page never jumps to the story: taps alternate between opening the
      sheet and closing it through its backdrop. */
  lemma {:induction false} PhoneTapsNeverNavigate(st: ChartState, n: nat, key: string, c: Candle,
                                                el: Option<Rect>, plot: Option<Rect>, doc: set<string>)
    ensures var ts := PhoneTaps(st, n, key, c, el, plot, doc);
      |ts| == n && forall i :: 0 <= i < n ==> ts[i].effect == Stay
    decreases n
  {
    if n > 0 {
      var s := PhoneTap(st, key, c, el, plot, doc);
      PhoneTapStays(st, key, c, el, plot, doc);
      PhoneTapsNeverNavigate(s.state, n - 1, key, c, el, plot, doc);
      PhoneTapsUnfold(st, n, key, c, el, plot, doc);
      StaysPrepend(PhoneTaps(st, n, key, c, el, plot, doc), s, PhoneTaps(s.state, n - 1, key, c, el, plot, doc), n);
    }
  }

  /** On a phone the story is reached through the sheet: a tap on a story
      candle opens it, and its "Open story" button navigates to the story. */
  lemma SheetOpensStory(st: ChartState, key: string, c: Candle, el: Rect, plot: Option<Rect>, doc: set<string>)
    requires HasStoryForYear(c.year, doc)
    requires st.hovered.None?
    ensures var first := PhoneTap(st, key, c, Some(el), plot, doc);
      var open := SheetTap(first.state, OpenStory, doc);
      && first.effect == Stay
      && open.effect.Navigate? && Some(open.effect.id) == ResolveStoryId(c.year, doc)
      && open.state.hovered.None?
  {
  }
}
