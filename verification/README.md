# Career candlestick chart and story strips, in Dafny

This project models the interactive core of a one-page portfolio. A
candlestick chart plots career milestones. Each year has a green "up"
candle and a red "down" candle, placed on a five-band scale from "Start"
to "Moon". Hovering a candle shows a tooltip, and clicking, tapping or
pressing a key on it scrolls to that year's story section further down
the page. Each story section shows a media strip: a marquee of cards
that scrolls forever, with X links and placeholder cards.

The model is pure functions over immutable data:

- **Document.** The page is the set of element ids it contains.
- **Navigation.** Every handler returns its new UI state together with an
  `Effect`: `Stay`, or `Navigate(id)`, which stands for `scrollIntoView`
  plus `history.replaceState("#id")`.
- **Measurements.** Element rectangles are parameters, and a missing
  element is `None`.
- **Numbers.** Pixel arithmetic is on mathematical reals. `Math.round` is
  `floor(x + 0.5)`. The JavaScript `%` on the section index is written
  out for negative operands.

Modules:

- `Wrappers`: `Option`, with `??` as `GetOr`.
- `Text`: `trim`, which uses the ECMAScript white space and line
  terminator set; the `[–—]` dash replacement; ASCII `toLowerCase`;
  `includes`; decimal rendering of naturals.
- `ChartMath`: `clamp` and `Math.round`.
- `ChartData`: the ten candles, the year columns (`new Set` of the
  years), and the candle keys.
- `StoryId`: `normalizeYearForId`, the candidate ids, `resolveStoryId`,
  `hasStoryForYear` and `scrollToStory`.
- `CandleLayout`: candle geometry in both viewports.
- `ChartInteraction`: the hover and crosshair state, every event
  handler of the chart, and where a tap lands on a phone while the
  tooltip sheet is open.
- `Tooltip`: desktop tooltip placement.
- `StoryMedia`: cards, loop cards, card width, loop distance, X links and
  the per-section flags.
- `Marquee`: the per-frame tick of the strip, as written and corrected.
- `IndexPage`: the landing page's five sections as a fixture. The
  resolver and the strips are checked against it.

## Model

| member | source | states |
|---|---|---|
| ChartMath.Clamp | src/components/CandlestickChart.tsx:126-128 | with `min <= max` the result lies in `[min, max]`, equals `n` when `n` is already there, and is the violated bound otherwise; with `min > max` it is `min` |
| ChartMath.Round | src/components/CandlestickChart.tsx:591 | `Math.round(x)` is an integer within half a unit of `x`, halves going up |
| ChartData.CandleDataWellFormed | src/components/CandlestickChart.tsx:19-124 | every level of the dataset lies on the `[0, 4.5]` scale, the two candles of a year share one level, and every intensity is positive and at most 200 |
| ChartData.YearsOf | src/components/CandlestickChart.tsx:206 | the year sequence has one entry per candle, in the candles' order |
| ChartData.DistinctSpec | src/components/CandlestickChart.tsx:206 | `Array.from(new Set(years))` keeps exactly the values of the input and repeats none |
| ChartData.Distinct | src/components/CandlestickChart.tsx:206 | `Array.from(new Set(xs))`; characterised by `DistinctSpec` (values) and `DistinctFirstOccurrence` (order) |
| ChartData.DistinctFirstOccurrence | src/components/CandlestickChart.tsx:206 | the de-duplicated values come in the order of their first occurrence in the input, for every input, as a `Set` iterates in insertion order |
| ChartData.Years | src/components/CandlestickChart.tsx:206 | the year columns are exactly the years that occur in the data, each once |
| ChartData.DistinctCandleYears | src/components/CandlestickChart.tsx:24-124 | de-duplicating the dataset's year sequence gives the columns in order of first appearance |
| ChartData.CandleDataYears | src/components/CandlestickChart.tsx:206 | the chart has the five columns 2020, 2021, 2022-23, 2024, 2025, in that order |
| ChartData.ItemsOf | src/components/CandlestickChart.tsx:583 | a column holds only candles of its year, and every candle of that year |
| ChartData.CandleKey | src/components/CandlestickChart.tsx:588 | the key `${year}-${type}-${j}`; characterised by `CandleKeyInjective` and `ColumnKeysDistinct` |
| ChartData.CandleKeyInjective | src/components/CandlestickChart.tsx:588 | two equal keys `${year}-${type}-${j}` name the same year, direction and place in the column |
| ChartData.ItemsOfAppend | src/components/CandlestickChart.tsx:583 | the filter of a concatenation is the filters of its parts, concatenated, so it keeps the data's order |
| ChartData.ColumnAt | src/components/CandlestickChart.tsx:583 | a year whose candles are exactly one consecutive pair of the data filters to that pair, in order |
| ChartData.CandleDataColumn | src/components/CandlestickChart.tsx:583 | column `k` of the chart's data is its `k`-th pair of candles, in the data's order |
| ChartData.ColumnKeys | src/components/CandlestickChart.tsx:587-588 | a column draws one key per candle it holds |
| ChartData.ColumnKeysDistinct | src/components/CandlestickChart.tsx:587-588 | the keys `${year}-${type}-${j}` of one column are pairwise distinct, whatever the data |
| ChartData.NewestColumnKeys | src/components/CandlestickChart.tsx:583-588 | the 2025 column is keyed "2025-down-0", "2025-up-1": its falling candle comes first in the data |
| Text.StartOfText | src/components/CandlestickChart.tsx:246 | the start of the text is the first non-white-space position, and everything skipped is white space |
| Text.EndOfText | src/components/CandlestickChart.tsx:246 | the end of the text is after its last non-white-space character, and everything dropped is white space |
| Text.Trim | src/components/CandlestickChart.tsx:246 | `trim` removes exactly the leading and trailing white space: the result is a slice of the input with only white space around it, and it neither starts nor ends with white space |
| Text.TrimmedAtUnique | src/components/CandlestickChart.tsx:246 | that description of a trimmed string has at most one solution |
| Text.TrimCharacterised | src/components/CandlestickChart.tsx:246 | any slice with only white space around it and no white space at its ends is the value of `trim` |
| Text.TrimIdempotent | src/components/CandlestickChart.tsx:246 | trimming twice is trimming once |
| Text.ReplaceLongDashes | src/components/CandlestickChart.tsx:247 | `replace(/[–—]/g, "-")` keeps the length, turns each en or em dash into `-`, leaves every other character alone, and leaves no long dash |
| Text.ReplaceKeepsWhiteSpace | src/components/CandlestickChart.tsx:246-247 | the dash replacement neither creates nor removes white space, position by position |
| Text.ToLower | src/components/StorySection.tsx:133 | lower-casing keeps the length, maps each ASCII capital to its small letter, and leaves no ASCII capital |
| Text.ContainsIff | src/components/StorySection.tsx:134 | the left-to-right scan behind `includes` succeeds exactly when the needle occurs at some position |
| Text.NatToString | src/components/CandlestickChart.tsx:588 | `${n}` is a non-empty string of decimal digits without a leading zero |
| Text.NatToStringRoundTrip | src/components/CandlestickChart.tsx:588 | reading the decimal rendering back gives the number |
| Text.DashNumberInjective | src/components/StorySection.tsx:262 | a key `${prefix}-${n}` determines both its prefix and its number |
| StoryId.NormalizeYearForId | src/components/CandlestickChart.tsx:245-250 | the normalised label has no long dash, no white space at either end, is never the long form "2022-2023", and is no longer than the input unless it is the alias "2022-23" |
| StoryId.NormalizeYearForIdTrims | src/components/CandlestickChart.tsx:245-250 | the result is the label with long dashes replaced and its surrounding white space dropped, except that a trimmed "2022-2023" becomes "2022-23" |
| StoryId.NormalFormFixed | src/components/CandlestickChart.tsx:246-247 | a label without border white space and without long dashes is unchanged by trimming and dash replacement |
| StoryId.NormalizeIdempotent | src/components/CandlestickChart.tsx:245-250 | normalising a normalised label changes nothing |
| StoryId.NormalizeEnDashLabel | src/components/CandlestickChart.tsx:247-248 | the page's label "2022–2023" (en dash) normalises to the chart's "2022-23" |
| StoryId.NormalizeShortLabel | src/components/CandlestickChart.tsx:245-250 | "2022-23" is already normal |
| StoryId.NormalizePaddedLabel | src/components/CandlestickChart.tsx:246 | " 2024 " normalises to "2024" |
| StoryId.RawCandidates | src/components/CandlestickChart.tsx:256-261 | the five candidates before filtering; characterised through `CandidatesOfNormalized` |
| StoryId.NonEmpty | src/components/CandlestickChart.tsx:262 | `.filter(Boolean)` keeps exactly the non-empty candidates |
| StoryId.CandidatesOfNormalized | src/components/CandlestickChart.tsx:256-262 | for a normalised label the candidates are `story-ny`, `story-ny-green`, `story-ny-red`, then `story-2022-2023` only for "2022-23"; the fifth candidate never survives the filter |
| StoryId.FirstPresent | src/components/CandlestickChart.tsx:264-268 | the loop finds nothing exactly when no candidate is in the document, and otherwise returns a candidate in the document before which none is |
| StoryId.ResolveStoryId | src/components/CandlestickChart.tsx:252-269 | a resolved id is in the document and is a candidate of the normalised year; there is none exactly when no candidate is in the document |
| StoryId.HasStoryForYear | src/components/CandlestickChart.tsx:271 | `Boolean(resolveStoryId(year))`; characterised by `HasStoryIff` |
| StoryId.HasStoryIff | src/components/CandlestickChart.tsx:271 | a year has a story exactly when one of its candidate ids is in the document |
| StoryId.ResolveMatchesChain | src/components/CandlestickChart.tsx:252-269 | resolution follows the fallback priority: plain id, then `-green`, then `-red`, then the long alias for "2022-23"; this holds for every label and every document |
| StoryId.FirstPresentOfFour | src/components/CandlestickChart.tsx:264-268 | over three candidates and an optional fourth, the loop is that decision chain |
| StoryId.ScrollToStory | src/components/CandlestickChart.tsx:273-284 | scrolling navigates exactly when the year has a story, and then to the resolved id, which is in the document |
| CandleLayout.Layout | src/components/CandlestickChart.tsx:591-598 | total height is both wicks plus the rounded body; the top stays within `[10, plotHeight - totalH - 10]` when that band is non-empty and is the unclamped top when that already fits; when the unclamped top lies above the band the top is 10, and when it lies below a non-empty band the top is `plotHeight - totalH - 10`; an up candle sits 12 px (7 px on mobile) above its baseline and shifts 18 px (7 px) left, a down candle the same distances below and right |
| CandleLayout.BaselineInPlot | src/components/CandlestickChart.tsx:594 | a level on the scale puts the baseline inside the plot |
| CandleLayout.BaselineDescends | src/components/CandlestickChart.tsx:594 | a higher level never sits lower on screen, and a strictly higher one sits strictly higher |
| CandleLayout.PairSymmetric | src/components/CandlestickChart.tsx:594-598 | an up and a down candle on one level share a baseline and are offset from it by equal and opposite amounts, vertically and horizontally |
| CandleLayout.BandNonEmpty | src/components/CandlestickChart.tsx:597 | up to intensity 200 the clamping band is non-empty in both viewports, so the glyph stays inside it |
| CandleLayout.CandleDataInBand | src/components/CandlestickChart.tsx:591-597 | every candle of the dataset is drawn inside the band, on mobile and on desktop |
| CandleLayout.CandleDataPairsSymmetric | src/components/CandlestickChart.tsx:594-595 | the up and down candles of each year are mirror images around one baseline |
| CandleLayout.Aethir2025Desktop | src/components/CandlestickChart.tsx:591-597 | the last 2025 candle on desktop has a 78 px body and a 106 px glyph, and its top is pinned to the 10 px edge |
| ChartInteraction.PlotPoint | src/components/CandlestickChart.tsx:326-328 | a mouse position made plot-relative lies on the plot, and is kept unchanged when it already does |
| ChartInteraction.ShowTooltip | src/components/CandlestickChart.tsx:286-305 | with no element nothing changes; otherwise the candle is shown with the story flag the document gives, and the crosshair moves only when asked and the plot is mounted, then onto the plot, exactly to the candle's centre when that lies on the plot |
| ChartInteraction.HideTooltip | src/components/CandlestickChart.tsx:307 | hiding clears the tooltip and keeps the crosshair |
| ChartInteraction.OnPlotMove | src/components/CandlestickChart.tsx:322-330 | on mobile, or with no plot, nothing changes; on desktop the crosshair follows the mouse, clamped onto the plot, and the tooltip is untouched |
| ChartInteraction.OnPlotLeave | src/components/CandlestickChart.tsx:332-335 | leaving the plot clears both the crosshair and the tooltip |
| ChartInteraction.OpenStoryFromTooltip | src/components/CandlestickChart.tsx:337-342 | without a story-bearing tooltip nothing happens; otherwise the tooltip closes and the page scrolls to that candle's story |
| ChartInteraction.OnCandleClick | src/components/CandlestickChart.tsx:613-639 | on mobile a storyless candle only shows its tooltip, a first tap shows it and a tap on the candle already shown jumps; on desktop a click jumps exactly when there is a story and leaves the state alone; any jump goes to the resolved id |
| ChartInteraction.OnCandleKeyDown | src/components/CandlestickChart.tsx:640-644 | Enter or Space jumps exactly when the year has a story; other keys and storyless years do nothing |
| ChartInteraction.OnAxisClick | src/components/CandlestickChart.tsx:709-724 | a year button jumps exactly when the year has a story, to an id in the document |
| ChartInteraction.ShowTooltipConsistent | src/components/CandlestickChart.tsx:294-295 | showing a tooltip keeps the stored story flag in agreement with the document |
| ChartInteraction.PlotHandlersKeepConsistent | src/components/CandlestickChart.tsx:322-335 | moving over and leaving the plot keep that agreement |
| ChartInteraction.OpenStoryKeepsConsistent | src/components/CandlestickChart.tsx:337-342 | "Open story" keeps that agreement |
| ChartInteraction.CandleClickKeepsConsistent | src/components/CandlestickChart.tsx:613-639 | a candle click or tap keeps that agreement |
| ChartInteraction.CandleKeyDownKeepsConsistent | src/components/CandlestickChart.tsx:640-644 | keyboard activation keeps that agreement |
| ChartInteraction.OpenStoryNavigates | src/components/CandlestickChart.tsx:337-342 | when the flag agrees with the document, "Open story" on a story-bearing tooltip navigates to an id in the document and closes the tooltip |
| ChartInteraction.TapTwiceNavigates | src/components/CandlestickChart.tsx:625-633 | the click handler alone: on mobile its first call for a story candle shows the tooltip without moving the crosshair, and a second call for that candle navigates |
| ChartInteraction.StorylessTap | src/components/CandlestickChart.tsx:617-623 | a tap on a storyless candle stays put and shows the tooltip flagged storyless |
| ChartInteraction.StorylessTapsNeverNavigate | src/components/CandlestickChart.tsx:616-623 | any number of taps on a storyless candle never navigates |
| ChartInteraction.StorylessTapsKeepTooltip | src/components/CandlestickChart.tsx:616-623 | each of those taps leaves that candle's storyless tooltip shown |
| ChartInteraction.CloseSheet | src/components/CandlestickChart.tsx:359-366 | the sheet's backdrop and close button clear both the crosshair and the tooltip |
| ChartInteraction.SheetTap | src/components/CandlestickChart.tsx:359-422 | the backdrop and the close button close the sheet without navigating; "Open story" acts as `openStoryFromTooltip`, and does nothing while disabled |
| ChartInteraction.PhoneTap | src/components/CandlestickChart.tsx:344-366 | on a phone, a tap at a candle's place reaches the backdrop while a tooltip is shown and the candle otherwise |
| ChartInteraction.PhoneTapStays | src/components/CandlestickChart.tsx:344-366 | whatever the state, such a tap never navigates |
| ChartInteraction.PhoneTapToggles | src/components/CandlestickChart.tsx:344-366 | such taps alternate: with no tooltip the candle's opens, with one the sheet closes |
| ChartInteraction.PhoneTapsNeverNavigate | src/components/CandlestickChart.tsx:352-366 | any number of taps at a candle's place on a phone, even a story candle's, never navigates, although the sheet's tip says to tap the candle again |
| ChartInteraction.SheetOpensStory | src/components/CandlestickChart.tsx:410-422 | on a phone, a tap on a story candle opens the sheet, and its "Open story" button then navigates to the resolved id and hides the tooltip |
| Tooltip.WindowWidth | src/components/CandlestickChart.tsx:449 | the window width is `innerWidth`, or 1200 where there is no window |
| Tooltip.DesktopPlacement | src/components/CandlestickChart.tsx:446-457 | in a window wide enough the 390 px panel keeps 12 px from both edges, is centred on the candle when that already fits, and otherwise is pinned to the left margin when the centred panel would stick out on the left and to `ww - 402` when it would stick out on the right; in a narrower window it is pinned to the left margin; it sits 14 px above the candle when an estimated 190 px panel fits there, and 14 px below it otherwise |
| Tooltip.PanelClearsCandle | src/components/CandlestickChart.tsx:453-457 | with the 190 px height estimate, the panel never overlaps the candle vertically |
| Tooltip.DefaultWindowExamples | src/components/CandlestickChart.tsx:446-457 | in the 1200 px default window a candle at the left edge gets a panel pinned to the margin, and a candle near the top gets it below |
| StoryMedia.ViewportWidth | src/components/StorySection.tsx:61 | the measured viewport width when there is one, and the window's width otherwise |
| StoryMedia.CardWidth | src/components/StorySection.tsx:60-67 | the card width lies in the device's band, 260-340 px on mobile and 380-520 px on desktop; it is the floored viewport share when that is inside the band, and the nearer bound otherwise |
| StoryMedia.CardWidthMonotone | src/components/StorySection.tsx:60-67 | a wider viewport never gives narrower cards |
| StoryMedia.CardWidthExamples | src/components/StorySection.tsx:61-67 | a 390 px phone gets 319 px cards, a 1280 px desktop 380 px, and a 2560 px screen 520 px; the window's width stands in only until the viewport is measured |
| StoryMedia.Cards | src/components/StorySection.tsx:46-54 | a section with media shows exactly its media; otherwise six placeholders, every third one (from the first) a video captioned "Video", the rest "Photo", all unlinked `/placeholder.svg`, placeholder `i` being `PlaceholderCard(i, year)` with alt text "Story media {i+1} for {year}" |
| StoryMedia.PlaceholderCard | src/components/StorySection.tsx:48-53 | placeholder `i` of a year; `Cards` promises it is what a media-less section shows, and `PlaceholderAltsDistinct` tells the placeholders apart |
| StoryMedia.PlaceholderAltsDistinct | src/components/StorySection.tsx:51 | no two placeholders of a year share their alt text |
| StoryMedia.LoopCards | src/components/StorySection.tsx:57 | the strip holds each card twice: position `i` and position `i + n` both show card `i` |
| StoryMedia.CardKey | src/components/StorySection.tsx:262 | the key `${c.src}-${i}`; characterised by `LoopCardKeysDistinct` |
| StoryMedia.LoopCardKeysDistinct | src/components/StorySection.tsx:251-262 | although every card appears twice, no two positions of the strip share a key |
| StoryMedia.LoopDistance | src/components/StorySection.tsx:76 | one card plus one gap per card of one copy; characterised by `SeamlessLoop` and `LoopDistancePositive` |
| StoryMedia.SeamlessLoop | src/components/StorySection.tsx:57-76 | moving the strip by the loop distance puts each card of the second copy exactly where the same card of the first copy was |
| StoryMedia.LoopDistancePositive | src/components/StorySection.tsx:76-80 | with a computed card width, a non-empty strip has a positive loop distance, so the marquee always starts |
| StoryMedia.IsXLink | src/components/StorySection.tsx:131-135 | `isXLink`; characterised in both directions by `IsXLinkIff` |
| StoryMedia.IsXLinkIff | src/components/StorySection.tsx:131-135 | a link is an X link exactly when it is present and its lower-cased form contains "x.com" or "twitter.com" |
| StoryMedia.SiteNameMakesXLink | src/components/StorySection.tsx:131-135 | a link with either site name anywhere in it, in any letter case, is an X link |
| StoryMedia.NoXNoWNotXLink | src/components/StorySection.tsx:131-135 | a link without the letters x and w, in either case, is not an X link |
| StoryMedia.Clickable | src/components/StorySection.tsx:252 | `Boolean(c.href)`; characterised by `XLinkIsClickable`, `PlaceholdersNotClickable` and `ViewCard` |
| StoryMedia.XLinkIsClickable | src/components/StorySection.tsx:131-135 | a card showing "View on X" is always a link |
| StoryMedia.ViewCard | src/components/StorySection.tsx:252-328 | a card links out exactly when it has a non-empty link, and then to that link; it shows "Open ↗" exactly when it links; it shows "View on X" exactly when its link is an X link, which implies "Open ↗"; the pill shows the caption or "Story"; the title is "{year} moment" |
| StoryMedia.PlaceholdersNotClickable | src/components/StorySection.tsx:48-53 | placeholder cards never link out |
| StoryMedia.JsRem | src/components/StorySection.tsx:37 | the JavaScript remainder takes the sign of the dividend and is smaller than the divisor in size |
| StoryMedia.JsRemIsRemainder | src/components/StorySection.tsx:37 | the JavaScript remainder is what is left of the dividend after a whole multiple of the divisor, with the quotient rounded toward zero, and is no larger than the dividend in size |
| StoryMedia.FromRight | src/components/StorySection.tsx:37 | `index % 2 === 0`; characterised by `FromRightIffEven` and `SidesAlternate` |
| StoryMedia.FromRightIffEven | src/components/StorySection.tsx:37 | a section slides in from the right exactly at even places, negative ones included |
| StoryMedia.SidesAlternate | src/components/StorySection.tsx:37 | neighbouring sections come from opposite sides |
| StoryMedia.HoverRotate | src/components/StorySection.tsx:138 | a hovered card tilts -1.2° exactly when its section comes from the right, and 1.2° otherwise |
| StoryMedia.HoverRotateBySection | src/components/StorySection.tsx:37-138 | a hovered card tilts -1.2° exactly in sections at even places, and 1.2° in the others |
| StoryMedia.Badge | src/components/StorySection.tsx:121 | the chip reads "Achievement" exactly for green stories and "Lesson" exactly for red ones |
| Marquee.Duration | src/components/StorySection.tsx:86 | 22 s per loop on mobile, 20 s on desktop; used by `SpeedStepBound` and `Tick` |
| Marquee.Speed | src/components/StorySection.tsx:87 | one loop distance per loop duration; characterised by `SpeedStepBound` |
| Marquee.Tick | src/components/StorySection.tsx:86-100 | a paused strip or a zero loop distance stays put; otherwise the position moves by `speed * dt`, then gains one loop distance if it reached `-L` and loses one if it became positive; it is unwrapped when already in `(-L, 0]`, and stays in `(-L, 0]` for frames no longer than one loop duration |
| Marquee.SpeedStepBound | src/components/StorySection.tsx:86-94 | within one loop duration a frame travels at most one loop distance |
| Marquee.TickLeavesLoopAfterLongFrame | src/components/StorySection.tsx:94-98 | after a 40 s frame the written wrap leaves the strip at `-L`, outside `(-L, 0]` |
| Marquee.WrapIntoLoop | src/components/StorySection.tsx:96-98 | the intended wrap always lands in `(-L, 0]`, and leaves a position already there unchanged |
| Marquee.LoopsIsProduct | src/components/StorySection.tsx:96-98 | adding `k` loop distances one at a time is adding `k * L` |
| Marquee.WrappedTick | src/components/StorySection.tsx:86-100 | with the corrected wrap, a paused or empty strip stays put and a running strip always ends in `(-L, 0]` |
| Marquee.TickAgreesWithWrappedTick | src/components/StorySection.tsx:89-100 | for a position in `(-L, 0]` and frames no longer than one loop duration, the written tick and the corrected tick agree |
| Marquee.WrapUnique | src/components/StorySection.tsx:96-98 | the position in `(-L, 0]` a whole number of loop distances away from the moved position is unique |
| Marquee.RunStaysInLoop | src/components/StorySection.tsx:86-106 | with the corrected wrap the strip never leaves `(-L, 0]`, whatever the frames and pauses |
| Marquee.RunIsTravelModuloLoop | src/components/StorySection.tsx:86-106 | the wraps only add whole loop distances: after any run the position is the start, minus the distance travelled while unpaused, plus a whole number of loops, so the strip never jumps visibly |
| Marquee.RunAsWrittenAgrees | src/components/StorySection.tsx:86-106 | as long as no frame is longer than one loop duration, the written marquee behaves exactly like the corrected one |
| Marquee.TickAfterDragStaysOutside | src/components/StorySection.tsx:245-249 | a strip dragged to 3000 px (L = 1000) is still outside `(-L, 0]` after the next 20 ms frame: it is at 1999 |
| Marquee.TickMovesLittle | src/components/StorySection.tsx:93-98 | one frame no longer than a loop duration brings the strip back by at most two loop distances |
| Marquee.DraggedRunCreeps | src/components/StorySection.tsx:86-104 | with the written wrap, `n` such frames leave a strip dragged to `x` at least at `x - 2nL` |
| Marquee.DraggedStripNeedsFrames | src/components/StorySection.tsx:245-249 | a strip dragged right past `2nL` is still off the range after `n` frames |
| IndexPage.PlainLabelResolves | src/pages/Index.tsx:30-34 | a label of digits and hyphens resolves to its own `story-` section when the page has one |
| IndexPage.ShortColumnLabelResolves | src/components/CandlestickChart.tsx:256-262 | on this page the chart's "2022-23" column reaches "story-2022-2023" through the long-alias candidate |
| IndexPage.EnDashLabelResolves | src/pages/Index.tsx:148-152 | the page's own "2022–2023" label reaches the same section |
| IndexPage.EveryChartYearResolves | src/components/CandlestickChart.tsx:709-724 | every chart column has a story on this page, so no axis button is disabled |
| IndexPage.SectionsResolveToThemselves | src/pages/Index.tsx:30-202 | every section's id is on the page, and its own year label resolves back to it |
| IndexPage.SectionSides | src/pages/Index.tsx:30-202 | the five sections alternate sides, starting from the right |
| IndexPage.MediaLessSectionsUsePlaceholders | src/pages/Index.tsx:180-202 | the 2021 and 2020 sections show six placeholders, videos at places 0 and 3 |
| IndexPage.XComIsXLink | src/pages/Index.tsx:45 | the rails' link "https://x.com" is an X link |
| IndexPage.RailsLinkToX | src/pages/Index.tsx:39-68 | every photo of a rail links out and shows "View on X" |
| IndexPage.RepeatedPhotoKeysDistinct | src/pages/Index.tsx:97-126 | the 2024 strip shows one image at four of its eight places, yet every place has its own key |
| IndexPage.DesktopRailLoop | src/components/StorySection.tsx:60-76 | on a 1280 px desktop the 2025 strip repeats every 4 × (380 + 18) = 1592 px |

## Left out

- Rendering: JSX, class names, colours, gradients, icons, the avatar
  marker, dotted grid lines and the dark-mode check. None of these
  affects state or navigation.
- The mobile tooltip sheet's layout and portal. Only what a tap on it
  hits is modelled: the sheet is a fixed full-screen layer with the
  largest z-index (CandlestickChart.tsx 352-358) whose backdrop button
  (359-366) covers everything outside the card, so `ChartInteraction.PhoneTap`
  sends a tap at a candle's place to the backdrop while the sheet is
  shown. Hit testing itself, and the mouse events a browser may emulate
  for a tap before its `click`, are not modelled.
- The mobile scroll lock on `document.body` (CandlestickChart.tsx
  310-320). It is a DOM side effect with no state of the chart.
- `scrollIntoView` and `history.replaceState` are folded into the
  `Navigate` effect. The ignored exception of `replaceState` has no
  observable result.
- `requestAnimationFrame`, `performance.now` and the resize listener.
  Frames arrive as a list of `(paused, dt)` pairs, and the viewport width
  is a parameter of `StoryMedia.CardWidth`.
- The drag gesture of the strip: framer-motion's drag physics is code
  outside this repository. Its constraints of ±999999 px (StorySection.tsx
  245-249) let a drag leave the strip almost anywhere, so the lemmas about
  dragging take an arbitrary start position; pausing during the drag is
  `Frame.paused`. The elastic overshoot and the release momentum are not
  modelled.
- The card width of 420 px before the first measurement. The effect
  computes the width on mount.
- Text.ToLower: lowers ASCII letters only. `toLowerCase` also lowers
  other scripts, but the two site names are ASCII, so X-link detection
  is unaffected.
- Floating point: pixel arithmetic is exact over reals. Rounding of
  IEEE doubles is not modelled.
- Candle descriptions, section titles, subtitles, content and
  highlights. These are display text that no logic reads.
- The `mediaVariant`, `content`, `highlights` and `fit` props of the
  page's sections. The story section does not read them.
- IndexPage: the page's long image addresses are shortened to file
  names. Which addresses coincide is kept.

## Findings

| source | as written | input that shows it | evidently intended | confidence | as-written member | corrected member |
|---|---|---|---|---|---|---|
| src/components/StorySection.tsx:96-98 | the wrap adds or subtracts the loop distance at most once per frame | desktop, loop distance 1000 px (speed 50 px/s), position 0, one frame of `dt` = 40 s, as after a background tab resumes: `next` = -2000 is wrapped once to -1000, outside `(-L, 0]`; a longer pause leaves the strip several loops off-screen for as many frames; likewise a drag (constraints ±999999 px) to 3000 with L = 1000 is wrapped to 1999 on the next 20 ms frame and regains at most 2L per frame (`Marquee.TickAfterDragStaysOutside`, `Marquee.DraggedStripNeedsFrames`) | the position is brought back into `(-L, 0]` however long the frame or far the drag, that is, wrapped modulo the loop distance (`Marquee.WrappedTick` does so from any position) | medium, not executed | Marquee.TickLeavesLoopAfterLongFrame | Marquee.RunStaysInLoop |
| src/components/CandlestickChart.tsx:352-366 | on a phone the tooltip sheet is a full-screen layer above everything, and its backdrop button closes the sheet | a phone, the 2025 candle (which has a story): the first tap opens the sheet, whose tip reads "Tip: tap candle again to jump" (424-427); the second tap at the candle lands on the backdrop and closes the sheet; a third opens it again, and no tap ever jumps | a second tap on the candle jumps to its story, as the tip says and as the mobile branch of the candle's `onClick` (625-633) is written to do | medium, not executed | ChartInteraction.PhoneTapsNeverNavigate | ChartInteraction.TapTwiceNavigates |
