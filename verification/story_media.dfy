/** The media strip of one story section: which cards it shows, how wide
    they are, how far the strip travels before it repeats, and the flags a
    section derives from its place on the page and its tone. */
module StoryMedia {
  import opened Wrappers
  import opened Text

  datatype MediaKind = Image | Video

  /** One card of the strip; the link `href` and the `caption` (the source's
      `label`, a reserved word here) are optional. */
  datatype MediaItem = MediaItem(kind: MediaKind, src: string, alt: string, href: Option<string>, caption: Option<string>)

  /** A story is an achievement (green) or a lesson (red). */
  datatype Tone = Green | Red

  /** The number of placeholder cards a section without media shows. */
  const PlaceholderCount: nat := 6

  /** Horizontal space between two cards. */
  function Gap(isMobile: bool): nat {
    if isMobile then 14 else 18
  }

  // ---------------------------------------------------------------------
  // Card width
  // ---------------------------------------------------------------------

  /** The card-width band and the share of the viewport a card takes. */
  function MinCardWidth(isMobile: bool): int { if isMobile then 260 else 380 }
  function MaxCardWidth(isMobile: bool): int { if isMobile then 340 else 520 }
  function WidthShare(isMobile: bool): real { if isMobile then 0.82 else 0.28 }

  function MaxInt(a: int, b: int): int { if a >= b then a else b }
  function MinInt(a: int, b: int): int { if a <= b then a else b }

  /** The viewport's measured width, or the window's width when the viewport
      is not mounted yet. */
  function ViewportWidth(measured: Option<real>, innerWidth: real): (w: real)
    ensures measured.Some? ==> w == measured.value
    ensures measured.None? ==> w == innerWidth
  {
    measured.GetOr(innerWidth)
  }

  /** `Math.max(lo, Math.min(hi, Math.floor(vp * share)))`: the floored share
      of the viewport, kept within the band of the device class. */
  function CardWidth(isMobile: bool, vp: real): (w: int)
    ensures MinCardWidth(isMobile) <= w <= MaxCardWidth(isMobile)
    ensures MinCardWidth(isMobile) <= (vp * WidthShare(isMobile)).Floor <= MaxCardWidth(isMobile)
            ==> w == (vp * WidthShare(isMobile)).Floor
    ensures (vp * WidthShare(isMobile)).Floor < MinCardWidth(isMobile) ==> w == MinCardWidth(isMobile)
    ensures (vp * WidthShare(isMobile)).Floor > MaxCardWidth(isMobile) ==> w == MaxCardWidth(isMobile)
  {
    MaxInt(MinCardWidth(isMobile), MinInt(MaxCardWidth(isMobile), (vp * WidthShare(isMobile)).Floor))
  }

  /** A wider viewport never gives narrower cards. */
  lemma CardWidthMonotone(isMobile: bool, vp1: real, vp2: real)
    requires vp1 <= vp2
    ensures CardWidth(isMobile, vp1) <= CardWidth(isMobile, vp2)
  {
    var s := WidthShare(isMobile);
    assert vp1 * s <= vp2 * s by {
      assert (vp2 - vp1) * s >= 0.0;
    }
  }

  /** Examples: a 390 px phone gets 319 px cards (`floor(319.8)`); a 1280 px
      desktop is below the band (`floor(358.4) = 358`) and gets 380 px; a
      2560 px screen is capped at 520 px. Before the strip's viewport is
      mounted the window's width stands in; once measured, the viewport's
      own width wins. */
  lemma CardWidthExamples()
    ensures CardWidth(true, 390.0) == 319
    ensures CardWidth(false, 1280.0) == 380
    ensures CardWidth(false, 2560.0) == 520
    ensures CardWidth(false, ViewportWidth(None, 2560.0)) == 520
    ensures CardWidth(false, ViewportWidth(Some(1280.0), 2560.0)) == 380
  {
    assert 390.0 * 0.82 == 319.8;
    assert 1280.0 * 0.28 == 358.4;
    assert 2560.0 * 0.28 == 716.8;
  }

  // ---------------------------------------------------------------------
  // Cards
  // ---------------------------------------------------------------------

  /** Placeholder `i` (0-based) for a section of the given year: every third
      card, starting with the first, is a video. */
  function PlaceholderCard(i: nat, year: string): MediaItem {
    MediaItem(
      if i % 3 == 0 then Video else Image,
      "/placeholder.svg",
      "Story media " + NatToString(i + 1) + " for " + year,
      None,
      Some(if i % 3 == 0 then "Video" else "Photo"))
  }

  /** Whether the section was given any media. */
  predicate HasMedia(media: Option<seq<MediaItem>>) {
    media.Some? && |media.value| > 0
  }

  /** The cards of the section: its media when there is any, otherwise six
      placeholders. */
  function Cards(media: Option<seq<MediaItem>>, year: string): (r: seq<MediaItem>)
    ensures |r| > 0
    ensures HasMedia(media) ==> r == media.value
    ensures !HasMedia(media) ==> |r| == PlaceholderCount
    ensures !HasMedia(media) ==>
      forall i :: 0 <= i < |r| ==>
        && (r[i].kind == Video <==> i % 3 == 0)
        && r[i].caption == Some(if r[i].kind == Video then "Video" else "Photo")
        && r[i].src == "/placeholder.svg"
        && r[i].href == None
    ensures !HasMedia(media) ==> forall i :: 0 <= i < |r| ==> r[i] == PlaceholderCard(i, year)
  {
    if HasMedia(media) then media.value
    else seq(PlaceholderCount, i requires 0 <= i => PlaceholderCard(i, year))
  }

  /** The placeholders of a year are told apart by their alt text. */
  lemma PlaceholderAltsDistinct(i: nat, j: nat, year: string)
    requires i != j
    ensures PlaceholderCard(i, year).alt != PlaceholderCard(j, year).alt
  {
    var d1, d2 := NatToString(i + 1), NatToString(j + 1);
    if PlaceholderCard(i, year).alt == PlaceholderCard(j, year).alt {
      MiddleEqual("Story media ", d1, d2, " for ", year);
      NatToStringInjective(i + 1, j + 1);
    }
  }

  /** Strings with the same prefix and suffix agree in the middle. */
  lemma MiddleEqual(p: string, m1: string, m2: string, q: string, y: string)
    requires p + m1 + q + y == p + m2 + q + y
    ensures m1 == m2
  {
    var a := p + m1 + q + y;
    assert |m1| == |m2|;
    assert m1 == a[|p|..|p| + |m1|];
    assert m2 == (p + m2 + q + y)[|p|..|p| + |m2|];
  }

  /** The strip holds the cards twice in a row, so that the second copy
      takes the place of the first when the strip has moved one loop. */
  function LoopCards(cards: seq<MediaItem>): (r: seq<MediaItem>)
    ensures |r| == 2 * |cards|
    ensures forall i :: 0 <= i < |cards| ==> r[i] == cards[i] && r[i + |cards|] == cards[i]
  {
    cards + cards
  }

  /** The React key of the card at position `i` of the strip. */
  function CardKey(c: MediaItem, i: nat): string {
    c.src + "-" + NatToString(i)
  }

  /** Although every card appears twice, and all placeholders share one
      source, no two positions of the strip share a key. */
  lemma LoopCardKeysDistinct(cards: seq<MediaItem>, i: nat, j: nat)
    requires i < j < 2 * |cards|
    ensures CardKey(LoopCards(cards)[i], i) != CardKey(LoopCards(cards)[j], j)
  {
    var r := LoopCards(cards);
    if CardKey(r[i], i) == CardKey(r[j], j) {
      DashNumberInjective(r[i].src, i, r[j].src, j);
    }
  }

  // ---------------------------------------------------------------------
  // Loop distance
  // ---------------------------------------------------------------------

  /** The distance after which the strip repeats: one card plus one gap,
      for every card of one copy. */
  function LoopDistance(cardW: int, isMobile: bool, count: nat): int {
    (cardW + Gap(isMobile)) * count
  }

  /** The left edge of strip position `i`, relative to the strip. */
  function CardOffset(cardW: int, isMobile: bool, i: nat): int {
    (cardW + Gap(isMobile)) * i
  }

  /** Moving the strip by one loop distance puts each card of the second copy
      exactly where the same card of the first copy was: the loop is seamless. */
  lemma SeamlessLoop(cards: seq<MediaItem>, cardW: int, isMobile: bool, i: nat)
    requires i < |cards|
    ensures LoopCards(cards)[i + |cards|] == LoopCards(cards)[i]
    ensures CardOffset(cardW, isMobile, i + |cards|)
         == CardOffset(cardW, isMobile, i) + LoopDistance(cardW, isMobile, |cards|)
  {
    var w := cardW + Gap(isMobile);
    assert w * (i + |cards|) == w * i + w * |cards|;
  }

  /** Once the card width is computed, the loop distance of a non-empty
      strip is positive, so the marquee always runs; every strip is non-empty
      because `Cards` falls back to placeholders. */
  lemma LoopDistancePositive(isMobile: bool, vp: real, count: nat)
    requires count > 0
    ensures LoopDistance(CardWidth(isMobile, vp), isMobile, count) > 0
  {
    var w := CardWidth(isMobile, vp) + Gap(isMobile);
    PositiveProduct(w, count);
  }

  lemma PositiveProduct(a: int, b: int)
    requires a > 0 && b > 0
    ensures a * b > 0
  {
  }

  // ---------------------------------------------------------------------
  // Links and flags
  // ---------------------------------------------------------------------

  /** `isXLink`: an absent or empty link is not one; otherwise the lower-cased
      link is searched for "x.com" or "twitter.com". */
  function IsXLink(href: Option<string>): bool {
    match href
    case None => false
    case Some(h) =>
      h != "" && (Contains(ToLower(h), "x.com") || Contains(ToLower(h), "twitter.com"))
  }

  /** The classifier is a plain substring test on the lower-cased link. */
  lemma IsXLinkIff(href: Option<string>)
    ensures IsXLink(href) <==>
      href.Some? && ((exists i :: OccursAt(ToLower(href.value), "x.com", i))
                     || (exists i :: OccursAt(ToLower(href.value), "twitter.com", i)))
  {
    if href.Some? {
      var l := ToLower(href.value);
      ContainsIff(l, "x.com");
      ContainsIff(l, "twitter.com");
      if href.value == "" {
        assert !Contains(l, "x.com") && !Contains(l, "twitter.com");
      } else if Contains(l, "x.com") {
        var i: nat :| OccursAt(l, "x.com", i);
        assert exists j :: OccursAt(ToLower(href.value), "x.com", j);
        assert IsXLink(href);
      } else if Contains(l, "twitter.com") {
        var i: nat :| OccursAt(l, "twitter.com", i);
        assert exists j :: OccursAt(ToLower(href.value), "twitter.com", j);
        assert IsXLink(href);
      }
    }
  }

  /** A character of `t` that `s` lacks rules out every occurrence. */
  lemma {:induction false} MissingCharNotContained(s: string, t: string, j: nat)
    requires j < |t|
    requires forall k :: 0 <= k < |s| ==> s[k] != t[j]
    ensures !Contains(s, t)
    decreases |s|
  {
    if |t| <= |s| {
      assert s[..|t|][j] == s[j] != t[j];
    }
    if |s| > 0 {
      MissingCharNotContained(s[1..], t, j);
    }
  }

  /** Lower-casing keeps the characters the two site names are made of. */
  predicate IsSiteName(name: string) {
    name == "x.com" || name == "twitter.com"
  }

  /** A link with either site name anywhere in it, in any case, is an X
      link: "https://x.com", "HTTPS://TWITTER.COM", and also
      "https://netflix.com", which ends in "x.com". */
  lemma SiteNameMakesXLink(pre: string, name: string, post: string)
    requires IsSiteName(ToLower(name))
    ensures IsXLink(Some(pre + name + post))
  {
    var h := pre + name + post;
    var l := ToLower(h);
    assert l[|pre|..|pre| + |name|] == ToLower(name);
    ContainsIff(l, ToLower(name));
    assert OccursAt(l, ToLower(name), |pre|);
  }

  /** A link without the letter x and without the letter w in either case,
      such as "https://github.com", is not an X link. */
  lemma NoXNoWNotXLink(h: string)
    requires forall k :: 0 <= k < |h| ==> h[k] !in "xXwW"
    ensures !IsXLink(Some(h))
  {
    var l := ToLower(h);
    MissingCharNotContained(l, "x.com", 0);
    MissingCharNotContained(l, "twitter.com", 1);
  }

  /** `Boolean(c.href)`: a card links out when it has a non-empty link. */
  predicate Clickable(c: MediaItem) {
    c.href.Some? && c.href.value != ""
  }

  /** A card that says "View on X" is always a link as well. */
  lemma XLinkIsClickable(c: MediaItem)
    ensures IsXLink(c.href) ==> Clickable(c)
    ensures !Clickable(c) ==> !IsXLink(c.href)
  {
  }

  /** What the footer of a card shows. */
  datatype CardView = CardView(pill: string, title: string, link: Option<string>, openHint: bool, viewOnX: bool)

  /** The card as the strip renders it: its caption or "Story" on the pill, the
      "{year} moment" caption, and the link hints. */
  function ViewCard(c: MediaItem, year: string): (v: CardView)
    ensures v.link.Some? <==> Clickable(c)
    ensures v.link.Some? ==> v.link == c.href
    ensures v.openHint <==> v.link.Some?
    ensures v.viewOnX ==> v.openHint
    ensures v.viewOnX <==> IsXLink(c.href)
    ensures v.pill == c.caption.GetOr("Story")
    ensures v.title == year + " moment"
  {
    var clickable := Clickable(c);
    CardView(c.caption.GetOr("Story"), year + " moment",
             if clickable then c.href else None, clickable, IsXLink(c.href))
  }

  /** Placeholder cards never link out. */
  lemma PlaceholdersNotClickable(year: string)
    ensures forall i :: 0 <= i < |Cards(None, year)| ==> !Clickable(Cards(None, year)[i])
  {
  }

  /** The JavaScript `%`: the remainder takes the sign of the dividend. */
  function JsRem(a: int, b: int): (r: int)
    requires b != 0
    ensures a >= 0 ==> 0 <= r < (if b > 0 then b else -b)
    ensures a < 0 ==> -(if b > 0 then b else -b) < r <= 0
  {
    if a >= 0 then a % b else -((-a) % b)
  }

  /** The quotient that JavaScript's `%` goes with: `a / b` rounded toward zero. */
  function JsQuot(a: int, b: int): int
    requires b != 0
  {
    if a >= 0 then a / b else -((-a) / b)
  }

  /** `JsRem` is the remainder of division rounded toward zero: it completes
      `a` from `JsQuot(a, b) * b`, takes the sign of `a` and is no larger
      than `a` in magnitude. */
  lemma JsRemIsRemainder(a: int, b: int)
    requires b != 0
    ensures a == JsQuot(a, b) * b + JsRem(a, b)
    ensures exists q :: a == q * b + JsRem(a, b)
    ensures a >= 0 ==> 0 <= JsRem(a, b) <= a
    ensures a < 0 ==> a <= JsRem(a, b) <= 0
  {
    if a >= 0 {
      EuclidRemainder(a, b);
    } else {
      EuclidRemainder(-a, b);
      var m := (-a) / b;
      NegateProduct(m, b);
    }
  }

  /** The remainder of a non-negative dividend completes it and is no larger. */
  lemma EuclidRemainder(n: int, b: int)
    requires n >= 0 && b != 0
    ensures n == (n / b) * b + n % b
    ensures 0 <= n % b <= n
  {
    if n < (if b > 0 then b else -b) {
      assert n / b == 0;
    }
  }

  lemma NegateProduct(m: int, b: int)
    ensures (-m) * b == -(m * b)
  {
  }

  /** `index % 2 === 0`: a section slides in from the right at even places. */
  function FromRight(index: int): bool {
    JsRem(index, 2) == 0
  }

  /** Even places, whatever their sign, and only they come from the right. */
  lemma FromRightIffEven(index: int)
    ensures FromRight(index) <==> index % 2 == 0
  {
  }

  /** Neighbouring sections come from opposite sides. */
  lemma SidesAlternate(index: int)
    ensures FromRight(index) != FromRight(index + 1)
  {
    FromRightIffEven(index);
    FromRightIffEven(index + 1);
  }

  /** The tilt of a hovered card: towards the side the section came from. */
  function HoverRotate(fromRight: bool): (deg: real)
    ensures deg == -1.2 <==> fromRight
    ensures deg == 1.2 <==> !fromRight
  {
    if fromRight then -1.2 else 1.2
  }

  /** A hovered card tilts to the left exactly in sections at even places. */
  lemma HoverRotateBySection(index: int)
    ensures HoverRotate(FromRight(index)) == -1.2 <==> index % 2 == 0
    ensures HoverRotate(FromRight(index)) == 1.2 <==> index % 2 != 0
  {
    FromRightIffEven(index);
  }

  /** The chip on a story card. */
  function Badge(tone: Tone): (b: string)
    ensures b == "Achievement" <==> tone == Green
    ensures b == "Lesson" <==> tone == Red
  {
    match tone
    case Green => "Achievement"
    case Red => "Lesson"
  }
}
