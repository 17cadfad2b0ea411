/** The landing page as a fixture: the story sections it renders, in order,
    and the element ids they put into the document. The chart's resolver and
    the media strips are checked against it. */
module IndexPage {
  import opened Wrappers
  import opened Text
  import opened ChartData
  import opened StoryId
  import opened StoryMedia

  /** The ids of the journey container and of its five story sections. */
  const PageIds: set<string> :=
    {"story", "story-2025", "story-2024", "story-2022-2023", "story-2021", "story-2020"}

  /** One `<StorySection>` of the page: its id, place, tone, year label and media. */
  datatype Section = Section(id: string, index: int, tone: Tone, year: string, media: Option<seq<MediaItem>>)

  /** A linked photo of a rail; the long image addresses of the page are
      shortened to file names, keeping which of them coincide. */
  function Moment(brand: string, n: nat, src: string): MediaItem {
    MediaItem(Image, src, brand + " \U{2014} moment " + NatToString(n), Some("https://x.com"), Some("Moment"))
  }

  /** The four moments of a rail, with their image addresses. */
  function Rail(brand: string, a: string, b: string, c: string, d: string): seq<MediaItem> {
    [Moment(brand, 1, a), Moment(brand, 2, b), Moment(brand, 3, c), Moment(brand, 4, d)]
  }

  /** The page's sections, top to bottom. The 2024 rail shows its first
      photo again as its fourth. */
  const Sections: seq<Section> := [
    Section("story-2025", 0, Green, "2025", Some(Rail("Aethir", "aethir-1.jpeg", "aethir-2.jpeg", "aethir-3.jpeg", "aethir-4.jpeg"))),
    Section("story-2024", 1, Green, "2024", Some(Rail("Capx", "capx-1.jpeg", "capx-2.jpeg", "capx-3.jpeg", "capx-1.jpeg"))),
    Section("story-2022-2023", 2, Green, "2022\U{2013}2023",
            Some([MediaItem(Image, "lumos.png", "Lumos Labs \U{2014} community & partnerships", None, None)])),
    Section("story-2021", 3, Green, "2021", None),
    Section("story-2020", 4, Green, "2020", None)
  ]

  /** A label of digits and hyphens other than the long alias is already normal. */
  lemma PlainLabelNormal(y: string)
    requires forall i :: 0 <= i < |y| ==> '0' <= y[i] <= '9' || y[i] == '-'
    requires y != "2022-2023"
    ensures NormalizeYearForId(y) == y
  {
    NormalFormFixed(y);
  }

  /** A plain label resolves to its own section when the page has one. */
  lemma PlainLabelResolves(y: string, id: string)
    requires forall i :: 0 <= i < |y| ==> '0' <= y[i] <= '9' || y[i] == '-'
    requires y != "2022-2023" && id == "story-" + y && id in PageIds
    ensures ResolveStoryId(y, PageIds) == Some(id)
  {
    PlainLabelNormal(y);
    ResolveMatchesChain(y, PageIds);
  }

  /** The four single-year columns reach their sections through the first candidate. */
  lemma PlainYearResolves(y: string)
    requires y in ["2020", "2021", "2024", "2025"]
    ensures ResolveStoryId(y, PageIds) == Some("story-" + y)
  {
    if y == "2020" {
      assert "story-" + y == "story-2020";
    } else if y == "2021" {
      assert "story-" + y == "story-2021";
    } else if y == "2024" {
      assert "story-" + y == "story-2024";
    } else {
      assert "story-" + y == "story-2025";
    }
    PlainLabelResolves(y, "story-" + y);
  }

  /** The chart's short label for the 2022–2023 column reaches its section
      through the fourth candidate, since the page has no "story-2022-23". */
  lemma ShortColumnLabelResolves(y: string)
    requires y == "2022-23"
    ensures ResolveStoryId(y, PageIds) == Some("story-2022-2023")
  {
    NormalizeShortLabel(y);
    ResolveMatchesChain(y, PageIds);
    ShortLabelChain(y);
  }

  /** On this page the chain for the short label falls through to the long alias. */
  lemma ShortLabelChain(ny: string)
    requires ny == "2022-23"
    ensures ResolveChain(ny, PageIds) == Some("story-2022-2023")
  {
    NotPageIdByLength("story-" + ny);
    NotPageIdByLength("story-" + ny + "-green");
    NotPageIdByLength("story-" + ny + "-red");
  }

  /** An id whose length no page id has is not on the page. */
  lemma NotPageIdByLength(id: string)
    requires |id| != 5 && |id| != 10 && |id| != 15
    ensures id !in PageIds
  {
    PageIdLengths();
  }

  /** The page's ids are 5, 10 or 15 characters long. */
  lemma PageIdLengths()
    ensures forall id :: id in PageIds ==> |id| == 5 || |id| == 10 || |id| == 15
  {
  }

  /** The page's own en-dash label resolves the same way. */
  lemma EnDashLabelResolves(y: string)
    requires y == "2022\U{2013}2023"
    ensures ResolveStoryId(y, PageIds) == Some("story-2022-2023")
  {
    var ny := NormalizeYearForId(y);
    NormalizeEnDashLabel(y);
    ShortColumnLabelResolves(ny);
    ResolveMatchesChain(y, PageIds);
    ResolveMatchesChain(ny, PageIds);
    NormalizeIdempotent(y);
  }

  /** Every column of the chart has a story on this page, so no candle is
      storyless here. */
  lemma EveryChartYearResolves()
    ensures forall y :: y in Years(CandleData) ==> HasStoryForYear(y, PageIds)
  {
    CandleDataYears();
    forall y | y in Years(CandleData) ensures HasStoryForYear(y, PageIds) {
      if y == "2022-23" {
        ShortColumnLabelResolves(y);
      } else {
        PlainYearResolves(y);
      }
    }
  }

  /** Each section's own year label leads the chart back to that section. */
  lemma SectionsResolveToThemselves()
    ensures forall i :: 0 <= i < |Sections| ==>
      Sections[i].id in PageIds && ResolveStoryId(Sections[i].year, PageIds) == Some(Sections[i].id)
  {
    forall i | 0 <= i < |Sections|
      ensures Sections[i].id in PageIds && ResolveStoryId(Sections[i].year, PageIds) == Some(Sections[i].id)
    {
      var s := Sections[i];
      if i == 2 {
        assert s.year == "2022\U{2013}2023" && s.id == "story-2022-2023";
        EnDashLabelResolves(s.year);
      } else {
        assert s.year in ["2020", "2021", "2024", "2025"] && s.id == "story-" + s.year;
        PlainYearResolves(s.year);
      }
    }
  }

  /** The sections alternate sides, starting from the right. */
  lemma SectionSides()
    ensures forall i :: 0 <= i < |Sections| ==> (FromRight(Sections[i].index) <==> i % 2 == 0)
  {
  }

  /** The two sections without media fall back to six placeholders, two of
      them videos. */
  lemma MediaLessSectionsUsePlaceholders()
    ensures |Cards(Sections[3].media, Sections[3].year)| == 6
    ensures |Cards(Sections[4].media, Sections[4].year)| == 6
    ensures Cards(Sections[3].media, Sections[3].year)[0].kind == Video
    ensures Cards(Sections[3].media, Sections[3].year)[3].kind == Video
    ensures Cards(Sections[3].media, Sections[3].year)[1].kind == Image
  {
  }

  /** The rails' link is an X link. */
  lemma XComIsXLink(h: string)
    requires h == "https://x.com"
    ensures IsXLink(Some(h))
  {
    var name := h[8..];
    var ln := ToLower(name);
    assert |ln| == |name| == 5;
    assert forall i :: 0 <= i < |name| ==> ln[i] == LowerAscii(name[i]) == name[i];
    assert ln == name == "x.com";
    SiteNameMakesXLink(h[..8], name, "");
    assert h[..8] + name + "" == h;
  }

  /** Every photo of a rail opens X and says so. */
  lemma RailsLinkToX(brand: string, a: string, b: string, c: string, d: string, year: string)
    ensures forall i :: 0 <= i < |Rail(brand, a, b, c, d)| ==>
      Clickable(Rail(brand, a, b, c, d)[i]) && ViewCard(Rail(brand, a, b, c, d)[i], year).viewOnX
  {
    forall i | 0 <= i < |Rail(brand, a, b, c, d)|
      ensures Clickable(Rail(brand, a, b, c, d)[i]) && ViewCard(Rail(brand, a, b, c, d)[i], year).viewOnX
    {
      var m := Rail(brand, a, b, c, d)[i];
      assert m.href == Some("https://x.com");
      XComIsXLink(m.href.value);
      XLinkIsClickable(m);
    }
  }

  /** The 2024 strip shows the same image at four of its eight places, yet
      every place gets its own key. */
  lemma RepeatedPhotoKeysDistinct()
    ensures var strip := LoopCards(Cards(Sections[1].media, Sections[1].year));
      && strip[0].src == strip[3].src == strip[4].src == strip[7].src
      && forall i, j :: 0 <= i < j < |strip| ==> CardKey(strip[i], i) != CardKey(strip[j], j)
  {
    var cards := Cards(Sections[1].media, Sections[1].year);
    forall i, j | 0 <= i < j < |LoopCards(cards)|
      ensures CardKey(LoopCards(cards)[i], i) != CardKey(LoopCards(cards)[j], j)
    {
      LoopCardKeysDistinct(cards, i, j);
    }
  }

  /** On a 1280 px desktop the 2025 rail uses 380 px cards and repeats
      every 4 * (380 + 18) = 1592 px. */
  lemma DesktopRailLoop()
    ensures LoopDistance(CardWidth(false, 1280.0), false, |Cards(Sections[0].media, Sections[0].year)|) == 1592
  {
    CardWidthExamples();
  }
}
