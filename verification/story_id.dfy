/** How the chart turns a candle's year label into the id of a story
    section present in the document, and the navigation that follows.
    The document is modelled as the set of element ids it contains. */
module StoryId {
  import opened Wrappers
  import opened Text

  /** `normalizeYearForId`: trim, turn en/em dashes into "-", and alias
      the long form "2022-2023" to "2022-23". */
  function NormalizeYearForId(year: string): (ny: string)
    ensures |ny| <= |year| || ny == "2022-23"
    ensures forall i :: 0 <= i < |ny| ==> !IsLongDash(ny[i])
    ensures ny != "2022-2023"
    ensures |ny| > 0 ==> !IsWhiteSpace(ny[0]) && !IsWhiteSpace(ny[|ny| - 1])
  {
    var dashFixed := ReplaceLongDashes(Trim(year));
    DashFixedIsNormal(year);
    if dashFixed == "2022-2023" then ShortAliasIsNormal("2022-23"); "2022-23" else dashFixed
  }

  /** The short alias has no long dash and no border white space. */
  lemma ShortAliasIsNormal(a: string)
    requires a == "2022-23"
    ensures forall i :: 0 <= i < |a| ==> !IsLongDash(a[i])
    ensures !IsWhiteSpace(a[0]) && !IsWhiteSpace(a[|a| - 1])
  {
    assert forall i :: 0 <= i < |a| ==> '0' <= a[i] <= '9' || a[i] == '-';
  }

  /** Trimming and then replacing the long dashes leaves no long dash and
      no white space at either end. */
  lemma DashFixedIsNormal(year: string)
    ensures var d := ReplaceLongDashes(Trim(year));
      && |d| <= |year|
      && (forall i :: 0 <= i < |d| ==> !IsLongDash(d[i]))
      && (|d| > 0 ==> !IsWhiteSpace(d[0]) && !IsWhiteSpace(d[|d| - 1]))
  {
    var y := Trim(year);
    FixDashKeepsBorders(y, ReplaceLongDashes(y));
  }

  /** What the normalised label is: the label with its long dashes
      replaced and its surrounding white space dropped, except that the
      long "2022-2023" becomes the short "2022-23". */
  lemma NormalizeYearForIdTrims(year: string)
    ensures TrimmedAt(ReplaceLongDashes(year), StartOfText(year, 0), "2022-2023")
            ==> NormalizeYearForId(year) == "2022-23"
    ensures !TrimmedAt(ReplaceLongDashes(year), StartOfText(year, 0), "2022-2023")
            ==> TrimmedAt(ReplaceLongDashes(year), StartOfText(year, 0), NormalizeYearForId(year))
  {
    DashFixedIsTrimmed(year);
    TrimmedAtUniqueAlias(ReplaceLongDashes(year), StartOfText(year, 0), ReplaceLongDashes(Trim(year)));
  }

  /** Trimming and then replacing dashes is the same as trimming the
      dash-replaced label. */
  lemma DashFixedIsTrimmed(year: string)
    ensures TrimmedAt(ReplaceLongDashes(year), StartOfText(year, 0), ReplaceLongDashes(Trim(year)))
  {
    ReplaceKeepsTrimming(year, StartOfText(year, 0), Trim(year));
  }

  /** A slice of `d` that is its trimming equals "2022-2023" exactly when
      the trimming at the same place is "2022-2023". */
  lemma TrimmedAtUniqueAlias(d: string, k: nat, r: string)
    requires TrimmedAt(d, k, r)
    ensures TrimmedAt(d, k, "2022-2023") <==> r == "2022-2023"
  {
    if TrimmedAt(d, k, "2022-2023") {
      TrimmedAtUnique(d, k, r, k, "2022-2023");
    }
  }

  /** Replacing dashes keeps a string's ends free of white space. */
  lemma FixDashKeepsBorders(y: string, d: string)
    requires |d| == |y| && forall i :: 0 <= i < |y| ==> d[i] == FixDash(y[i])
    requires |y| > 0 ==> !IsWhiteSpace(y[0]) && !IsWhiteSpace(y[|y| - 1])
    ensures |d| > 0 ==> !IsWhiteSpace(d[0]) && !IsWhiteSpace(d[|d| - 1])
  {
  }

  /** A string without border white space and without long dashes is
      its own trimmed, dash-fixed form. */
  lemma NormalFormFixed(s: string)
    requires forall i :: 0 <= i < |s| ==> !IsLongDash(s[i])
    requires |s| > 0 ==> !IsWhiteSpace(s[0]) && !IsWhiteSpace(s[|s| - 1])
    ensures Trim(s) == s
    ensures ReplaceLongDashes(Trim(s)) == s
  {
    assert TrimmedAt(s, 0, s) by {
      assert s[0..|s|] == s;
    }
    TrimCharacterised(s, 0, s);
    var r := ReplaceLongDashes(s);
    assert forall i :: 0 <= i < |s| ==> r[i] == s[i];
  }

  /** Normalising an already normalised label changes nothing. */
  lemma NormalizeIdempotent(year: string)
    ensures NormalizeYearForId(NormalizeYearForId(year)) == NormalizeYearForId(year)
  {
    NormalFormFixed(NormalizeYearForId(year));
  }

  /** The page's en-dash label normalises to the chart's short label. */
  lemma NormalizeEnDashLabel(y: string)
    requires y == "2022\U{2013}2023"
    ensures NormalizeYearForId(y) == "2022-23"
  {
    assert TrimmedAt(y, 0, y) by {
      assert y[0..|y|] == y;
    }
    TrimCharacterised(y, 0, y);
    var r := ReplaceLongDashes(y);
    assert |r| == 9 && r[4] == '-';
    assert r == "2022-2023";
  }

  /** The chart's own short label is already normal. */
  lemma NormalizeShortLabel(y: string)
    requires y == "2022-23"
    ensures NormalizeYearForId(y) == y
  {
    NormalFormFixed(y);
  }

  /** Surrounding white space is dropped. */
  lemma NormalizePaddedLabel(s: string)
    requires s == " 2024 "
    ensures NormalizeYearForId(s) == "2024"
  {
    var t := "2024";
    assert s[1..5] == t by {
      forall i | 0 <= i < 4 ensures s[1..5][i] == t[i] {
        assert s[1..5][i] == s[i + 1];
      }
    }
    assert forall i :: 0 <= i < |t| ==> '0' <= t[i] <= '9';
    assert TrimmedAt(s, 1, t);
    TrimCharacterised(s, 1, t);
    NormalFormFixed(t);
  }

  /** The candidate list before `.filter(Boolean)`. */
  function RawCandidates(ny: string): seq<string> {
    [ "story-" + ny,
      "story-" + ny + "-green",
      "story-" + ny + "-red",
      if ny == "2022-23" then "story-2022-2023" else "",
      if ny == "2022-2023" then "story-2022-23" else "" ]
  }

  /** `.filter(Boolean)` on strings: drops the empty ones, keeps the order. */
  function NonEmpty(xs: seq<string>): (r: seq<string>)
    ensures |r| <= |xs|
    ensures forall x :: x in r <==> x in xs && x != ""
  {
    if xs == [] then []
    else if xs[0] == "" then NonEmpty(xs[1..])
    else [xs[0]] + NonEmpty(xs[1..])
  }

  function StoryCandidates(ny: string): seq<string> {
    NonEmpty(RawCandidates(ny))
  }

  /** For a normalised label the fifth candidate is always filtered out:
      the list is the three tone variants, then the long alias for "2022-23". */
  lemma CandidatesOfNormalized(year: string)
    ensures var ny := NormalizeYearForId(year);
      StoryCandidates(ny)
      == ["story-" + ny, "story-" + ny + "-green", "story-" + ny + "-red"]
         + (if ny == "2022-23" then ["story-2022-2023"] else [])
  {
    var ny := NormalizeYearForId(year);
    var raw := RawCandidates(ny);
    NonEmptyOfFive(raw[0], raw[1], raw[2], raw[3], raw[4]);
    assert raw == [raw[0], raw[1], raw[2], raw[3], raw[4]];
  }

  /** Filtering five strings of which the first three are non-empty and the
      last is empty. */
  lemma NonEmptyOfFive(a: string, b: string, c: string, d: string, e: string)
    requires a != "" && b != "" && c != "" && e == ""
    ensures NonEmpty([a, b, c, d, e]) == [a, b, c] + (if d == "" then [] else [d])
  {
    assert [e][1..] == [];
    assert NonEmpty([e]) == [];
    assert [d, e][1..] == [e];
    assert NonEmpty([d, e]) == if d == "" then [] else [d];
    assert [c, d, e][1..] == [d, e];
    assert NonEmpty([c, d, e]) == [c] + NonEmpty([d, e]);
    assert [b, c, d, e][1..] == [c, d, e];
    assert NonEmpty([b, c, d, e]) == [b] + NonEmpty([c, d, e]);
    assert [a, b, c, d, e][1..] == [b, c, d, e];
  }

  /** `id` is the candidate at position `i`, it is in the document, and no
      earlier candidate is. */
  ghost predicate FirstPresentAt(cands: seq<string>, doc: set<string>, i: nat, id: string) {
    && i < |cands|
    && cands[i] == id
    && id in doc
    && forall j :: 0 <= j < i ==> cands[j] !in doc
  }

  /** The loop over the candidates: the first one `getElementById` finds. */
  function FirstPresent(cands: seq<string>, doc: set<string>): (r: Option<string>)
    ensures r.None? <==> forall i :: 0 <= i < |cands| ==> cands[i] !in doc
    ensures r.Some? ==> exists i :: FirstPresentAt(cands, doc, i, r.value)
  {
    if cands == [] then None
    else if cands[0] in doc then
      assert FirstPresentAt(cands, doc, 0, cands[0]);
      Some(cands[0])
    else
      var r := FirstPresent(cands[1..], doc);
      assert r.None? ==> forall i :: 0 <= i < |cands| ==> cands[i] !in doc by {
        if r.None? {
          forall i | 0 <= i < |cands| ensures cands[i] !in doc {
            if i > 0 { assert cands[i] == cands[1..][i - 1]; }
          }
        }
      }
      assert r.Some? ==> exists i :: FirstPresentAt(cands, doc, i, r.value) by {
        if r.Some? {
          var i: nat :| FirstPresentAt(cands[1..], doc, i, r.value);
          assert cands[i + 1] == cands[1..][i];
          assert FirstPresentAt(cands, doc, i + 1, r.value);
        }
      }
      r
  }

  /** `resolveStoryId`: the first candidate id of the year present in the document. */
  function ResolveStoryId(year: string, doc: set<string>): (r: Option<string>)
    ensures r.Some? ==> r.value in doc && r.value in StoryCandidates(NormalizeYearForId(year))
    ensures r.None? <==> forall id :: id in StoryCandidates(NormalizeYearForId(year)) ==> id !in doc
  {
    var cands := StoryCandidates(NormalizeYearForId(year));
    var r := FirstPresent(cands, doc);
    assert r.Some? ==> r.value in cands by {
      if r.Some? {
        var i :| FirstPresentAt(cands, doc, i, r.value);
      }
    }
    r
  }

  /** `hasStoryForYear`: some candidate id of the year is in the document. */
  predicate HasStoryForYear(year: string, doc: set<string>) {
    ResolveStoryId(year, doc).Some?
  }

  /** A year has a story exactly when one of its candidate ids is in the document. */
  lemma HasStoryIff(year: string, doc: set<string>)
    ensures HasStoryForYear(year, doc) <==> exists id :: id in StoryCandidates(NormalizeYearForId(year)) && id in doc
  {
  }

  /** The fallback priority written out as a decision chain over the
      normalised label: plain id, green, red, then the long alias. */
  function ResolveChain(ny: string, doc: set<string>): Option<string> {
    if "story-" + ny in doc then Some("story-" + ny)
    else if "story-" + ny + "-green" in doc then Some("story-" + ny + "-green")
    else if "story-" + ny + "-red" in doc then Some("story-" + ny + "-red")
    else if ny == "2022-23" && "story-2022-2023" in doc then Some("story-2022-2023")
    else None
  }

  /** The candidate loop implements the decision chain for every label and document. */
  lemma ResolveMatchesChain(year: string, doc: set<string>)
    ensures ResolveStoryId(year, doc) == ResolveChain(NormalizeYearForId(year), doc)
  {
    var ny := NormalizeYearForId(year);
    CandidatesOfNormalized(year);
    var tail := if ny == "2022-23" then ["story-2022-2023"] else [];
    FirstPresentOfFour("story-" + ny, "story-" + ny + "-green", "story-" + ny + "-red", tail, doc);
  }

  /** The candidate loop over three ids and an optional fourth. */
  lemma FirstPresentOfFour(a: string, b: string, c: string, tail: seq<string>, doc: set<string>)
    requires |tail| <= 1
    ensures FirstPresent([a, b, c] + tail, doc)
      == if a in doc then Some(a) else if b in doc then Some(b) else if c in doc then Some(c)
         else if |tail| == 1 && tail[0] in doc then Some(tail[0]) else None
  {
    var xs := [a, b, c] + tail;
    FirstPresentStep(xs, doc);
    assert xs[1..] == [b, c] + tail;
    FirstPresentStep(xs[1..], doc);
    assert xs[1..][1..] == [c] + tail;
    FirstPresentStep(xs[1..][1..], doc);
    assert xs[1..][1..][1..] == tail;
    if |tail| == 1 {
      FirstPresentStep(tail, doc);
      assert tail[1..] == [];
    }
  }

  /** One turn of the candidate loop. */
  lemma FirstPresentStep(cands: seq<string>, doc: set<string>)
    requires cands != []
    ensures FirstPresent(cands, doc)
      == if cands[0] in doc then Some(cands[0]) else FirstPresent(cands[1..], doc)
  {
  }

  /** What a click or tap asks of the page: nothing, or scrolling to the
      element with this id and writing `#id` into the address bar. */
  datatype Effect = Stay | Navigate(id: string)

  /** `scrollToStory`: navigate to the resolved section, or do nothing. */
  function ScrollToStory(year: string, doc: set<string>): (e: Effect)
    ensures e.Navigate? <==> HasStoryForYear(year, doc)
    ensures e.Navigate? ==> ResolveStoryId(year, doc) == Some(e.id) && e.id in doc
  {
    match ResolveStoryId(year, doc)
    case None => Stay
    case Some(id) => if id in doc then Navigate(id) else Stay
  }
}
