/** `AirlineLoyaltyToolsService`: the text of two programme brochures is read once at start-up
    (each document's pages joined with blank lines) and three tools answer from it. A tool
    returns a fixed "unavailable" sentence when the text it needs is empty, and otherwise the
    text framed by a heading and the programme's web address. */
module LoyaltyTools {
  import opened Wrappers
  import opened Jvm
  import opened Text

  // ---------------------------------------------------------------------------
  // Loading the brochures
  // ---------------------------------------------------------------------------

  /** A page's text; a page without text contributes nothing (`it.text ?: ""`). */
  function PageText(page: Option<string>): string {
    page.GetOr("")
  }

  /** `joinToString("\n\n") { it.text ?: "" }` over the one-page documents of a brochure. */
  function JoinPages(pages: seq<Option<string>>): (r: string)
    ensures r == "" <==> |pages| == 0 || (|pages| == 1 && PageText(pages[0]) == "")
    decreases |pages|
  {
    if |pages| == 0 then ""
    else if |pages| == 1 then PageText(pages[0])
    else PageText(pages[0]) + "\n\n" + JoinPages(pages[1..])
  }

  /** Where page `i` starts in the joined text: the pages before it and one separator after
      each. */
  function PageOffset(pages: seq<Option<string>>, i: nat): nat
    requires i <= |pages|
    decreases i
  {
    if i == 0 then 0 else PageOffset(pages, i - 1) + |PageText(pages[i - 1])| + 2
  }

  /** Every page's text appears in the joined text at its offset. */
  lemma {:induction false} PageAt(pages: seq<Option<string>>, i: nat)
    requires i < |pages|
    ensures PageOffset(pages, i) + |PageText(pages[i])| <= |JoinPages(pages)|
    ensures JoinPages(pages)[PageOffset(pages, i)..PageOffset(pages, i) + |PageText(pages[i])|] == PageText(pages[i])
    decreases i
  {
    var head := PageText(pages[0]);
    var r := JoinPages(pages);
    if |pages| == 1 || i == 0 {
      assert |pages| > 1 ==> r == head + ("\n\n" + JoinPages(pages[1..]));
      assert r[..|head|] == head;
    } else {
      var rest := pages[1..];
      PageAt(rest, i - 1);
      RestOffset(pages, i);
      assert pages[i] == rest[i - 1];
      SliceAfterSeparator(head, JoinPages(rest), PageOffset(rest, i - 1), |PageText(pages[i])|);
    }
  }

  /** A slice of the text after `head` and a two-character separator. */
  lemma SliceAfterSeparator(head: string, tail: string, o: nat, n: nat)
    requires o + n <= |tail|
    ensures var r := head + "\n\n" + tail;
      |head| + 2 + o + n <= |r| && r[|head| + 2 + o..|head| + 2 + o + n] == tail[o..o + n]
  {
    var r := head + "\n\n" + tail;
    assert r[|head| + 2..] == tail;
  }

  /** The joined text is as long as the pages plus one separator between each two. */
  lemma {:induction false} JoinPagesLength(pages: seq<Option<string>>)
    requires |pages| >= 1
    ensures |JoinPages(pages)| + 2 == PageOffset(pages, |pages|)
    decreases |pages|
  {
    if |pages| > 1 {
      JoinPagesLength(pages[1..]);
      RestOffset(pages, |pages|);
    }
  }

  /** Offsets in a brochure are the offsets in its tail shifted by the first page. */
  lemma {:induction false} RestOffset(pages: seq<Option<string>>, i: nat)
    requires 1 <= i <= |pages|
    ensures PageOffset(pages, i) == |PageText(pages[0])| + 2 + PageOffset(pages[1..], i - 1)
    decreases i
  {
    if i > 1 {
      RestOffset(pages, i - 1);
      assert pages[i - 1] == pages[1..][i - 2];
    }
  }

  /** The text of both brochures. */
  datatype Content = Content(delta: string, united: string)

  /** The two brochures, in the order they are read. */
  datatype Brochure = DeltaBrochure | UnitedBrochure

  /** The outcome of loading and the brochures actually read. */
  datatype Loaded = Loaded(result: Result<Content, Exception>, readings: seq<Brochure>)

  /** `loadPdfContent`: the Delta brochure is read first; an exception from either read is
      rethrown, so start-up fails and no tool ever answers. */
  function LoadContent(read: Brochure -> Result<seq<Option<string>>, Exception>): (l: Loaded)
    ensures l.result.Ok? <==> read(DeltaBrochure).Ok? && read(UnitedBrochure).Ok?
    ensures read(DeltaBrochure).Err? ==>
      l == Loaded(Err(read(DeltaBrochure).error), [DeltaBrochure])
    ensures read(DeltaBrochure).Ok? ==> l.readings == [DeltaBrochure, UnitedBrochure]
    ensures read(DeltaBrochure).Ok? && read(UnitedBrochure).Err? ==>
      l.result == Err(read(UnitedBrochure).error)
    ensures l.result.Ok? ==>
      l.result.value == Content(JoinPages(read(DeltaBrochure).value), JoinPages(read(UnitedBrochure).value))
  {
    match read(DeltaBrochure)
    case Err(e) => Loaded(Err(e), [DeltaBrochure])
    case Ok(deltaPages) =>
      match read(UnitedBrochure)
      case Err(e) => Loaded(Err(e), [DeltaBrochure, UnitedBrochure])
      case Ok(unitedPages) =>
        Loaded(Ok(Content(JoinPages(deltaPages), JoinPages(unitedPages))), [DeltaBrochure, UnitedBrochure])
  }

  // ---------------------------------------------------------------------------
  // The fixed texts
  // ---------------------------------------------------------------------------

  const DeltaProgram: string := "Delta SkyMiles Medallion"
  const UnitedProgram: string := "United MileagePlus Premier"

  const DeltaUrl: string := "https://www.delta.com" + "/us/en/skymiles" + "/medallion-program" + "/qualify-for-status"
  const UnitedUrl: string := "https://www.united.com" + "/en/us/fly" + "/mileageplus/premier" + "/qualify.html"

  const UnavailableEnd: string := " qualification information" + " is currently unavailable."
  const DeltaUnavailable: string := DeltaProgram + UnavailableEnd
  const UnitedUnavailable: string := UnitedProgram + UnavailableEnd
  const ComparisonUnavailable: string := "Airline program comparison" + " information" + " is currently unavailable."

  const HeadingEnd: string := " Status Qualification Information:"
  const DeltaHeading: string := DeltaProgram + HeadingEnd
  const UnitedHeading: string := UnitedProgram + HeadingEnd
  const ComparisonHeading: string := "Comparison of " + DeltaProgram + " and " + UnitedProgram + " Programs:"
  const DeltaBanner: string := "=== DELTA SKYMILES MEDALLION ==="
  const UnitedBanner: string := "=== UNITED MILEAGEPLUS PREMIER ==="

  const DeltaSource: string := "Source: " + DeltaUrl
  const UnitedSource: string := "Source: " + UnitedUrl
  const SourcesLabel: string := "Sources:"
  const DeltaSourceItem: string := "- Delta: " + DeltaUrl
  const UnitedSourceItem: string := "- United: " + UnitedUrl

  // ---------------------------------------------------------------------------
  // The answers as the raw-string templates are written
  // ---------------------------------------------------------------------------

  /** The lines of a single-programme answer's template, the content interpolated on the
      third. */
  function ProgramTemplate(heading: string, content: string, source: string): seq<string> {
    [heading, "", content, "", source]
  }

  /** The lines of the comparison's template, the contents interpolated on the fourth and
      seventh. */
  function ComparisonTemplate(delta: string, united: string): seq<string> {
    [ComparisonHeading, "", DeltaBanner, delta, "", UnitedBanner, united, "", SourcesLabel,
     DeltaSourceItem, UnitedSourceItem]
  }

  /** `getDeltaMedallionQualification` as written: the content is interpolated into the raw
      string and only then is `trimIndent()` applied. Whatever the content, the framed answer
      spans several lines, so it is never mistaken for the one-line unavailable sentence. */
  function DeltaQualificationAsWritten(c: Content): (r: string)
    ensures r == DeltaUnavailable <==> c.delta == ""
  {
    if c.delta == "" then DeltaUnavailable
    else
      AnswersAsWrittenAreNotUnavailable(c);
      TrimIndent(RawString(ProgramTemplate(DeltaHeading, c.delta, DeltaSource)))
  }

  /** `getUnitedPremierQualification` as written. */
  function UnitedQualificationAsWritten(c: Content): (r: string)
    ensures r == UnitedUnavailable <==> c.united == ""
  {
    if c.united == "" then UnitedUnavailable
    else
      AnswersAsWrittenAreNotUnavailable(c);
      TrimIndent(RawString(ProgramTemplate(UnitedHeading, c.united, UnitedSource)))
  }

  /** `compareAirlinePrograms` as written. */
  function CompareProgramsAsWritten(c: Content): (r: string)
    ensures r == ComparisonUnavailable <==> c.delta == "" || c.united == ""
  {
    if c.delta == "" || c.united == "" then ComparisonUnavailable
    else
      AnswersAsWrittenAreNotUnavailable(c);
      TrimIndent(RawString(ComparisonTemplate(c.delta, c.united)))
  }

  /** The unavailable sentences are single lines. */
  lemma UnavailableHasNoBreaks()
    ensures NoBreaks(DeltaUnavailable) && NoBreaks(UnitedUnavailable) && NoBreaks(ComparisonUnavailable)
  {
    ProgramNamesHaveNoBreaks();
    NoBreaksConcat(" qualification information", " is currently unavailable.");
    NoBreaksConcat(DeltaProgram, UnavailableEnd);
    NoBreaksConcat(UnitedProgram, UnavailableEnd);
    NoBreaksConcat(" information", " is currently unavailable.");
    NoBreaksConcat("Airline program comparison", " information" + " is currently unavailable.");
  }

  /** A template whose first two lines are single lines never trims to a one-line text. */
  lemma TemplateIsNotLine(body: seq<string>, line: string)
    requires |body| >= 2 && NoBreaks(body[0]) && NoBreaks(body[1]) && NoBreaks(line)
    ensures TrimIndent(RawString(body)) != line
  {
    TrimIndentOfRawStringHasBreak(body);
  }

  /** Whatever the brochure texts, each framed answer spans several lines and so differs from
      the one-line unavailable sentence. */
  lemma AnswersAsWrittenAreNotUnavailable(c: Content)
    ensures TrimIndent(RawString(ProgramTemplate(DeltaHeading, c.delta, DeltaSource))) != DeltaUnavailable
    ensures TrimIndent(RawString(ProgramTemplate(UnitedHeading, c.united, UnitedSource))) != UnitedUnavailable
    ensures TrimIndent(RawString(ComparisonTemplate(c.delta, c.united))) != ComparisonUnavailable
  {
    DeltaAnswerIsNotUnavailable(c.delta);
    UnitedAnswerIsNotUnavailable(c.united);
    ComparisonAnswerIsNotUnavailable(c.delta, c.united);
  }

  lemma DeltaAnswerIsNotUnavailable(content: string)
    ensures TrimIndent(RawString(ProgramTemplate(DeltaHeading, content, DeltaSource))) != DeltaUnavailable
  {
    var t := ProgramTemplate(DeltaHeading, content, DeltaSource);
    assert NoBreaks(t[0]) by { FixedLinesHaveNoBreaks(); }
    assert NoBreaks(DeltaUnavailable) by { UnavailableHasNoBreaks(); }
    TemplateIsNotLine(t, DeltaUnavailable);
  }

  lemma UnitedAnswerIsNotUnavailable(content: string)
    ensures TrimIndent(RawString(ProgramTemplate(UnitedHeading, content, UnitedSource))) != UnitedUnavailable
  {
    var t := ProgramTemplate(UnitedHeading, content, UnitedSource);
    assert NoBreaks(t[0]) by { FixedLinesHaveNoBreaks(); }
    assert NoBreaks(UnitedUnavailable) by { UnavailableHasNoBreaks(); }
    TemplateIsNotLine(t, UnitedUnavailable);
  }

  lemma ComparisonAnswerIsNotUnavailable(delta: string, united: string)
    ensures TrimIndent(RawString(ComparisonTemplate(delta, united))) != ComparisonUnavailable
  {
    var t := ComparisonTemplate(delta, united);
    assert NoBreaks(t[0]) by { FixedLinesHaveNoBreaks(); }
    assert t[1] == "";
    assert NoBreaks(ComparisonUnavailable) by { UnavailableHasNoBreaks(); }
    TemplateIsNotLine(t, ComparisonUnavailable);
  }

  // ---------------------------------------------------------------------------
  // The answers as intended: the template's lines at column 0, the content verbatim
  // ---------------------------------------------------------------------------

  /** A heading, a blank line, the content, a blank line and the source line. */
  function ProgramText(heading: string, content: string, source: string): string {
    heading + "\n\n" + content + "\n\n" + source
  }

  /** A banner with its programme's text on the following lines. */
  function Section(banner: string, content: string): string {
    banner + "\n" + content
  }

  /** The closing list of both addresses. */
  const SourcesList: string := SourcesLabel + "\n" + DeltaSourceItem + "\n" + UnitedSourceItem

  /** The comparison: the heading, Delta's section, United's section and the addresses,
      separated by blank lines. */
  function ComparisonText(delta: string, united: string): string {
    ComparisonHeading + "\n\n" + Section(DeltaBanner, delta) + "\n\n" + Section(UnitedBanner, united)
      + "\n\n" + SourcesList
  }

  /** `t` occurs in `s` starting at `i`. */
  predicate OccursAt(s: string, t: string, i: int) {
    0 <= i && i + |t| <= |s| && s[i..i + |t|] == t
  }

  /** `a` occurs in `s`, and `b` occurs after it. */
  ghost predicate InOrder(s: string, a: string, b: string) {
    exists i, j :: OccursAt(s, a, i) && OccursAt(s, b, j) && i + |a| <= j
  }

  lemma OccursBetween(p: string, t: string, q: string)
    ensures OccursAt(p + t + q, t, |p|)
  {
    assert (p + t + q)[|p|..|p| + |t|] == t;
  }

  /** `a` then `b`, with `m` between them and anything around them, occur in order. */
  lemma InOrderBetween(p: string, a: string, m: string, b: string, q: string)
    ensures InOrder(p + a + m + b + q, a, b)
  {
    var s := p + a + m + b + q;
    assert s == p + a + (m + b + q);
    OccursBetween(p, a, m + b + q);
    assert s == (p + a + m) + b + q;
    OccursBetween(p + a + m, b, q);
  }

  /** The content a single-programme answer carries, if `r` is one. */
  function ProgramContentOf(heading: string, source: string, r: string): Option<string> {
    var lo := |heading| + 2;
    var hi := |r| - 2 - |source|;
    if lo <= hi && r[..lo] == heading + "\n\n" && r[hi..] == "\n\n" + source then Some(r[lo..hi])
    else None
  }

  /** The content can be read back out of the answer, whatever characters it holds. */
  lemma ProgramTextRoundTrip(heading: string, content: string, source: string)
    ensures ProgramContentOf(heading, source, ProgramText(heading, content, source)) == Some(content)
  {
    var r := ProgramText(heading, content, source);
    var p, q := heading + "\n\n", "\n\n" + source;
    assert r == p + content + q;
    assert r[..|p|] == p;
    assert r[|p|..|r| - |q|] == content;
    assert r[|r| - |q|..] == q;
  }

  /** The content comes before the programme's address. */
  lemma ProgramTextInOrder(heading: string, content: string, url: string)
    ensures InOrder(ProgramText(heading, content, "Source: " + url), content, url)
  {
    var r := ProgramText(heading, content, "Source: " + url);
    assert r == heading + "\n\n" + content + "\n\nSource: " + url + "";
    InOrderBetween(heading + "\n\n", content, "\n\nSource: ", url, "");
  }

  /** `getDeltaMedallionQualification`: the unavailable sentence exactly when there is no
      Delta text, otherwise the text followed by Delta's address. */
  function DeltaQualification(c: Content): (r: string)
    ensures r == DeltaUnavailable <==> c.delta == ""
    ensures c.delta != "" ==> InOrder(r, c.delta, DeltaUrl)
  {
    if c.delta == "" then DeltaUnavailable
    else
      ProgramTextInOrder(DeltaHeading, c.delta, DeltaUrl);
      ProgramText(DeltaHeading, c.delta, DeltaSource)
  }

  /** `getUnitedPremierQualification`: as for Delta, with United's text and address. */
  function UnitedQualification(c: Content): (r: string)
    ensures r == UnitedUnavailable <==> c.united == ""
    ensures c.united != "" ==> InOrder(r, c.united, UnitedUrl)
  {
    if c.united == "" then UnitedUnavailable
    else
      ProgramTextInOrder(UnitedHeading, c.united, UnitedUrl);
      ProgramText(UnitedHeading, c.united, UnitedSource)
  }

  /** Each single-programme answer gives back exactly the text it was built from, and the
      unavailable sentence gives back none. */
  lemma QualificationRoundTrip(c: Content)
    ensures ProgramContentOf(DeltaHeading, DeltaSource, DeltaQualification(c))
      == if c.delta == "" then None else Some(c.delta)
    ensures ProgramContentOf(UnitedHeading, UnitedSource, UnitedQualification(c))
      == if c.united == "" then None else Some(c.united)
  {
    ProgramTextRoundTrip(DeltaHeading, c.delta, DeltaSource);
    ProgramTextRoundTrip(UnitedHeading, c.united, UnitedSource);
  }

  /** In four paragraphs, the second comes before the third. */
  lemma ParagraphsInOrder(h: string, d: string, u: string, t: string)
    ensures InOrder(h + "\n\n" + d + "\n\n" + u + "\n\n" + t, d, u)
  {
    assert h + "\n\n" + d + "\n\n" + u + "\n\n" + t == (h + "\n\n") + d + "\n\n" + u + ("\n\n" + t);
    InOrderBetween(h + "\n\n", d, "\n\n", u, "\n\n" + t);
  }

  /** Delta's section, banner and text, comes before United's. */
  lemma ComparisonTextInOrder(delta: string, united: string)
    ensures InOrder(ComparisonText(delta, united), Section(DeltaBanner, delta), Section(UnitedBanner, united))
  {
    ParagraphsInOrder(ComparisonHeading, Section(DeltaBanner, delta), Section(UnitedBanner, united), SourcesList);
  }

  /** `compareAirlinePrograms`: the unavailable sentence exactly when either text is missing,
      otherwise Delta's section before United's. */
  function ComparePrograms(c: Content): (r: string)
    ensures r == ComparisonUnavailable <==> c.delta == "" || c.united == ""
    ensures c.delta != "" && c.united != "" ==>
      InOrder(r, Section(DeltaBanner, c.delta), Section(UnitedBanner, c.united))
  {
    if c.delta == "" || c.united == "" then ComparisonUnavailable
    else
      ComparisonTextInOrder(c.delta, c.united);
      ComparisonText(c.delta, c.united)
  }

  /** The comparison is unavailable exactly when one of the single-programme answers is. */
  lemma ComparisonNeedsBoth(c: Content)
    ensures ComparePrograms(c) == ComparisonUnavailable <==>
      (DeltaQualification(c) == DeltaUnavailable || UnitedQualification(c) == UnitedUnavailable)
  {
  }

  // ---------------------------------------------------------------------------
  // Where the two agree, and where they do not
  // ---------------------------------------------------------------------------

  lemma ProgramNamesHaveNoBreaks()
    ensures NoBreaks(DeltaProgram) && NoBreaks(UnitedProgram) && NoBreaks(HeadingEnd)
  {
  }

  lemma DeltaUrlHasNoBreaks()
    ensures NoBreaks(DeltaUrl)
  {
    NoBreaksConcat("https://www.delta.com", "/us/en/skymiles");
    NoBreaksConcat("https://www.delta.com" + "/us/en/skymiles", "/medallion-program");
    NoBreaksConcat("https://www.delta.com" + "/us/en/skymiles" + "/medallion-program", "/qualify-for-status");
  }

  lemma UnitedUrlHasNoBreaks()
    ensures NoBreaks(UnitedUrl)
  {
    NoBreaksConcat("https://www.united.com", "/en/us/fly");
    NoBreaksConcat("https://www.united.com" + "/en/us/fly", "/mileageplus/premier");
    NoBreaksConcat("https://www.united.com" + "/en/us/fly" + "/mileageplus/premier", "/qualify.html");
  }

  lemma UrlsHaveNoBreaks()
    ensures NoBreaks(DeltaUrl) && NoBreaks(UnitedUrl)
  {
    DeltaUrlHasNoBreaks();
    UnitedUrlHasNoBreaks();
  }

  lemma BannersHaveNoBreaks()
    ensures NoBreaks(DeltaBanner) && NoBreaks(UnitedBanner)
  {
  }

  /** Every fixed line of the templates is a single line, and each heading starts at the
      margin. */
  lemma FixedLinesHaveNoBreaks()
    ensures NoBreaks(DeltaHeading) && NoBreaks(UnitedHeading) && NoBreaks(ComparisonHeading)
    ensures NoBreaks(DeltaBanner) && NoBreaks(UnitedBanner) && NoBreaks(SourcesLabel)
    ensures NoBreaks(DeltaSource) && NoBreaks(UnitedSource)
    ensures NoBreaks(DeltaSourceItem) && NoBreaks(UnitedSourceItem)
    ensures !IsWhitespace(DeltaHeading[0]) && !IsWhitespace(UnitedHeading[0])
    ensures !IsWhitespace(ComparisonHeading[0])
  {
    ProgramNamesHaveNoBreaks();
    UrlsHaveNoBreaks();
    BannersHaveNoBreaks();
    NoBreaksConcat(DeltaProgram, HeadingEnd);
    NoBreaksConcat(UnitedProgram, HeadingEnd);
    NoBreaksConcat("Comparison of ", DeltaProgram);
    NoBreaksConcat("Comparison of " + DeltaProgram, " and ");
    NoBreaksConcat("Comparison of " + DeltaProgram + " and ", UnitedProgram);
    NoBreaksConcat("Comparison of " + DeltaProgram + " and " + UnitedProgram, " Programs:");
    NoBreaksConcat("Source: ", DeltaUrl);
    NoBreaksConcat("Source: ", UnitedUrl);
    NoBreaksConcat("- Delta: ", DeltaUrl);
    NoBreaksConcat("- United: ", UnitedUrl);
    assert DeltaHeading[0] == DeltaProgram[0] == 'D';
    assert UnitedHeading[0] == UnitedProgram[0] == 'U';
    assert ComparisonHeading[0] == 'C';
  }

  /** Joining a single-programme template's lines gives the intended answer. */
  lemma JoinProgramTemplate(heading: string, content: string, source: string)
    ensures JoinLines(ProgramTemplate(heading, content, source)) == ProgramText(heading, content, source)
  {
    var t := ProgramTemplate(heading, content, source);
    assert t == [heading, ""] + [content, "", source];
    JoinLinesAppend([heading, ""], [content, "", source]);
    JoinTwo(heading, "");
    JoinThree(content, "", source);
    var x, y := heading + "\n" + "", content + "\n" + "" + "\n" + source;
    assert x == heading + "\n";
    assert y == content + "\n\n" + source;
    assert x + "\n" + y == heading + "\n\n" + content + "\n\n" + source;
  }

  /** Four runs of lines joined one after the other. */
  lemma JoinFourRuns(a: seq<string>, b: seq<string>, c: seq<string>, d: seq<string>)
    requires |a| >= 1 && |b| >= 1 && |c| >= 1 && |d| >= 1
    ensures JoinLines(a + (b + (c + d)))
         == JoinLines(a) + "\n" + (JoinLines(b) + "\n" + (JoinLines(c) + "\n" + JoinLines(d)))
  {
    JoinLinesAppend(a, b + (c + d));
    JoinLinesAppend(b, c + d);
    JoinLinesAppend(c, d);
  }

  /** Paragraphs separated by blank lines, regrouped. */
  lemma ParagraphsRegrouped(h: string, x: string, y: string, z: string)
    ensures (h + "\n") + "\n" + (x + "\n" + (("\n" + y) + "\n" + ("\n" + z)))
         == h + "\n\n" + x + "\n\n" + y + "\n\n" + z
  {
  }

  /** Joining eleven lines laid out as the comparison template: four paragraphs. */
  lemma JoinComparisonLines(h: string, db: string, d: string, ub: string, u: string,
                            sl: string, di: string, ui: string)
    ensures JoinLines([h, "", db, d, "", ub, u, "", sl, di, ui])
         == h + "\n\n" + (db + "\n" + d) + "\n\n" + (ub + "\n" + u) + "\n\n" + (sl + "\n" + di + "\n" + ui)
  {
    var a := [h, ""];
    var b := [db, d];
    var c := ["", ub, u];
    var e := ["", sl, di, ui];
    assert [h, "", db, d, "", ub, u, "", sl, di, ui] == a + (b + (c + e));
    JoinFourRuns(a, b, c, e);
    JoinTwo(h, "");
    JoinTwo(db, d);
    JoinThree("", ub, u);
    JoinFour("", sl, di, ui);
    ParagraphsRegrouped(h, db + "\n" + d, ub + "\n" + u, sl + "\n" + di + "\n" + ui);
  }

  /** Joining the comparison template's lines gives the intended comparison. */
  lemma JoinComparisonTemplate(delta: string, united: string)
    ensures JoinLines(ComparisonTemplate(delta, united)) == ComparisonText(delta, united)
  {
    JoinComparisonLines(ComparisonHeading, DeltaBanner, delta, UnitedBanner, united,
                        SourcesLabel, DeltaSourceItem, UnitedSourceItem);
  }

  /** With single-line content, `trimIndent()` of a single-programme template is the
      intended answer. */
  lemma ProgramAgrees(heading: string, content: string, source: string)
    requires NoBreaks(heading) && NoBreaks(content) && NoBreaks(source)
    requires |heading| > 0 && !IsWhitespace(heading[0])
    ensures TrimIndent(RawString(ProgramTemplate(heading, content, source))) == ProgramText(heading, content, source)
  {
    var t := ProgramTemplate(heading, content, source);
    assert forall j :: 0 <= j < |t| ==> NoBreaks(t[j]);
    TrimIndentOfRawString(t, 0);
    JoinProgramTemplate(heading, content, source);
  }

  /** With single-line contents, `trimIndent()` of the comparison template is the intended
      comparison. */
  lemma ComparisonAgrees(delta: string, united: string)
    requires NoBreaks(delta) && NoBreaks(united)
    ensures TrimIndent(RawString(ComparisonTemplate(delta, united))) == ComparisonText(delta, united)
  {
    FixedLinesHaveNoBreaks();
    var t := ComparisonTemplate(delta, united);
    assert forall j :: 0 <= j < |t| ==> NoBreaks(t[j]);
    TrimIndentOfRawString(t, 0);
    JoinComparisonTemplate(delta, united);
  }

  /** As long as the brochure texts are single lines, the tools as written answer exactly as
      intended. */
  lemma AsWrittenAgreesOnSingleLines(c: Content)
    requires NoBreaks(c.delta) && NoBreaks(c.united)
    ensures DeltaQualificationAsWritten(c) == DeltaQualification(c)
    ensures UnitedQualificationAsWritten(c) == UnitedQualification(c)
    ensures CompareProgramsAsWritten(c) == ComparePrograms(c)
  {
    FixedLinesHaveNoBreaks();
    ProgramAgrees(DeltaHeading, c.delta, DeltaSource);
    ProgramAgrees(UnitedHeading, c.united, UnitedSource);
    ComparisonAgrees(c.delta, c.united);
  }

  /** An answer as written whose text has a second line in column 0 starts with the
      template's margin rather than with its heading. */
  lemma SplitAnswerStartsWithMargin(a: seq<string>, first: string, second: string, b: seq<string>)
    requires |a| >= 1
    requires forall j :: 0 <= j < |a| ==> NoBreaks(a[j])
    requires forall j :: 0 <= j < |b| ==> NoBreaks(b[j])
    requires NoBreaks(first) && NoBreaks(second) && |second| > 0 && !IsWhitespace(second[0])
    ensures var r := TrimIndent(RawString(a + [first + "\n" + second] + b));
      |Margin + a[0]| <= |r| && r[..|Margin + a[0]|] == Margin + a[0]
  {
    TrimIndentOfSplitLine(a, first, second, b);
    var lines := SplitTemplate(a, first, second, b);
    assert lines[0] == Margin + a[0];
    JoinLinesStartsWith(lines);
  }

  /** A single-programme template whose text has a second line in column 0, as written:
      every line but that second one keeps the 12-column margin. */
  lemma SplitProgramAsWritten(heading: string, source: string, first: string, second: string)
    requires NoBreaks(heading) && NoBreaks(source)
    requires NoBreaks(first) && NoBreaks(second) && |second| > 0 && !IsWhitespace(second[0])
    ensures TrimIndent(RawString(ProgramTemplate(heading, first + "\n" + second, source)))
         == JoinLines([Margin + heading, Margin, Margin + first, second, Margin, Margin + source])
  {
    var a, b := [heading, ""], ["", source];
    assert ProgramTemplate(heading, first + "\n" + second, source) == a + [first + "\n" + second] + b;
    TrimIndentOfSplitLine(a, first, second, b);
    IndentedPair(heading, "", Margin);
    IndentedPair("", source, Margin);
    assert Margin + "" == Margin;
    var lines := [Margin + heading, Margin] + [Margin + first, second] + [Margin, Margin + source];
    assert SplitTemplate(a, first, second, b) == lines;
    assert lines == [Margin + heading, Margin, Margin + first, second, Margin, Margin + source];
  }

  /** A two-line Delta text whose second line starts in column 0: the answer as written keeps
      the 12-column margin on the heading, the blank lines, the text's first line and the
      source line, so it differs from the intended answer. */
  lemma MultiLineDeltaKeepsMargin(c: Content, first: string, second: string)
    requires c.delta == first + "\n" + second
    requires NoBreaks(first) && NoBreaks(second) && |second| > 0 && !IsWhitespace(second[0])
    ensures DeltaQualificationAsWritten(c)
         == JoinLines([Margin + DeltaHeading, Margin, Margin + first, second, Margin, Margin + DeltaSource])
    ensures DeltaQualificationAsWritten(c) != DeltaQualification(c)
  {
    FixedLinesHaveNoBreaks();
    SplitProgramAsWritten(DeltaHeading, DeltaSource, first, second);
    var lines := [Margin + DeltaHeading, Margin, Margin + first, second, Margin, Margin + DeltaSource];
    JoinLinesStartsWith(lines);
    assert DeltaQualificationAsWritten(c)[0] == Margin[0] == ' ';
    assert DeltaQualification(c)[0] == DeltaHeading[0];
  }

  /** The same holds for a two-line United text. */
  lemma MultiLineUnitedKeepsMargin(c: Content, first: string, second: string)
    requires c.united == first + "\n" + second
    requires NoBreaks(first) && NoBreaks(second) && |second| > 0 && !IsWhitespace(second[0])
    ensures UnitedQualificationAsWritten(c)
         == JoinLines([Margin + UnitedHeading, Margin, Margin + first, second, Margin, Margin + UnitedSource])
    ensures UnitedQualificationAsWritten(c) != UnitedQualification(c)
  {
    FixedLinesHaveNoBreaks();
    SplitProgramAsWritten(UnitedHeading, UnitedSource, first, second);
    var lines := [Margin + UnitedHeading, Margin, Margin + first, second, Margin, Margin + UnitedSource];
    JoinLinesStartsWith(lines);
    assert UnitedQualificationAsWritten(c)[0] == Margin[0] == ' ';
    assert UnitedQualification(c)[0] == UnitedHeading[0];
  }

  /** The same holds for the comparison when the Delta text has two lines. */
  lemma MultiLineComparisonKeepsMargin(c: Content, first: string, second: string)
    requires c.delta == first + "\n" + second && c.united != "" && NoBreaks(c.united)
    requires NoBreaks(first) && NoBreaks(second) && |second| > 0 && !IsWhitespace(second[0])
    ensures var r := CompareProgramsAsWritten(c);
      |Margin + ComparisonHeading| <= |r| && r[..|Margin + ComparisonHeading|] == Margin + ComparisonHeading
    ensures CompareProgramsAsWritten(c) != ComparePrograms(c)
  {
    FixedLinesHaveNoBreaks();
    var a := [ComparisonHeading, "", DeltaBanner];
    var b := ["", UnitedBanner, c.united, "", SourcesLabel, DeltaSourceItem, UnitedSourceItem];
    assert ComparisonTemplate(c.delta, c.united) == a + [first + "\n" + second] + b;
    SplitAnswerStartsWithMargin(a, first, second, b);
    assert CompareProgramsAsWritten(c)[0] == Margin[0] == ' ';
    assert ComparePrograms(c)[0] == ComparisonHeading[0];
  }

  /** Cutting `w` columns, at most the margin, from a line behind the margin leaves the rest
      of the margin in front of it. */
  lemma DropBehindMargin(x: string, w: nat)
    requires w <= |Margin|
    ensures Drop(Margin + x, w) == Margin[w..] + x
  {
    if w < |Margin + x| {
      assert (Margin + x)[w..] == Margin[w..] + x;
    }
  }

  /** A single-programme template whose text has an indented second line, as written: the
      common indentation is that line's, so every template line loses only that much of the
      margin, and the second line loses its own indentation. */
  lemma SplitProgramIndented(heading: string, source: string, first: string, second: string, w: nat)
    requires NoBreaks(heading) && NoBreaks(source) && NoBreaks(first) && NoBreaks(second)
    requires w <= |Margin| && !IsBlank(second) && IndentWidth(second) == w
    ensures TrimIndent(RawString(ProgramTemplate(heading, first + "\n" + second, source)))
         == JoinLines([Margin[w..] + heading, Margin[w..], Margin[w..] + first, second[w..],
                       Margin[w..], Margin[w..] + source])
  {
    var a, b := [heading, ""], ["", source];
    assert ProgramTemplate(heading, first + "\n" + second, source) == a + [first + "\n" + second] + b;
    TrimIndentOfIndentedSplitLine(a, first, second, b, w);
    ProgramSplitTemplate(heading, source, first, second);
    DropProgramLines(heading, source, first, second, w);
  }

  /** The program template's lines when the content is split after `first`. */
  lemma ProgramSplitTemplate(heading: string, source: string, first: string, second: string)
    ensures SplitTemplate([heading, ""], first, second, ["", source])
         == [Margin + heading, Margin, Margin + first, second, Margin, Margin + source]
  {
    IndentedPair(heading, "", Margin);
    IndentedPair("", source, Margin);
    assert Margin + "" == Margin;
  }

  /** The template lines, each cut by `w` columns. */
  lemma DropProgramLines(heading: string, source: string, first: string, second: string, w: nat)
    requires w <= |Margin| && w < |second|
    ensures DropEach([Margin + heading, Margin, Margin + first, second, Margin, Margin + source], w)
         == [Margin[w..] + heading, Margin[w..], Margin[w..] + first, second[w..], Margin[w..], Margin[w..] + source]
  {
    DropBehindMargin(heading, w);
    DropBehindMargin("", w);
    DropBehindMargin(first, w);
    DropBehindMargin(source, w);
    assert Margin + "" == Margin && Margin[w..] + "" == Margin[w..];
  }

  /** A two-line Delta text whose second line is indented `w` columns, at most the margin:
      the answer as written keeps only `12 - w` columns of margin on the template lines and
      strips the text's second line of its indentation, so the text no longer appears as it
      was read, and the answer differs from the intended one. */
  lemma IndentedContentLosesIndent(c: Content, first: string, second: string, w: nat)
    requires c.delta == first + "\n" + second && NoBreaks(first) && NoBreaks(second)
    requires 0 < w <= |Margin| && !IsBlank(second) && IndentWidth(second) == w
    ensures DeltaQualificationAsWritten(c)
         == JoinLines([Margin[w..] + DeltaHeading, Margin[w..], Margin[w..] + first, second[w..],
                       Margin[w..], Margin[w..] + DeltaSource])
    ensures second[w..] != second
    ensures w < |Margin| ==> DeltaQualificationAsWritten(c) != DeltaQualification(c)
  {
    FixedLinesHaveNoBreaks();
    SplitProgramIndented(DeltaHeading, DeltaSource, first, second, w);
    var lines := [Margin[w..] + DeltaHeading, Margin[w..], Margin[w..] + first, second[w..],
                  Margin[w..], Margin[w..] + DeltaSource];
    JoinLinesStartsWith(lines);
    if w < |Margin| {
      MarginIsSpaces(w);
      assert DeltaQualificationAsWritten(c)[0] == ' ';
      assert DeltaQualification(c)[0] == DeltaHeading[0];
    }
  }
}
