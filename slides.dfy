/**
 * PPTXService of backend/app/services/pptx_service.py: reading the text of a
 * slide deck, slide by slide, and rendering it as the slide-deck part of a
 * tutoring prompt.  A presentation is the sequence of its slides, each slide
 * the sequence of its shapes; python-pptx itself is not modelled.
 */
module Slides {
  import opened Text

  /** A shape with a `text` attribute (text box, placeholder, auto shape), or one
      without (picture, table, chart, group). */
  datatype Shape = TextShape(text: string) | OtherShape

  /** A .pptx file as python-pptx opens it: its slides in presentation order, or
      a file that `Presentation(path)` cannot open. */
  datatype PptxFile = Pptx(slides: seq<seq<Shape>>) | Unreadable

  /** One item of the extraction result: `{"slide_number": n, "content": text}`. */
  datatype SlideContent = SlideContent(slideNumber: int, content: string)

  /** The exception `extract_text_from_pptx` re-raises. */
  datatype ExtractError = CannotOpen

  /** A shape takes part in the slide's text when it has text that is not blank. */
  predicate Contributes(shape: Shape) {
    shape.TextShape? && Strip(shape.text) != ""
  }

  /** The stripped texts of the contributing shapes, in shape order. */
  function ShapeTexts(shapes: seq<Shape>): (r: seq<string>)
    ensures |r| <= |shapes|
    ensures forall k :: 0 <= k < |r| ==> r[k] != "" && IsTrimmed(r[k])
  {
    if shapes == [] then []
    else
      var last := shapes[|shapes| - 1];
      var rest := ShapeTexts(shapes[..|shapes| - 1]);
      if Contributes(last) then
        StripSpec(last.text);
        rest + [Strip(last.text)]
      else rest
  }

  /** The entries `extract_text_from_pptx` produces for the slides numbered
      1 .. |slides|. */
  function SlideEntries(slides: seq<seq<Shape>>): seq<SlideContent>
  {
    if slides == [] then []
    else
      var n := |slides|;
      var texts := ShapeTexts(slides[n - 1]);
      SlideEntries(slides[..n - 1]) + (if texts != [] then [SlideContent(n, Join(texts, "\n"))] else [])
  }

  /** What `extract_text_from_pptx` returns or raises for a file. */
  function Extract(file: PptxFile): Result<seq<SlideContent>, ExtractError>
  {
    match file
    case Unreadable => Err(CannotOpen)
    case Pptx(slides) => Ok(SlideEntries(slides))
  }

  /** `PPTXService.extract_text_from_pptx`. */
  method ExtractTextFromPptx(file: PptxFile) returns (r: Result<seq<SlideContent>, ExtractError>)
    ensures r == Extract(file)
  {
    if file.Unreadable? {
      return Err(CannotOpen);
    }
    var slides := file.slides;
    var contents: seq<SlideContent> := [];
    var idx := 0;
    while idx < |slides|
      invariant 0 <= idx <= |slides|
      invariant contents == SlideEntries(slides[..idx])
    {
      var shapes := slides[idx];
      var slideText: seq<string> := [];
      var j := 0;
      while j < |shapes|
        invariant 0 <= j <= |shapes|
        invariant slideText == ShapeTexts(shapes[..j])
      {
        var shape := shapes[j];
        ShapeTextsStep(shapes, j);
        if shape.TextShape? {
          var text := Strip(shape.text);
          if text != "" {
            slideText := slideText + [text];
          }
        }
        j := j + 1;
      }
      assert shapes[..|shapes|] == shapes;
      EntriesStep(slides, idx);
      if slideText != [] {
        contents := contents + [SlideContent(idx + 1, Join(slideText, "\n"))];
      }
      idx := idx + 1;
    }
    assert slides[..|slides|] == slides;
    r := Ok(contents);
  }

  lemma ShapeTextsStep(shapes: seq<Shape>, j: nat)
    requires j < |shapes|
    ensures ShapeTexts(shapes[..j + 1]) ==
              ShapeTexts(shapes[..j]) + (if Contributes(shapes[j]) then [Strip(shapes[j].text)] else [])
  {
    assert shapes[..j + 1][..j] == shapes[..j];
  }

  lemma EntriesStep(slides: seq<seq<Shape>>, i: nat)
    requires i < |slides|
    ensures var texts := ShapeTexts(slides[i]);
            SlideEntries(slides[..i + 1]) ==
              SlideEntries(slides[..i]) + (if texts != [] then [SlideContent(i + 1, Join(texts, "\n"))] else [])
  {
    assert slides[..i + 1][..i] == slides[..i];
  }

  // ---- properties of the extraction ----

  /** Shape texts are collected slide-piece by slide-piece, keeping shape order. */
  lemma {:induction false} ShapeTextsAppend(a: seq<Shape>, b: seq<Shape>)
    ensures ShapeTexts(a + b) == ShapeTexts(a) + ShapeTexts(b)
    decreases |b|
  {
    if b == [] {
      assert a + b == a;
    } else {
      assert (a + b)[..|a + b| - 1] == a + b[..|b| - 1];
      ShapeTextsAppend(a, b[..|b| - 1]);
    }
  }

  /** A single shape contributes its stripped text exactly when it has non-blank text. */
  lemma ShapeTextsSingle(shape: Shape)
    ensures ShapeTexts([shape]) == if Contributes(shape) then [Strip(shape.text)] else []
  {
    assert [shape][..0] == [];
  }

  /** Slides are numbered from 1 in presentation order; every entry names a real
      slide, and numbers strictly increase (they skip the slides without text). */
  lemma {:induction false} EntriesNumbering(slides: seq<seq<Shape>>)
    ensures |SlideEntries(slides)| <= |slides|
    ensures forall k :: 0 <= k < |SlideEntries(slides)| ==>
              1 <= SlideEntries(slides)[k].slideNumber <= |slides|
    ensures forall k1, k2 :: 0 <= k1 < k2 < |SlideEntries(slides)| ==>
              SlideEntries(slides)[k1].slideNumber < SlideEntries(slides)[k2].slideNumber
  {
    if slides != [] {
      EntriesNumbering(slides[..|slides| - 1]);
    }
  }

  /** The entry numbered n holds the joined shape texts of slide n, which has at
      least one contributing shape. */
  lemma {:induction false} EntriesContent(slides: seq<seq<Shape>>, k: nat)
    requires k < |SlideEntries(slides)|
    ensures var e := SlideEntries(slides)[k];
            && 1 <= e.slideNumber <= |slides|
            && ShapeTexts(slides[e.slideNumber - 1]) != []
            && e.content == Join(ShapeTexts(slides[e.slideNumber - 1]), "\n")
  {
    var n := |slides|;
    var front := slides[..n - 1];
    var e := SlideEntries(slides);
    var ef := SlideEntries(front);
    var texts := ShapeTexts(slides[n - 1]);
    assert e == ef + (if texts != [] then [SlideContent(n, Join(texts, "\n"))] else []);
    if k < |ef| {
      EntriesContent(front, k);
      var m := ef[k].slideNumber;
      assert e[k] == ef[k];
      assert front[m - 1] == slides[m - 1];
    } else {
      assert e[k] == SlideContent(n, Join(texts, "\n"));
    }
  }

  /** Extraction goes slide by slide: the entries of the first m slides come first. */
  lemma {:induction false} EntriesPrefix(slides: seq<seq<Shape>>, m: nat)
    requires m <= |slides|
    ensures SlideEntries(slides[..m]) <= SlideEntries(slides)
    decreases |slides|
  {
    var n := |slides|;
    if m == n {
      assert slides[..m] == slides;
    } else {
      var front := slides[..n - 1];
      assert front[..m] == slides[..m];
      EntriesPrefix(front, m);
    }
  }

  /** Every slide with a contributing shape has its entry, placed after the
      entries of the slides before it. */
  lemma EntriesComplete(slides: seq<seq<Shape>>, i: nat)
    requires i < |slides| && ShapeTexts(slides[i]) != []
    ensures var k := |SlideEntries(slides[..i])|;
            k < |SlideEntries(slides)| &&
            SlideEntries(slides)[k] == SlideContent(i + 1, Join(ShapeTexts(slides[i]), "\n"))
  {
    var upto := slides[..i + 1];
    assert upto[..i] == slides[..i];
    assert upto[i] == slides[i];
    assert SlideEntries(upto) == SlideEntries(slides[..i]) + [SlideContent(i + 1, Join(ShapeTexts(slides[i]), "\n"))];
    EntriesPrefix(slides, i + 1);
  }

  /** A slide without a contributing shape has no entry, though it keeps its number. */
  lemma SlidesWithoutTextOmitted(slides: seq<seq<Shape>>, i: nat)
    requires i < |slides| && ShapeTexts(slides[i]) == []
    ensures forall k :: 0 <= k < |SlideEntries(slides)| ==> SlideEntries(slides)[k].slideNumber != i + 1
  {
    forall k | 0 <= k < |SlideEntries(slides)|
      ensures SlideEntries(slides)[k].slideNumber != i + 1
    {
      EntriesContent(slides, k);
    }
  }

  /** Every extracted content is non-blank and has no white space at either end. */
  lemma EntriesTrimmed(slides: seq<seq<Shape>>, k: nat)
    requires k < |SlideEntries(slides)|
    ensures SlideEntries(slides)[k].content != "" && IsTrimmed(SlideEntries(slides)[k].content)
  {
    EntriesContent(slides, k);
    var e := SlideEntries(slides)[k];
    JoinTrimmedPieces(ShapeTexts(slides[e.slideNumber - 1]), "\n");
  }

  // ---- formatting for the prompt ----

  const DeckTitle: string := "Slide Deck Content:"

  /** `"Slide {n}:\n{content}\n\n"` */
  function SlideBlock(s: SlideContent): string {
    "Slide " + IntToString(s.slideNumber) + ":\n" + s.content + "\n\n"
  }

  /** The text built up before the final `strip()`. */
  function RawFormat(slides: seq<SlideContent>): string
  {
    if slides == [] then DeckTitle + "\n\n"
    else RawFormat(slides[..|slides| - 1]) + SlideBlock(slides[|slides| - 1])
  }

  /** The rendering `format_slides_for_prompt` returns. */
  function FormatSlides(slides: seq<SlideContent>): string
  {
    Strip(RawFormat(slides))
  }

  /** `PPTXService.format_slides_for_prompt`. */
  method FormatSlidesForPrompt(slides: seq<SlideContent>) returns (r: string)
    ensures r == FormatSlides(slides)
  {
    var formatted := DeckTitle + "\n\n";
    var i := 0;
    while i < |slides|
      invariant 0 <= i <= |slides|
      invariant formatted == RawFormat(slides[..i])
    {
      assert slides[..i + 1][..i] == slides[..i];
      formatted := formatted + SlideBlock(slides[i]);
      i := i + 1;
    }
    assert slides[..|slides|] == slides;
    r := Strip(formatted);
  }

  lemma {:induction false} RawFormatStartsWithTitle(slides: seq<SlideContent>)
    ensures DeckTitle + "\n\n" <= RawFormat(slides)
  {
    if slides != [] {
      RawFormatStartsWithTitle(slides[..|slides| - 1]);
    }
  }

  /** The rendering always starts with the title, so it is never empty: the
      slide-aware prompt is chosen even for a deck without any text. */
  lemma FormatStartsWithTitle(slides: seq<SlideContent>)
    ensures DeckTitle <= FormatSlides(slides)
    ensures FormatSlides(slides) != ""
  {
    RawFormatStartsWithTitle(slides);
    TrimmedPrefixSurvivesStrip(DeckTitle, RawFormat(slides));
  }

  /** A deck without text renders as the bare title. */
  lemma FormatNoSlides()
    ensures FormatSlides([]) == DeckTitle
  {
    StripSurrounded("", DeckTitle, "\n\n");
    assert "" + DeckTitle + "\n\n" == RawFormat([]);
  }

  /** Before the final `strip()`, a deck whose last content is visible at its
      end is a trimmed text followed by one blank line. */
  lemma RawFormatEnds(slides: seq<SlideContent>)
    requires slides != []
    requires var c := slides[|slides| - 1].content; c != "" && IsTrimmed(c)
    ensures var raw := RawFormat(slides);
            && |raw| >= 2 && raw == raw[..|raw| - 2] + "\n\n"
            && raw[..|raw| - 2] != [] && IsTrimmed(raw[..|raw| - 2])
  {
    var last := slides[|slides| - 1];
    var c := last.content;
    var prev := RawFormat(slides[..|slides| - 1]);
    var u := prev + ("Slide " + IntToString(last.slideNumber) + ":\n") + c;
    var raw := RawFormat(slides);
    RawFormatStartsWithTitle(slides[..|slides| - 1]);
    assert raw == u + "\n\n";
    assert u[0] == prev[0] == 'S';
    assert u[|u| - 1] == c[|c| - 1];
    assert raw[..|raw| - 2] == u;
  }

  /** When the last content ends in a visible character (as every extracted
      content does), `strip()` only removes the final blank line. */
  lemma FormatDropsFinalBlankLine(slides: seq<SlideContent>)
    requires slides != []
    requires var c := slides[|slides| - 1].content; c != "" && IsTrimmed(c)
    ensures var raw := RawFormat(slides);
            |raw| >= 2 && FormatSlides(slides) == raw[..|raw| - 2]
  {
    var raw := RawFormat(slides);
    RawFormatEnds(slides);
    StripBlankSuffix(raw[..|raw| - 2], "\n\n");
  }
}
