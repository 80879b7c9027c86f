/**
 * FileConversionService of backend/app/services/conversion_service.py: turning
 * an uploaded text, PDF, Word or image file into a slide deck.  A deck is the
 * sequence of its slides, and what the file readers (the text file object,
 * pdfplumber, python-docx) yield is given as input.
 */
module Conversion {
  import opened Text

  /** Lines, or paragraphs, per generated slide. */
  const ChunkSize: nat := 10

  /** A generated slide: its body placeholder's text, or one picture. */
  datatype SlideBody = TextSlide(text: string) | PictureSlide(imagePath: string)

  // ---- sequence partition ----

  function Flatten<T>(xss: seq<seq<T>>): seq<T>
  {
    if xss == [] then [] else Flatten(xss[..|xss| - 1]) + xss[|xss| - 1]
  }

  /** Consecutive pieces of ChunkSize elements; the last piece may be shorter. */
  function Chunks<T>(xs: seq<T>): seq<seq<T>>
    decreases |xs|
  {
    if xs == [] then []
    else if |xs| <= ChunkSize then [xs]
    else [xs[..ChunkSize]] + Chunks(xs[ChunkSize..])
  }

  lemma {:induction false} FlattenPrepend<T>(x: seq<T>, xss: seq<seq<T>>)
    ensures Flatten([x] + xss) == x + Flatten(xss)
    decreases |xss|
  {
    if xss == [] {
      assert ([x] + xss)[..0] == [];
    } else {
      var ys := [x] + xss;
      assert ys[..|ys| - 1] == [x] + xss[..|xss| - 1];
      FlattenPrepend(x, xss[..|xss| - 1]);
    }
  }

  /** Putting the pieces back together gives the original sequence. */
  lemma {:induction false} ChunksFlatten<T>(xs: seq<T>)
    ensures Flatten(Chunks(xs)) == xs
    decreases |xs|
  {
    if xs == [] {
    } else if |xs| <= ChunkSize {
      assert Flatten([xs]) == Flatten([xs][..0]) + xs;
    } else {
      ChunksFlatten(xs[ChunkSize..]);
      FlattenPrepend(xs[..ChunkSize], Chunks(xs[ChunkSize..]));
    }
  }

  /** There are ceil(|xs| / 10) pieces; each is non-empty, at most 10 long, and
      every piece but the last holds exactly 10 elements. */
  lemma {:induction false} ChunksShape<T>(xs: seq<T>)
    ensures |Chunks(xs)| == (|xs| + ChunkSize - 1) / ChunkSize
    ensures forall k :: 0 <= k < |Chunks(xs)| ==> 0 < |Chunks(xs)[k]| <= ChunkSize
    ensures forall k :: 0 <= k < |Chunks(xs)| - 1 ==> |Chunks(xs)[k]| == ChunkSize
    decreases |xs|
  {
    if |xs| > ChunkSize {
      ChunksShape(xs[ChunkSize..]);
      var c := Chunks(xs);
      assert c == [xs[..ChunkSize]] + Chunks(xs[ChunkSize..]);
      forall k | 0 < k < |c| ensures c[k] == Chunks(xs[ChunkSize..])[k - 1] { }
    }
  }

  /** Piece k is the slice xs[10k .. min(10k + 10, |xs|)]. */
  lemma {:induction false} ChunkAt<T>(xs: seq<T>, k: nat)
    requires k < |Chunks(xs)|
    ensures k * ChunkSize < |xs|
    ensures Chunks(xs)[k] == xs[k * ChunkSize .. if (k + 1) * ChunkSize <= |xs| then (k + 1) * ChunkSize else |xs|]
    decreases |xs|
  {
    if |xs| > ChunkSize && k > 0 {
      var rest := xs[ChunkSize..];
      ChunkAt(rest, k - 1);
      assert Chunks(xs)[k] == Chunks(rest)[k - 1];
      assert (k - 1) * ChunkSize + ChunkSize == k * ChunkSize;
    }
  }

  lemma {:induction false} ChunksAppend<T>(a: seq<T>, b: seq<T>)
    requires |a| % ChunkSize == 0
    ensures Chunks(a + b) == Chunks(a) + Chunks(b)
    decreases |a|
  {
    if a == [] {
      assert a + b == b;
    } else {
      assert |a| >= ChunkSize;
      if |a + b| <= ChunkSize {
        assert b == [] && a + b == a;
      } else {
        assert (a + b)[..ChunkSize] == a[..ChunkSize];
        assert (a + b)[ChunkSize..] == a[ChunkSize..] + b;
        ChunksAppend(a[ChunkSize..], b);
        if |a| == ChunkSize {
          assert a[ChunkSize..] == [] && a[..ChunkSize] == a;
        }
      }
    }
  }

  /** Full pieces followed by a short remainder chunk as they are. */
  lemma {:induction false} ChunksOfFullPieces<T>(done: seq<seq<T>>, rest: seq<T>)
    requires forall k :: 0 <= k < |done| ==> |done[k]| == ChunkSize
    requires |rest| < ChunkSize
    ensures Chunks(Flatten(done) + rest) == done + (if rest == [] then [] else [rest])
    decreases |done|
  {
    if done == [] {
      assert Flatten(done) + rest == rest;
    } else {
      var tail := done[1..];
      assert done == [done[0]] + tail;
      FlattenPrepend(done[0], tail);
      ChunksOfFullPieces(tail, rest);
      var xs := Flatten(done) + rest;
      assert xs == done[0] + (Flatten(tail) + rest);
      if Flatten(tail) + rest == [] {
        assert xs == done[0];
        assert tail == [] by {
          if tail != [] {
            FlattenLength(tail);
          }
        }
      } else {
        assert xs[..ChunkSize] == done[0];
        assert xs[ChunkSize..] == Flatten(tail) + rest;
      }
    }
  }

  lemma {:induction false} FlattenLength<T>(xss: seq<seq<T>>)
    requires xss != []
    ensures |xss[|xss| - 1]| <= |Flatten(xss)|
  {
  }

  // ---- text files ----

  /** Length of the first line of s, its '\n' included. */
  function FirstLineLength(s: string): (n: nat)
    requires s != ""
    ensures 1 <= n <= |s|
    ensures forall i :: 0 <= i < n - 1 ==> s[i] != '\n'
    ensures n < |s| ==> s[n - 1] == '\n'
  {
    if s[0] == '\n' || |s| == 1 then 1 else 1 + FirstLineLength(s[1..])
  }

  /** `f.readlines()` on the decoded text: every line keeps its '\n'; a last
      line without one is kept too. */
  function ReadLines(s: string): (lines: seq<string>)
    decreases |s|
  {
    if s == "" then [] else [s[..FirstLineLength(s)]] + ReadLines(s[FirstLineLength(s)..])
  }

  /** Joining the lines gives back the text. */
  lemma {:induction false} ReadLinesRoundTrip(s: string)
    ensures Join(ReadLines(s), "") == s
    decreases |s|
  {
    if s != "" {
      var n := FirstLineLength(s);
      ReadLinesRoundTrip(s[n..]);
      JoinConcatAppend([s[..n]], ReadLines(s[n..]));
      assert Join([s[..n]], "") == s[..n];
    }
  }

  /** Each line is non-empty, holds '\n' at most as its last character, and
      every line but the last ends with '\n'. */
  lemma {:induction false} ReadLinesShape(s: string)
    ensures forall k :: 0 <= k < |ReadLines(s)| ==> ReadLines(s)[k] != ""
    ensures forall k, i :: 0 <= k < |ReadLines(s)| && 0 <= i < |ReadLines(s)[k]| - 1 ==> ReadLines(s)[k][i] != '\n'
    ensures forall k :: 0 <= k < |ReadLines(s)| - 1 ==>
              var line := ReadLines(s)[k]; line[|line| - 1] == '\n'
    decreases |s|
  {
    if s != "" {
      var n := FirstLineLength(s);
      ReadLinesShape(s[n..]);
      var lines := ReadLines(s);
      assert lines == [s[..n]] + ReadLines(s[n..]);
      forall k | 0 < k < |lines| ensures lines[k] == ReadLines(s[n..])[k - 1] { }
      if |lines| > 1 {
        assert n < |s|;
      }
    }
  }

  /** One text slide per piece, its text the piece joined with sep. */
  function TextSlides(pieces: seq<seq<string>>, sep: string): (r: seq<SlideBody>)
    ensures |r| == |pieces|
    ensures forall k :: 0 <= k < |r| ==> r[k] == TextSlide(Join(pieces[k], sep))
  {
    if pieces == [] then []
    else TextSlides(pieces[..|pieces| - 1], sep) + [TextSlide(Join(pieces[|pieces| - 1], sep))]
  }

  /** The deck `txt_to_pptx` produces from the text of a file. */
  function TextDeck(text: string): seq<SlideBody>
  {
    TextSlides(Chunks(ReadLines(text)), "")
  }

  lemma TextSlidesSnoc(pieces: seq<seq<string>>, piece: seq<string>, sep: string)
    ensures TextSlides(pieces + [piece], sep) == TextSlides(pieces, sep) + [TextSlide(Join(piece, sep))]
  {
    assert (pieces + [piece])[..|pieces|] == pieces;
  }

  /** The next ten lines make the next slide. */
  lemma TextDeckStep(lines: seq<string>, i: nat)
    requires i % ChunkSize == 0 && i < |lines|
    ensures var j := if i + ChunkSize <= |lines| then i + ChunkSize else |lines|;
            TextSlides(Chunks(lines[..j]), "") == TextSlides(Chunks(lines[..i]), "") + [TextSlide(Join(lines[i..j], ""))]
  {
    var j := if i + ChunkSize <= |lines| then i + ChunkSize else |lines|;
    var piece := lines[i..j];
    assert lines[..j] == lines[..i] + piece;
    ChunksAppend(lines[..i], piece);
    assert Chunks(piece) == [piece];
    TextSlidesSnoc(Chunks(lines[..i]), piece, "");
  }

  /** `FileConversionService.txt_to_pptx`: ten lines per slide. */
  method TxtToPptx(text: string, pptxPath: string) returns (path: string, slides: seq<SlideBody>)
    ensures path == pptxPath
    ensures slides == TextDeck(text)
  {
    var lines := ReadLines(text);
    slides := [];
    var i := 0;
    ghost var read := 0;
    while i < |lines|
      invariant i % ChunkSize == 0
      invariant read == if i <= |lines| then i else |lines|
      invariant slides == TextSlides(Chunks(lines[..read]), "")
    {
      var j := if i + ChunkSize <= |lines| then i + ChunkSize else |lines|;
      var content := Join(lines[i..j], "");
      TextDeckStep(lines, i);
      slides := slides + [TextSlide(content)];
      i := i + ChunkSize;
      read := j;
    }
    assert lines[..read] == lines;
    path := pptxPath;
  }

  lemma {:induction false} JoinTextSlides(pieces: seq<seq<string>>)
    ensures Join(SlideTexts(TextSlides(pieces, "")), "") == Join(Flatten(pieces), "")
    decreases |pieces|
  {
    if pieces != [] {
      var front := pieces[..|pieces| - 1];
      var last := pieces[|pieces| - 1];
      JoinTextSlides(front);
      var ts := SlideTexts(TextSlides(pieces, ""));
      assert ts[..|ts| - 1] == SlideTexts(TextSlides(front, ""));
      assert ts == SlideTexts(TextSlides(front, "")) + [Join(last, "")];
      JoinConcatAppend(SlideTexts(TextSlides(front, "")), [Join(last, "")]);
      JoinConcatAppend(Flatten(front), last);
      assert Join([Join(last, "")], "") == Join(last, "");
    }
  }

  /** The texts of a deck's text slides, in order. */
  function SlideTexts(slides: seq<SlideBody>): (r: seq<string>)
    ensures |r| == |slides|
    ensures forall k :: 0 <= k < |r| && slides[k].TextSlide? ==> r[k] == slides[k].text
  {
    if slides == [] then []
    else SlideTexts(slides[..|slides| - 1]) + [if slides[|slides| - 1].TextSlide? then slides[|slides| - 1].text else ""]
  }

  /** A text file becomes ceil(lines / 10) slides, slide k holds lines
      10k .. 10k + 9, and the slide texts put together give the file back. */
  lemma TextDeckSpec(text: string)
    ensures var lines := ReadLines(text);
            |TextDeck(text)| == (|lines| + ChunkSize - 1) / ChunkSize
    ensures var lines := ReadLines(text);
            forall k :: 0 <= k < |TextDeck(text)| ==>
              TextDeck(text)[k] == TextSlide(Join(lines[k * ChunkSize .. if (k + 1) * ChunkSize <= |lines| then (k + 1) * ChunkSize else |lines|], ""))
    ensures Join(SlideTexts(TextDeck(text)), "") == text
  {
    var lines := ReadLines(text);
    ChunksShape(lines);
    forall k | 0 <= k < |TextDeck(text)|
      ensures TextDeck(text)[k] == TextSlide(Join(lines[k * ChunkSize .. if (k + 1) * ChunkSize <= |lines| then (k + 1) * ChunkSize else |lines|], ""))
    {
      ChunkAt(lines, k);
    }
    JoinTextSlides(Chunks(lines));
    ChunksFlatten(lines);
    ReadLinesRoundTrip(text);
  }

  /** An empty file gives an empty deck. */
  lemma EmptyTextDeck()
    ensures TextDeck("") == []
  {
  }

  // ---- PDF files ----

  /** `page.extract_text() or ''`: no text and empty text both become "". */
  function PageText(page: Option<string>): string
  {
    match page
    case Some(t) => t
    case None => ""
  }

  /** `FileConversionService.pdf_to_pptx`: one slide per page, in page order. */
  method PdfToPptx(pages: seq<Option<string>>, pptxPath: string) returns (path: string, slides: seq<SlideBody>)
    ensures path == pptxPath
    ensures |slides| == |pages|
    ensures forall k :: 0 <= k < |pages| ==> slides[k] == TextSlide(PageText(pages[k]))
  {
    slides := [];
    var i := 0;
    while i < |pages|
      invariant 0 <= i <= |pages|
      invariant |slides| == i
      invariant forall k :: 0 <= k < i ==> slides[k] == TextSlide(PageText(pages[k]))
    {
      var text := if pages[i].Some? then pages[i].value else "";
      slides := slides + [TextSlide(text)];
      i := i + 1;
    }
    path := pptxPath;
  }

  // ---- Word files ----

  /** The non-blank paragraphs, stripped, in document order. */
  function KeptParagraphs(paras: seq<string>): seq<string>
  {
    if paras == [] then []
    else
      var last := paras[|paras| - 1];
      var rest := KeptParagraphs(paras[..|paras| - 1]);
      if Strip(last) != "" then rest + [Strip(last)] else rest
  }

  /** Every kept paragraph is non-empty and has no white space at either end. */
  lemma {:induction false} KeptParagraphsTrimmed(paras: seq<string>)
    ensures |KeptParagraphs(paras)| <= |paras|
    ensures forall k :: 0 <= k < |KeptParagraphs(paras)| ==>
              KeptParagraphs(paras)[k] != "" && IsTrimmed(KeptParagraphs(paras)[k])
  {
    if paras != [] {
      KeptParagraphsTrimmed(paras[..|paras| - 1]);
      StripSpec(paras[|paras| - 1]);
    }
  }

  /** Filtering goes paragraph by paragraph, so it keeps document order. */
  lemma {:induction false} KeptParagraphsAppend(a: seq<string>, b: seq<string>)
    ensures KeptParagraphs(a + b) == KeptParagraphs(a) + KeptParagraphs(b)
    decreases |b|
  {
    if b == [] {
      assert a + b == a;
    } else {
      assert (a + b)[..|a + b| - 1] == a + b[..|b| - 1];
      KeptParagraphsAppend(a, b[..|b| - 1]);
    }
  }

  /** A paragraph is kept, stripped, exactly when it is not blank. */
  lemma KeptParagraphsSingle(p: string)
    ensures KeptParagraphs([p]) == if IsBlank(p) then [] else [Strip(p)]
  {
    assert [p][..0] == [];
    StripEmptyIffBlank(p);
  }

  /** The deck `docx_to_pptx` produces from a document's paragraphs. */
  function DocxDeck(paras: seq<string>): seq<SlideBody>
  {
    TextSlides(Chunks(KeptParagraphs(paras)), "\n")
  }

  /** One more paragraph read: a non-blank one is kept, stripped, after the others. */
  lemma KeptParagraphsStep(paras: seq<string>, i: nat)
    requires i < |paras|
    ensures KeptParagraphs(paras[..i + 1]) ==
            KeptParagraphs(paras[..i]) + (if Strip(paras[i]) != "" then [Strip(paras[i])] else [])
  {
    assert paras[..i + 1][..i] == paras[..i];
  }

  /** The loop of docx_to_pptx keeps the full pieces and the current piece
      equal to the paragraphs kept so far. */
  lemma DocxProgress(done: seq<seq<string>>, chunk: seq<string>, paras: seq<string>, i: nat)
    requires i < |paras|
    requires Flatten(done) + chunk == KeptParagraphs(paras[..i])
    ensures Strip(paras[i]) != "" ==> Flatten(done) + (chunk + [Strip(paras[i])]) == KeptParagraphs(paras[..i + 1])
    ensures Strip(paras[i]) == "" ==> Flatten(done) + chunk == KeptParagraphs(paras[..i + 1])
  {
    KeptParagraphsStep(paras, i);
  }

  lemma FlattenSnoc<T>(xss: seq<seq<T>>, xs: seq<T>)
    ensures Flatten(xss + [xs]) == Flatten(xss) + xs
  {
    assert (xss + [xs])[..|xss|] == xss;
  }

  /** A full piece closes: it becomes the next slide. */
  lemma CloseChunk(done: seq<seq<string>>, chunk: seq<string>)
    requires forall k :: 0 <= k < |done| ==> |done[k]| == ChunkSize
    requires |chunk| == ChunkSize
    ensures forall k :: 0 <= k < |done + [chunk]| ==> |(done + [chunk])[k]| == ChunkSize
    ensures Flatten(done + [chunk]) + [] == Flatten(done) + chunk
    ensures TextSlides(done + [chunk], "\n") == TextSlides(done, "\n") + [TextSlide(Join(chunk, "\n"))]
  {
    TextSlidesSnoc(done, chunk, "\n");
    FlattenSnoc(done, chunk);
    assert Flatten(done + [chunk]) + [] == Flatten(done + [chunk]);
  }

  /** `FileConversionService.docx_to_pptx`: ten kept paragraphs per slide. */
  method DocxToPptx(paras: seq<string>, pptxPath: string) returns (path: string, slides: seq<SlideBody>)
    ensures path == pptxPath
    ensures slides == DocxDeck(paras)
  {
    slides := [];
    var chunk: seq<string> := [];
    ghost var done: seq<seq<string>> := [];
    var i := 0;
    while i < |paras|
      invariant 0 <= i <= |paras|
      invariant forall k :: 0 <= k < |done| ==> |done[k]| == ChunkSize
      invariant |chunk| < ChunkSize
      invariant Flatten(done) + chunk == KeptParagraphs(paras[..i])
      invariant slides == TextSlides(done, "\n")
    {
      var t := Strip(paras[i]);
      DocxProgress(done, chunk, paras, i);
      if t != "" {
        var grown := chunk + [t];
        if |grown| >= ChunkSize {
          CloseChunk(done, grown);
          slides := slides + [TextSlide(Join(grown, "\n"))];
          done := done + [grown];
          chunk := [];
        } else {
          chunk := grown;
        }
      }
      i := i + 1;
    }
    assert paras[..|paras|] == paras;
    ChunksOfFullPieces(done, chunk);
    if chunk != [] {
      slides := slides + [TextSlide(Join(chunk, "\n"))];
      TextSlidesSnoc(done, chunk, "\n");
    } else {
      assert done + [] == done;
    }
    path := pptxPath;
  }

  /** Every slide of a Word deck but the last holds exactly ten kept paragraphs,
      the last between one and ten; together they are the kept paragraphs in
      order, and no slide is empty. */
  lemma DocxDeckSpec(paras: seq<string>)
    ensures var pieces := Chunks(KeptParagraphs(paras));
            && |DocxDeck(paras)| == |pieces|
            && Flatten(pieces) == KeptParagraphs(paras)
            && (forall k :: 0 <= k < |pieces| ==> DocxDeck(paras)[k] == TextSlide(Join(pieces[k], "\n")))
            && (forall k :: 0 <= k < |pieces| - 1 ==> |pieces[k]| == ChunkSize)
            && (forall k :: 0 <= k < |pieces| ==> 1 <= |pieces[k]| <= ChunkSize)
    ensures forall k :: 0 <= k < |DocxDeck(paras)| ==> DocxDeck(paras)[k].text != ""
  {
    var kept := KeptParagraphs(paras);
    var pieces := Chunks(kept);
    KeptParagraphsTrimmed(paras);
    ChunksShape(kept);
    ChunksFlatten(kept);
    forall k | 0 <= k < |pieces| ensures DocxDeck(paras)[k].text != "" {
      ChunkAt(kept, k);
      var piece := pieces[k];
      forall m | 0 <= m < |piece| ensures piece[m] != "" && IsTrimmed(piece[m]) {
        assert piece[m] == kept[k * ChunkSize + m];
      }
      JoinTrimmedPieces(piece, "\n");
    }
  }

  /** A document without a non-blank paragraph gives an empty deck. */
  lemma EmptyDocxDeck(paras: seq<string>)
    requires forall k :: 0 <= k < |paras| ==> IsBlank(paras[k])
    ensures DocxDeck(paras) == []
  {
    assert KeptParagraphs(paras) == [] by {
      BlankParagraphsDropped(paras);
    }
  }

  lemma {:induction false} BlankParagraphsDropped(paras: seq<string>)
    requires forall k :: 0 <= k < |paras| ==> IsBlank(paras[k])
    ensures KeptParagraphs(paras) == []
  {
    if paras != [] {
      StripEmptyIffBlank(paras[|paras| - 1]);
      BlankParagraphsDropped(paras[..|paras| - 1]);
    }
  }

  // ---- images ----

  /** `FileConversionService.images_to_pptx`, without the picture geometry:
      one picture slide per image, in order. */
  method ImagesToPptx(imagePaths: seq<string>, pptxPath: string) returns (path: string, slides: seq<SlideBody>)
    ensures path == pptxPath
    ensures |slides| == |imagePaths|
    ensures forall k :: 0 <= k < |imagePaths| ==> slides[k] == PictureSlide(imagePaths[k])
  {
    slides := [];
    for i := 0 to |imagePaths|
      invariant |slides| == i
      invariant forall k :: 0 <= k < i ==> slides[k] == PictureSlide(imagePaths[k])
    {
      slides := slides + [PictureSlide(imagePaths[i])];
    }
    path := pptxPath;
  }

  // ---- dispatch ----

  /** `PurePath.name`: the last component of a '/'-separated path. */
  function BaseName(p: string): (r: string)
    ensures '/' !in r
  {
    p[RFind(p, '/') + 1..]
  }

  /** `PurePath.stem`: the name without its suffix; a dot at the start or at
      the end of the name does not start a suffix. */
  function Stem(p: string): (r: string)
    ensures '/' !in r
  {
    var name := BaseName(p);
    var i := RFind(name, '.');
    if 0 < i < |name| - 1 then name[..i] else name
  }

  /** `os.path.join(a, b)` for two components. */
  function PathJoin(a: string, b: string): string
  {
    if |b| > 0 && b[0] == '/' then b
    else if a == "" || a[|a| - 1] == '/' then a + b
    else a + "/" + b
  }

  /** Where `convert_to_pptx` saves the deck. */
  function OutputPath(srcPath: string, destDir: string): string
  {
    PathJoin(destDir, Stem(srcPath) + ".pptx")
  }

  /** What the readers would yield for the source file, per kind. */
  datatype SourceReadings = SourceReadings(
    text: string,                   // the decoded text of a .txt file
    pdfPages: seq<Option<string>>,  // extract_text() of each PDF page
    paragraphs: seq<string>)        // the text of each Word paragraph

  datatype Converted = Converted(pptxPath: string, slides: seq<SlideBody>)

  /** The upload kinds `convert_to_pptx` accepts, by lower-cased extension. */
  datatype Handler = TextHandler | PdfHandler | DocxHandler | ImageHandler | NoHandler

  function HandlerFor(ext: string): Handler
  {
    var e := Lower(ext);
    if e == ".txt" then TextHandler
    else if e == ".pdf" then PdfHandler
    else if e in [".doc", ".docx"] then DocxHandler
    else if e in [".jpg", ".jpeg", ".png", ".gif", ".bmp"] then ImageHandler
    else NoHandler
  }

  /** The images of one upload batch, or the single source image. */
  function ImagesFor(srcPath: string, batch: Option<seq<string>>): seq<string>
  {
    if batch.Some? && batch.value != [] then batch.value else [srcPath]
  }

  /** `FileConversionService.convert_to_pptx`. */
  method ConvertToPptx(srcPath: string, ext: string, destDir: string,
                       batch: Option<seq<string>>, source: SourceReadings)
    returns (r: Result<Converted, string>)
    ensures HandlerFor(ext) == NoHandler <==> r.Err?
    ensures r.Err? ==> r.error == "Unsupported file type for conversion: " + ext
    ensures r.Ok? ==> r.value.pptxPath == OutputPath(srcPath, destDir)
    ensures HandlerFor(ext) == TextHandler ==> r == Ok(Converted(OutputPath(srcPath, destDir), TextDeck(source.text)))
    ensures HandlerFor(ext) == PdfHandler ==>
              (r.Ok? && |r.value.slides| == |source.pdfPages| &&
               forall k :: 0 <= k < |source.pdfPages| ==> r.value.slides[k] == TextSlide(PageText(source.pdfPages[k])))
    ensures HandlerFor(ext) == DocxHandler ==> r == Ok(Converted(OutputPath(srcPath, destDir), DocxDeck(source.paragraphs)))
    ensures HandlerFor(ext) == ImageHandler ==>
              (r.Ok? &&
               var images := ImagesFor(srcPath, batch);
               |r.value.slides| == |images| &&
               forall k :: 0 <= k < |images| ==> r.value.slides[k] == PictureSlide(images[k]))
  {
    var pptxName := Stem(srcPath) + ".pptx";
    var pptxPath := PathJoin(destDir, pptxName);
    var e := Lower(ext);
    var path, slides;
    if e == ".txt" {
      path, slides := TxtToPptx(source.text, pptxPath);
    } else if e == ".pdf" {
      path, slides := PdfToPptx(source.pdfPages, pptxPath);
    } else if e in [".doc", ".docx"] {
      path, slides := DocxToPptx(source.paragraphs, pptxPath);
    } else if e in [".jpg", ".jpeg", ".png", ".gif", ".bmp"] {
      if batch.Some? && batch.value != [] {
        path, slides := ImagesToPptx(batch.value, pptxPath);
      } else {
        path, slides := ImagesToPptx([srcPath], pptxPath);
      }
    } else {
      return Err("Unsupported file type for conversion: " + ext);
    }
    r := Ok(Converted(path, slides));
  }

  /** The deck is saved in destDir under the source's stem with ".pptx". */
  lemma OutputPathSpec(srcPath: string, destDir: string)
    ensures var out := OutputPath(srcPath, destDir); var name := Stem(srcPath) + ".pptx";
            |name| <= |out| && out[|out| - |name|..] == name
    ensures destDir != "" && destDir[|destDir| - 1] != '/' ==>
              OutputPath(srcPath, destDir) == destDir + "/" + Stem(srcPath) + ".pptx"
  {
    var name := Stem(srcPath) + ".pptx";
    assert name[0] != '/' by {
      if Stem(srcPath) != "" {
        assert name[0] == Stem(srcPath)[0];
      }
    }
  }

  /** Upper-case extensions are dispatched like lower-case ones. */
  lemma DispatchIgnoresCase(ext: string)
    ensures HandlerFor(ext) == HandlerFor(Lower(ext))
  {
    LowerIdempotent(ext);
  }

  lemma LowerIdempotent(s: string)
    ensures Lower(Lower(s)) == Lower(s)
  {
    assert forall i :: 0 <= i < |s| ==> LowerChar(LowerChar(s[i])) == LowerChar(s[i]);
  }
}
