/**
 * The document loader: choose the PDF or the image extractor by file name,
 * and turn what the extractor reads into text. The third-party readers
 * (pdfplumber, pyzbar/PIL) are not modelled; what they return for a given
 * upload is a parameter, and every exception they or the UTF-8 decoder
 * raise is the `Unreadable` case, which the source turns into "".
 */
module Loader {
  import opened Options
  import opened Strings

  /** What pdfplumber yields for an upload: the pages' `extract_text()`, or an exception. */
  datatype PdfReading = PdfUnreadable | PdfPages(pages: seq<Option<string>>)

  /** What pyzbar yields for an upload: the decoded payloads in decoder order, or an exception. */
  datatype ImageReading = ImageUnreadable | ImageCodes(payloads: seq<string>)

  /** `page.extract_text() or ""`: a page with no text contributes "". */
  function PageText(page: Option<string>): string {
    page.GetOr("")
  }

  /** The pages' texts, concatenated in document order. */
  function ConcatPages(pages: seq<Option<string>>): string {
    if pages == [] then "" else ConcatPages(pages[..|pages| - 1]) + PageText(pages[|pages| - 1])
  }

  /** Concatenating two runs of pages is concatenating their texts. */
  lemma {:induction false} ConcatPagesAppend(a: seq<Option<string>>, b: seq<Option<string>>)
    ensures ConcatPages(a + b) == ConcatPages(a) + ConcatPages(b)
    decreases |b|
  {
    if b == [] {
      assert a + b == a;
    } else {
      var b' := b[..|b| - 1];
      assert (a + b)[..|a + b| - 1] == a + b';
      ConcatPagesAppend(a, b');
    }
  }

  /**
   * No page is skipped or moved: page `k`'s text sits between the text of
   * the pages before it and the text of the pages after it.
   */
  lemma {:induction false} PageInPlace(pages: seq<Option<string>>, k: nat)
    requires k < |pages|
    ensures ConcatPages(pages)
            == ConcatPages(pages[..k]) + PageText(pages[k]) + ConcatPages(pages[k + 1..])
  {
    var before, after := pages[..k + 1], pages[k + 1..];
    assert pages == before + after;
    ConcatPagesAppend(before, after);
    assert before[..k] == pages[..k];
  }

  /** The length of the text is the sum of the pages' lengths. */
  function TotalLength(pages: seq<Option<string>>): nat {
    if pages == [] then 0 else TotalLength(pages[..|pages| - 1]) + |PageText(pages[|pages| - 1])|
  }

  lemma {:induction false} ConcatPagesLength(pages: seq<Option<string>>)
    ensures |ConcatPages(pages)| == TotalLength(pages)
    decreases |pages|
  {
    if pages != [] {
      ConcatPagesLength(pages[..|pages| - 1]);
    }
  }

  /** The text `extract_text_from_pdf` returns: "" when reading fails. */
  function PdfText(reading: PdfReading): string {
    match reading
    case PdfUnreadable => ""
    case PdfPages(pages) => ConcatPages(pages)
  }

  /** `extract_text_from_pdf`: accumulate `text += page text` over the pages. */
  method ExtractTextFromPdf(reading: PdfReading) returns (text: string)
    ensures text == PdfText(reading)
  {
    if reading.PdfUnreadable? {
      return "";
    }
    var pages := reading.pages;
    text := "";
    var i := 0;
    while i < |pages|
      invariant 0 <= i <= |pages|
      invariant text == ConcatPages(pages[..i])
    {
      assert pages[..i + 1][..i] == pages[..i];
      text := text + PageText(pages[i]);
      i := i + 1;
    }
    assert pages[..|pages|] == pages;
  }

  /** `extract_text_from_image`: the first payload in decoder order, or "" if there is none. */
  function ImageText(reading: ImageReading): (r: string)
    ensures reading.ImageCodes? && |reading.payloads| > 0 ==> r == reading.payloads[0]
    ensures reading.ImageUnreadable? || reading.payloads == [] ==> r == ""
  {
    match reading
    case ImageUnreadable => ""
    case ImageCodes(payloads) => if |payloads| > 0 then payloads[0] else ""
  }

  /** `filename.lower().endswith('.pdf')`. */
  predicate IsPdfName(filename: string) {
    EndsWith(Lower(filename), ".pdf")
  }

  /** The PDF branch is taken exactly for names ending in ".pdf" in any mix of letter case. */
  lemma {:induction false} IsPdfNameIff(filename: string)
    ensures IsPdfName(filename) <==>
              var n := |filename|;
              && n >= 4
              && filename[n - 4] == '.'
              && (filename[n - 3] == 'p' || filename[n - 3] == 'P')
              && (filename[n - 2] == 'd' || filename[n - 2] == 'D')
              && (filename[n - 1] == 'f' || filename[n - 1] == 'F')
  {
    var l := Lower(filename);
    var n := |filename|;
    if n >= 4 {
      assert l[n - 4..] == [l[n - 4], l[n - 3], l[n - 2], l[n - 1]];
    }
  }

  /** The text the upload yields: the PDF reader's for a ".pdf" name, the image reader's otherwise. */
  function LoadText(filename: string, pdf: PdfReading, image: ImageReading): string {
    if IsPdfName(filename) then PdfText(pdf) else ImageText(image)
  }
}
