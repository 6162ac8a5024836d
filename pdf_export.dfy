/**
 * `export_to_pdf`: the summary text is cut into lines, the blank lines are
 * dropped, and each remaining line becomes one paragraph of the document.
 * Layout, pagination and the file write belong to the PDF library and the
 * file system; they are a function parameter that either succeeds or raises.
 */
module PdfExport {
  import opened Text
  import opened Wrappers

  /** The default output path of `export_to_pdf` (app.py:21); every call writes there. */
  const PdfFilename: string := "fiche_revision.pdf"

  /** What building the document and writing the file came to. */
  datatype Rendered = Written | WriteFailed(reason: string)

  /** The list comprehension's filter `if p.strip()`, applied to a list of lines. */
  function KeepNonBlank(lines: seq<string>): (r: seq<string>)
    ensures |r| <= |lines|
    ensures forall k :: 0 <= k < |r| ==> r[k] in lines && !IsBlank(r[k])
  {
    if |lines| == 0 then []
    else
      var rest := KeepNonBlank(lines[1..]);
      BlankIffStripEmpty(lines[0]);
      if Strip(lines[0]) != "" then [lines[0]] + rest else rest
  }

  /** The paragraph texts handed to the document builder (app.py:25). */
  function Paragraphs(text: string): (ps: seq<string>)
    ensures |ps| <= |SplitLines(text)|
    ensures forall k :: 0 <= k < |ps| ==> ps[k] in SplitLines(text) && '\n' !in ps[k] && !IsBlank(ps[k])
  {
    KeepNonBlank(SplitLines(text))
  }

  /** `export_to_pdf(text)`: the path on success, the raised reason otherwise. */
  function ExportToPdf(text: string, render: seq<string> -> Rendered): (r: Result<string, string>)
    ensures r.Ok? <==> render(Paragraphs(text)).Written?
    ensures r.Ok? ==> r.value == PdfFilename
    ensures r.Err? ==> r.error == render(Paragraphs(text)).reason
  {
    match render(Paragraphs(text))
    case Written => Ok(PdfFilename)
    case WriteFailed(reason) => Err(reason)
  }

  /** Filtering commutes with concatenation: it keeps the order of what it keeps. */
  lemma {:induction false} KeepNonBlankConcat(xs: seq<string>, ys: seq<string>)
    ensures KeepNonBlank(xs + ys) == KeepNonBlank(xs) + KeepNonBlank(ys)
  {
    if |xs| == 0 {
      assert xs + ys == ys;
    } else {
      assert (xs + ys)[1..] == xs[1..] + ys;
      KeepNonBlankConcat(xs[1..], ys);
    }
  }

  /** A line is kept exactly when it is not whitespace-only. */
  lemma KeepNonBlankSingle(line: string)
    ensures KeepNonBlank([line]) == if IsBlank(line) then [] else [line]
  {
    BlankIffStripEmpty(line);
    assert [line][1..] == [];
  }

  /** A line is among the kept ones exactly when it is a non-blank member of the input. */
  lemma {:induction false} KeepNonBlankMembers(lines: seq<string>, p: string)
    ensures p in KeepNonBlank(lines) <==> p in lines && !IsBlank(p)
  {
    if |lines| > 0 {
      KeepNonBlankMembers(lines[1..], p);
      BlankIffStripEmpty(lines[0]);
      assert lines == [lines[0]] + lines[1..];
    }
  }

  /**
   * Paragraph breaking distributes over a newline: the paragraphs of
   * `a + "\n" + b` are those of `a` followed by those of `b`.
   */
  lemma {:induction false} ParagraphsConcat(a: string, b: string)
    ensures Paragraphs(a + "\n" + b) == Paragraphs(a) + Paragraphs(b)
  {
    SplitConcat(a, b);
    KeepNonBlankConcat(SplitLines(a), SplitLines(b));
  }

  /** A single line is one paragraph, unless it is whitespace-only, when it is none. */
  lemma ParagraphsOfLine(line: string)
    requires '\n' !in line
    ensures Paragraphs(line) == if IsBlank(line) then [] else [line]
  {
    SplitLineFree(line);
    KeepNonBlankSingle(line);
  }

  /** The paragraphs are exactly the non-blank lines of the text. */
  lemma {:induction false} ParagraphMembers(text: string, p: string)
    ensures p in Paragraphs(text) <==> p in SplitLines(text) && !IsBlank(p)
  {
    KeepNonBlankMembers(SplitLines(text), p);
  }

  /** A whitespace-only text, and only such a text, yields no paragraph at all. */
  lemma {:induction false} NoParagraphsIffBlank(text: string)
    ensures Paragraphs(text) == [] <==> IsBlank(text)
  {
    if '\n' in text {
      var i :| 0 <= i < |text| && text[i] == '\n';
      var a, b := text[..i], text[i + 1..];
      assert text == a + "\n" + b;
      ParagraphsConcat(a, b);
      NoParagraphsIffBlank(a);
      NoParagraphsIffBlank(b);
      BlankConcat(a, b);
    } else {
      ParagraphsOfLine(text);
    }
  }

  /** `a + "\n" + b` is whitespace-only exactly when `a` and `b` both are. */
  lemma BlankConcat(a: string, b: string)
    ensures IsBlank(a + "\n" + b) <==> IsBlank(a) && IsBlank(b)
  {
    var s := a + "\n" + b;
    assert forall i :: 0 <= i < |a| ==> s[i] == a[i];
    assert forall i :: 0 <= i < |b| ==> s[|a| + 1 + i] == b[i];
  }
}
