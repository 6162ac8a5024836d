/**
 * `summarize_file`: read the upload, ask the service for a revision sheet,
 * strip the answer and export it as a PDF. Any exception raised by the call,
 * by the answer's extraction or by the export is caught and shown as an
 * error message with no PDF.
 */
module Summary {
  import opened Wrappers
  import opened Text
  import opened Service
  import opened PdfExport

  /** The uploaded file as the reader sees it: its decoded text, or a read that raised. */
  datatype Upload = Readable(text: string) | Unreadable

  /** Placeholder content used when the file cannot be read (app.py:37). */
  const ReadFailure: string := "Impossible de lire le fichier (essayez .txt pour le test)."

  const SheetPersona: string :=
    "Tu es un assistant qui crée des fiches de révision claires et structurées (titres, puces, formules en texte)."

  /** The two fixed parts of the user prompt around the course title (app.py:46). */
  const PromptHead: string := "Crée une fiche de révision claire et concise pour le cours « "
  const PromptMid: string := " » à partir de :\n\n"

  const SheetTemperature: real := 0.4

  /** What `summarize_file` returns: the displayed text and the PDF path, if any. */
  datatype Sheet = Sheet(display: string, pdf: Option<string>)

  /** The content used for the prompt: the file's text or the read-failure placeholder. */
  function ReadContent(file: Upload): (content: string)
    ensures file.Readable? ==> content == file.text
    ensures file.Unreadable? ==> content == ReadFailure
  {
    match file
    case Readable(text) => text
    case Unreadable => ReadFailure
  }

  /** The user message: it embeds the title at a fixed offset and ends with the whole content. */
  function SheetPrompt(title: string, content: string): (p: string)
    ensures |p| == |PromptHead| + |title| + |PromptMid| + |content|
    ensures p[..|PromptHead|] == PromptHead
    ensures p[|PromptHead|..|PromptHead| + |title|] == title
    ensures p[|PromptHead| + |title|..|p| - |content|] == PromptMid
    ensures p[|p| - |content|..] == content
  {
    var p := PromptHead + title + PromptMid + content;
    assert p[|PromptHead| + |title|..|p| - |content|] == PromptMid;
    p
  }

  /** The request sent for a revision sheet: the persona, then the prompt. */
  function SheetRequest(title: string, content: string): (q: Request)
    ensures q.model == DefaultModel && q.temperature == SheetTemperature
    ensures |q.messages| == 2
    ensures q.messages[0] == Message(System, SheetPersona)
    ensures q.messages[1] == Message(User, SheetPrompt(title, content))
  {
    Request(DefaultModel, [Message(System, SheetPersona), Message(User, SheetPrompt(title, content))], SheetTemperature)
  }

  /**
   * `summarize_file(file, cours_titre)`. `service` stands for the chat-completions
   * call and `render` for building and writing the document from its paragraphs.
   */
  function SummarizeFile(file: Upload, title: string,
                         service: Request -> Completion,
                         render: seq<string> -> Rendered): (r: Sheet)
    ensures var answer := service(SheetRequest(title, ReadContent(file)));
            r.pdf.Some? <==> answer.Completed? && render(Paragraphs(Strip(answer.text))).Written?
    ensures r.pdf.Some? ==> r.pdf.value == PdfFilename
                            && r.display == Strip(service(SheetRequest(title, ReadContent(file))).text)
    ensures var answer := service(SheetRequest(title, ReadContent(file)));
            answer.Raised? ==> r.display == ErrorText(answer.reason)
    ensures var answer := service(SheetRequest(title, ReadContent(file)));
            answer.Completed? && r.pdf.None? ==>
              r.display == ErrorText(render(Paragraphs(Strip(answer.text))).reason)
  {
    var content := ReadContent(file);
    match service(SheetRequest(title, content))
    case Raised(reason) => Sheet(ErrorText(reason), None)
    case Completed(text) =>
      var summary := Strip(text);
      match ExportToPdf(summary, render)
      case Ok(path) => Sheet(summary, Some(path))
      case Err(reason) => Sheet(ErrorText(reason), None)
  }

  /**
   * The two outcomes are told apart by the PDF alone: with a PDF the display is
   * trimmed of surrounding whitespace; without one it is an error message.
   */
  lemma SheetOutcomes(file: Upload, title: string,
                      service: Request -> Completion, render: seq<string> -> Rendered)
    ensures var r := SummarizeFile(file, title, service, render);
            (r.pdf.Some? ==> Strip(r.display) == r.display)
            && (r.pdf.None? ==> |r.display| >= |ErrorPrefix| && r.display[..|ErrorPrefix|] == ErrorPrefix)
  {
    var r := SummarizeFile(file, title, service, render);
    if r.pdf.Some? {
      StripIdempotent(service(SheetRequest(title, ReadContent(file))).text);
    }
  }

  /** The document is made of the non-blank lines of the displayed summary, nothing else. */
  lemma DocumentFromDisplay(file: Upload, title: string,
                            service: Request -> Completion, render: seq<string> -> Rendered)
    ensures var r := SummarizeFile(file, title, service, render);
            r.pdf.Some? ==> render(Paragraphs(r.display)) == Written
    ensures var r := SummarizeFile(file, title, service, render);
            forall p :: p in Paragraphs(r.display) <==> p in SplitLines(r.display) && !IsBlank(p)
  {
    var r := SummarizeFile(file, title, service, render);
    forall p ensures p in Paragraphs(r.display) <==> p in SplitLines(r.display) && !IsBlank(p) {
      ParagraphMembers(r.display, p);
    }
  }
}
