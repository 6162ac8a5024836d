# MemoMaster core, modelled in Dafny

MemoMaster is a small Gradio application that turns an uploaded course into a
revision sheet (text plus a PDF) through a chat-completions service, limits a
session to five free generations, and offers a tutoring chat. This project
models the logic that sits between the UI and the service:

- the **quota gate** `controller` (module `Quota`): a missing count is read as 0;
  at or above `FREE_LIMIT` (5) the click is refused with the fixed message, no
  PDF and the count unchanged; otherwise the summary runs and the count goes
  up by one, whatever the summary's outcome;
- the **summary pipeline** `summarize_file` (module `Summary`): read the upload
  (or use the read-failure placeholder), send the persona and a prompt that
  embeds title and content, strip the answer, export it; any exception becomes
  `"Erreur : <reason>"` with no PDF;
- the **paragraph filter** of `export_to_pdf` (module `PdfExport`): the PDF's
  paragraphs are the non-blank pieces of `text.split("\n")`, in order;
- the **chat step** `chat_step` (module `Chat`): a blank message changes nothing;
  otherwise a turn with the pending reply `"…"` is appended, the message list
  (persona, every prior turn's user message and reply, the new message) is
  built by a loop, and the pending reply is overwritten with the stripped
  answer or the error text.

Module `Text` gives Python's `str.strip()` (over the exact set of characters
`str.isspace` accepts), the blank test `not s.strip()` and `str.split("\n")`;
module `Service` gives the message, request and completion types.

The chat-completions service is a function parameter `Request -> Completion`
returning either the answer text or the text of the exception it raised. The
PDF library together with the file write is a function parameter
`seq<string> -> Rendered` applied to the paragraph list. The upload is either
its decoded text or a read that raised.

The model follows the code as written: although the page advertises
`.pdf`/`.docx` uploads (app.py:129, 134), there is no dispatch on the
extension (the file is only decoded as UTF-8, app.py:35); nothing rejects empty content, so quota is consumed whenever the
count is below the limit, even on a read failure or a service error
(app.py:184-185); the prompt is not truncated and an empty title is embedded
as is (app.py:46); every export writes the same path `fiche_revision.pdf`
(app.py:21); paragraphs are split on single newlines; the chat history is never
truncated (app.py:67).

A consequence made precise by `Chat.FinalizedReply`: an error never leaves the
pending mark behind, but a service answer of `"…"` (up to whitespace) is
indistinguishable from the pending mark after the step.

## Model

| member | source | states |
|---|---|---|
| `Text.TrimStart` | app.py:78 | the result is a suffix of the input, what was cut is whitespace only, and the result does not start with whitespace |
| `Text.TrimEnd` | app.py:78 | the result is a prefix of the input, what was cut is whitespace only, and the result does not end with whitespace |
| `Text.Strip` | app.py:50 | the stripped text is no longer than the input and neither starts nor ends with whitespace |
| `Text.StripDecompose` | app.py:50 | the stripped text sits inside the input between a whitespace-only prefix and a whitespace-only suffix |
| `Text.TrimStartUnique` | app.py:78 | stripping the left of a whitespace-only lead followed by a rest that does not start with whitespace gives that rest |
| `Text.TrimEndUnique` | app.py:78 | stripping the right of a rest that does not end with whitespace followed by a whitespace-only trail gives that rest |
| `Text.StripUnique` | app.py:50 | any cut of a string into blank + core + blank whose core has non-space ends has the stripped text as core |
| `Text.StripEmptyIsBlank` | app.py:59 | a string whose strip is empty is whitespace only |
| `Text.BlankIffStripEmpty` | app.py:59 | `not s.strip()` holds exactly for whitespace-only strings |
| `Text.StripIdempotent` | app.py:50 | stripping a stripped text changes nothing |
| `Text.SplitLines` | app.py:25 | splitting on newline yields at least one piece and no piece contains a newline |
| `Text.SplitLineFree` | app.py:25 | a newline-free string splits into itself alone |
| `Text.SplitConcat` | app.py:25 | the pieces of `a + "\n" + b` are the pieces of `a` followed by those of `b` |
| `Text.JoinSplit` | app.py:25 | joining the pieces with newlines gives back the text |
| `Text.SplitJoin` | app.py:25 | splitting a newline-join of newline-free pieces gives back the pieces |
| `Service.ErrorText` | app.py:55 | a caught exception is shown as the prefix `Erreur : ` followed by its reason |
| `PdfExport.KeepNonBlank` | app.py:25 | the kept lines are lines of the input, none is whitespace-only, and there are no more of them than input lines |
| `PdfExport.KeepNonBlankConcat` | app.py:25 | filtering a concatenation is the concatenation of the filtered parts, so order is kept |
| `PdfExport.KeepNonBlankSingle` | app.py:25 | one line is kept exactly when it is not whitespace-only |
| `PdfExport.KeepNonBlankMembers` | app.py:25 | a line is kept exactly when it is a non-blank member of the input |
| `PdfExport.Paragraphs` | app.py:25 | every paragraph is a newline-free, non-blank piece of `text.split("\n")`, and there are no more paragraphs than pieces |
| `PdfExport.ParagraphsConcat` | app.py:25 | the paragraphs of `a + "\n" + b` are those of `a` followed by those of `b` |
| `PdfExport.ParagraphsOfLine` | app.py:25 | a newline-free line is one paragraph unless whitespace-only, then none |
| `PdfExport.ParagraphMembers` | app.py:25 | a string is a paragraph exactly when it is a non-blank piece of `text.split("\n")` (order and repeats are kept by `PdfExport.ParagraphsConcat`) |
| `PdfExport.NoParagraphsIffBlank` | app.py:25 | a text yields no paragraph exactly when it is whitespace only |
| `PdfExport.ExportToPdf` | app.py:21-29 | the export returns `fiche_revision.pdf` exactly when building and writing the paragraph list succeeds, and the raised reason otherwise |
| `Summary.ReadContent` | app.py:33-37 | the content is the decoded text, or the fixed placeholder when reading raised |
| `Summary.SheetPrompt` | app.py:46 | the prompt starts with the fixed head, has the title right after it, then the fixed separator, and ends with the whole content |
| `Summary.SheetRequest` | app.py:40-49 | the request names `gpt-4o-mini` at temperature 0.4 and holds exactly the persona system message and the user prompt built from title and content |
| `Summary.SummarizeFile` | app.py:31-55 | a PDF is returned exactly when the call answered and the export succeeded; then the path is `fiche_revision.pdf` and the display the stripped answer; a raised call or export gives its error text |
| `Summary.SheetOutcomes` | app.py:50-55 | with a PDF the display has no surrounding whitespace; without one the display starts with `Erreur : ` |
| `Summary.DocumentFromDisplay` | app.py:50-51 | when a PDF is returned it was rendered from the paragraph list of the displayed summary, whose members, as a set, are its non-blank lines (order and repeats via `PdfExport.ParagraphsConcat`) |
| `Quota.Decimal` | app.py:181 | the limit is printed as a non-empty run of decimal digits that spells exactly that number, with no leading zero |
| `Quota.QuotaMessage` | app.py:181-182 | the message is the fixed head, the limit printed as `5`, and the fixed tail: `⛔ Palier gratuit atteint (5). Pense à passer au plan premium pour continuer.` |
| `Quota.Effective` | app.py:178-179 | a missing count reads as 0, a present one as itself |
| `Quota.Controller` | app.py:176-186 | at or over the limit: quota message, no PDF, same count; under it: the summary's display and PDF and the count plus one |
| `Quota.RejectionCallsNothing` | app.py:180-183 | a refused click has the same outcome whatever the file, the title, the service and the renderer, so none of them is used |
| `Quota.AdmissionConsumesOnError` | app.py:184-186 | an admitted click whose service call raised still returns the count plus one, with the error text and no PDF |
| `Quota.CountAfter` | app.py:188-192 | threading the count through a session's clicks never lowers it, and never lifts it past the limit unless it started above it |
| `Quota.CountAfterClicks` | app.py:176-186 | over a session the count grows by one per click up to the limit and then stays; a count already at or over the limit never moves |
| `Quota.FreshSessionBounded` | app.py:145 | from the initial count 0 (or a missing count) the count stays between 0 and 5 and reaches 5 exactly after 5 clicks |
| `Quota.NextClickRefused` | app.py:180-183 | after 5 clicks in a fresh session the next one is refused with the quota message, no PDF, count 5 |
| `Chat.TurnMessagesShape` | app.py:67-69 | each prior turn contributes its user message then its reply, at positions 2i and 2i+1, and nothing else |
| `Chat.TurnMessages` | app.py:67-69 | the prior turns give two messages each, alternating user and assistant |
| `Chat.Conversation` | app.py:66-71 | the message list has 2N+2 entries, starts with the tutor persona, ends with the new user message, and has no other system message |
| `Chat.ConversationShape` | app.py:66-71 | for N prior turns the message list has 2N+2 entries: the tutor persona, each turn's pair in insertion order, the new user message last |
| `Chat.ChatRequest` | app.py:73-77 | the chat request names `gpt-4o-mini` at temperature 0.5 and carries the assembled messages |
| `Chat.Finalize` | app.py:78-81 | an answer becomes a reply that is already stripped and no longer than the answer (that it is the answer's `strip()` is `Chat.FinalizeAnswer`); an error becomes `Erreur : ` followed by its reason, never the pending mark |
| `Chat.FinalizeAnswer` | app.py:78 | an answered call's reply is the answer cut at both ends by whitespace-only runs, starting and ending with non-whitespace, so exactly `answer.strip()` by `Text.StripUnique` |
| `Chat.FinalizedReply` | app.py:78-81 | an error always replaces the pending reply; the reply equals the pending mark only if the service answered that mark |
| `Chat.BuildMessages` | app.py:66-71 | the loop yields exactly the conversation message list |
| `Chat.ChatStep` | app.py:58-83 | a blank message returns the history unchanged; otherwise the history grows by one turn, earlier turns unchanged, the new turn holding the message and the finalized answer to the conversation request; the input is always cleared |

## Left out

- The Gradio UI, CSS, HTML/JS widget and event wiring (app.py:86-200): presentation only. This includes the chat handlers returning two values for three outputs (app.py:195-199).
- The OpenAI client and the `chat.completions.create` calls (app.py:18, 40-49, 73-77): a foreign network service, modelled as a function from request to completion or raised reason.
- reportlab layout, pagination, markup parsing of each paragraph and the file write (app.py:22-28): a foreign library and I/O, modelled as a function from the paragraph list to success or a raised reason.
- Byte reading and UTF-8 decoding with `errors="ignore"` (app.py:35): library behaviour; the upload is given as its decoded text or as a read that raised.
- Environment variables, port, launch and traceback printing (app.py:18, 54, 203-205): configuration and I/O.
- Chat.ChatStep: the message is a string; a `None` message, which the source also treats as blank (`not user_msg`), is not modelled.
- Chat.ChatStep: the in-place overwrite `history[-1][1] = …` is modelled as building a new sequence; the overwritten turn is a fresh list in the source, so no caller-visible turn is aliased.
- Extension-based `.pdf`/`.docx` extraction, an empty-content check, prompt truncation and history truncation: the source has none of them.
