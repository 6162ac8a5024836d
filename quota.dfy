/**
 * `controller`: the free-tier gate around `summarize_file`. The session's
 * count is threaded through the UI state; a missing count counts as 0.
 */
module Quota {
  import opened Wrappers
  import opened Service
  import opened PdfExport
  import opened Summary

  /** Generations allowed per session (app.py:14). */
  const FreeLimit: nat := 5

  /** The number a string of decimal digits spells. */
  function DigitsValue(s: string): (v: nat)
    requires forall i :: 0 <= i < |s| ==> '0' <= s[i] <= '9'
  {
    if |s| == 0 then 0
    else DigitsValue(s[..|s| - 1]) * 10 + (s[|s| - 1] as int - '0' as int)
  }

  /** Decimal digits of `n`, as an f-string prints an int: they spell `n`, with no leading zero. */
  function Decimal(n: nat): (s: string)
    ensures |s| >= 1
    ensures forall i :: 0 <= i < |s| ==> '0' <= s[i] <= '9'
    ensures DigitsValue(s) == n
    ensures |s| == 1 || s[0] != '0'
  {
    var d := [(('0' as int) + n % 10) as char];
    if n < 10 then d else Decimal(n / 10) + d
  }

  /** The two fixed parts of the quota-exceeded message around the limit (app.py:181-182). */
  const QuotaHead: string := "\U{26D4} Palier gratuit atteint ("
  const QuotaTail: string := "). Pense à passer au plan premium pour continuer."

  /** The quota-exceeded message, with the limit printed in it as `5`. */
  function QuotaMessage(): (m: string)
    ensures m == QuotaHead + "5" + QuotaTail
  {
    assert Decimal(FreeLimit) == "5";
    QuotaHead + Decimal(FreeLimit) + QuotaTail
  }

  /** What `controller` returns: the display, the PDF path if any, and the new count. */
  datatype Outcome = Outcome(display: string, pdf: Option<string>, count: int)

  /** The count the gate compares, `None` read as 0 (app.py:178-179). */
  function Effective(count: Option<int>): (c: int)
    ensures count.None? ==> c == 0
    ensures count.Some? ==> c == count.value
  {
    count.GetOr(0)
  }

  /** One click on "Générer": `controller(file, title, count)`. */
  function Controller(file: Upload, title: string, count: Option<int>,
                      service: Request -> Completion,
                      render: seq<string> -> Rendered): (r: Outcome)
    ensures Effective(count) >= FreeLimit ==>
              r.display == QuotaMessage() && r.pdf == None && r.count == Effective(count)
    ensures Effective(count) < FreeLimit ==>
              r.count == Effective(count) + 1
              && Sheet(r.display, r.pdf) == SummarizeFile(file, title, service, render)
  {
    var c := Effective(count);
    if c >= FreeLimit then Outcome(QuotaMessage(), None, c)
    else
      var sheet := SummarizeFile(file, title, service, render);
      Outcome(sheet.display, sheet.pdf, c + 1)
  }

  /**
   * A refused click never reaches the service, the file or the renderer: its
   * outcome is the same whatever they would have done.
   */
  lemma RejectionCallsNothing(file1: Upload, title1: string, file2: Upload, title2: string,
                              count: Option<int>,
                              service1: Request -> Completion, service2: Request -> Completion,
                              render1: seq<string> -> Rendered, render2: seq<string> -> Rendered)
    requires Effective(count) >= FreeLimit
    ensures Controller(file1, title1, count, service1, render1)
            == Controller(file2, title2, count, service2, render2)
  {
  }

  /** An admitted click consumes one unit whether the summary succeeded or failed. */
  lemma AdmissionConsumesOnError(file: Upload, title: string, count: Option<int>,
                                 service: Request -> Completion, render: seq<string> -> Rendered)
    requires Effective(count) < FreeLimit
    requires service(SheetRequest(title, ReadContent(file))).Raised?
    ensures var r := Controller(file, title, count, service, render);
            r.pdf == None && r.count == Effective(count) + 1
            && r.display == ErrorText(service(SheetRequest(title, ReadContent(file))).reason)
  {
  }

  /** One click of a session: the file and title submitted. */
  datatype Click = Click(file: Upload, title: string)

  /** The count after a session's clicks, each fed the count the previous one returned. */
  function CountAfter(count: Option<int>, clicks: seq<Click>,
                      service: Request -> Completion, render: seq<string> -> Rendered): (c: int)
    ensures Effective(count) <= c
    ensures c <= if Effective(count) >= FreeLimit then Effective(count) else FreeLimit
    decreases |clicks|
  {
    if |clicks| == 0 then Effective(count)
    else
      var r := Controller(clicks[0].file, clicks[0].title, count, service, render);
      CountAfter(Some(r.count), clicks[1..], service, render)
  }

  /**
   * The count climbs by one per click up to the limit and then stays put; a
   * count already at or over the limit never moves.
   */
  lemma {:induction false} CountAfterClicks(count: Option<int>, clicks: seq<Click>,
                                            service: Request -> Completion,
                                            render: seq<string> -> Rendered)
    ensures var c := Effective(count);
            CountAfter(count, clicks, service, render)
            == if c >= FreeLimit then c
               else if c + |clicks| <= FreeLimit then c + |clicks|
               else FreeLimit
    decreases |clicks|
  {
    if |clicks| > 0 {
      var r := Controller(clicks[0].file, clicks[0].title, count, service, render);
      CountAfterClicks(Some(r.count), clicks[1..], service, render);
    }
  }

  /** A fresh session's count (`gr.State(0)`, or a missing one) never exceeds the limit, however many clicks it makes. */
  lemma {:induction false} FreshSessionBounded(clicks: seq<Click>,
                            service: Request -> Completion, render: seq<string> -> Rendered)
    ensures 0 <= CountAfter(None, clicks, service, render) <= FreeLimit
    ensures CountAfter(None, clicks, service, render) == FreeLimit <==> |clicks| >= FreeLimit
    ensures 0 <= CountAfter(Some(0), clicks, service, render) <= FreeLimit
    ensures CountAfter(Some(0), clicks, service, render) == FreeLimit <==> |clicks| >= FreeLimit
  {
    CountAfterClicks(None, clicks, service, render);
    CountAfterClicks(Some(0), clicks, service, render);
  }

  /**
   * After `FreeLimit` clicks from a fresh session, the next click is refused with
   * the quota message and no PDF, and the count stays at the limit.
   */
  lemma {:induction false} NextClickRefused(clicks: seq<Click>, next: Click,
                         service: Request -> Completion, render: seq<string> -> Rendered)
    requires |clicks| >= FreeLimit
    ensures var c := CountAfter(None, clicks, service, render);
            Controller(next.file, next.title, Some(c), service, render)
            == Outcome(QuotaMessage(), None, FreeLimit)
  {
    CountAfterClicks(None, clicks, service, render);
  }
}
