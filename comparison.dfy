/**
 * Properties that join the two halves of the application: what the back
 * end puts in the comparison record, and how the browser shows it.
 */
module Comparison {
  import opened Text
  import opened Script
  import opened App

  /** The pane the browser shows for provider `p` after posting `query`. */
  function PaneFor(query: string, call: ProviderCall, p: Provider): Panel
    requires !IsBlank(query)
  {
    DisplayResult(QueryLlms(query, call).body[FieldName(p)])
  }

  /** A provider that raised always reaches the page as an error pane showing `Error: ` and its message. */
  lemma FailureShownAsError(query: string, call: ProviderCall, p: Provider)
    requires !IsBlank(query)
    requires call(RequestFor(p, query)).Raised?
    ensures PaneFor(query, call, p) == ErrorPanel(Script.ErrorBoxOpen + (App.ErrorMarker + call(RequestFor(p, query)).message) + "</div>")
  {
    var content := QueryLlms(query, call).body[FieldName(p)];
    assert content == ProviderResponse(p, call, query);
  }

  /**
   * The pane is an error pane exactly when the provider raised, or when it
   * answered with text that itself starts with `Error:`; every other answer
   * is shown formatted.
   */
  lemma PaneClassification(query: string, call: ProviderCall, p: Provider)
    requires !IsBlank(query)
    ensures PaneFor(query, call, p).ErrorPanel?
      <==> call(RequestFor(p, query)).Raised? || Script.ErrorPrefix <= call(RequestFor(p, query)).text
    ensures call(RequestFor(p, query)).Answered? && !(Script.ErrorPrefix <= call(RequestFor(p, query)).text) ==>
      PaneFor(query, call, p) == AnswerPanel(FormatContent(call(RequestFor(p, query)).text))
  {
    if call(RequestFor(p, query)).Raised? {
      FailureShownAsError(query, call, p);
    }
  }

  /** A formatted answer pane holds only safe markup: no raw angle bracket from the provider's text. */
  lemma AnswerPaneSafe(content: string)
    requires DisplayResult(content).AnswerPanel?
    ensures SafeMarkup(DisplayResult(content).html)
  {
    FormatContentSafe(content);
  }

  /**
   * Under the shared whitespace set, whatever the browser posts passes the
   * server's check, and the providers and the echoed `query` field all see
   * the trimmed text of the input box.
   */
  lemma SubmittedQueryAccepted(input: string, call: ProviderCall, p: Provider)
    requires !IsBlank(input)
    ensures SubmitQuery(input) == PostQuery(Trim(input))
    ensures QueryLlms(Trim(input), call).Comparison?
    ensures QueryLlms(Trim(input), call).body["query"] == Trim(input)
    ensures QueryLlms(Trim(input), call).body[FieldName(p)] == ProviderResponse(p, call, Trim(input))
  {
  }

  /** Under the shared whitespace set, a blank input box never reaches the server, and the server would refuse it too. */
  lemma BlankInputNeverPosted(input: string, call: ProviderCall)
    requires IsBlank(input)
    ensures SubmitQuery(input) == ShowError("Please enter a question first")
    ensures QueryLlms(input, call) == HttpError(400, "Query cannot be empty")
  {
  }
}
