/**
 * The back end (llm_comparison_app.py): the three provider adapters and
 * the `POST /api/query` handler that validates the query, calls every
 * adapter and assembles the comparison record.
 *
 * The vendor SDK call is not modelled: it is the parameter `call`, a total
 * function from the request an adapter sends to what the provider did
 * (answered with some text, or raised an exception with some message).
 * The three adapters run one after another here; in the source they run on
 * a thread pool and are joined, which gives the same record.
 */
module App {
  import opened Text

  /** The three providers compared. */
  datatype Provider = Claude | ChatGpt | Gemini

  /** What a vendor call did: returned its answer text, or raised with `str(e)` as message. */
  datatype Outcome = Answered(text: string) | Raised(message: string)

  /** The completion limit an adapter asks for; Gemini leaves its default. */
  datatype TokenLimit = ProviderDefault | AtMost(tokens: nat)

  /** The single-turn request an adapter sends to its vendor. */
  datatype ProviderRequest = ProviderRequest(provider: Provider, model: string, limit: TokenLimit, prompt: string)

  /** The vendor SDK, standing outside the model. */
  type ProviderCall = ProviderRequest -> Outcome

  /** Model identifier and token limit of each adapter. */
  function ModelOf(p: Provider): string {
    match p
    case Claude => "claude-opus-4-1-20250805"
    case ChatGpt => "gpt-4o-mini"
    case Gemini => "gemini-2.0-flash"
  }

  function LimitOf(p: Provider): TokenLimit {
    match p
    case Claude => AtMost(1024)
    case ChatGpt => AtMost(1024)
    case Gemini => ProviderDefault
  }

  /** The request adapter `p` builds: its own model and limit, and the query as the one user message. */
  function RequestFor(p: Provider, query: string): (req: ProviderRequest)
    ensures req.provider == p && req.prompt == query
    ensures req.limit == (if p == Gemini then ProviderDefault else AtMost(1024))
    ensures req.model == match p
      case Claude => "claude-opus-4-1-20250805"
      case ChatGpt => "gpt-4o-mini"
      case Gemini => "gemini-2.0-flash"
  {
    ProviderRequest(p, ModelOf(p), LimitOf(p), query)
  }

  /** The marker every adapter puts in front of an exception's message. */
  const ErrorMarker: string := "Error: "

  /**
   * get_claude_response, get_chatgpt_response and get_gemini_response: the
   * provider's text unchanged on success; on any exception the string
   * `Error: ` followed by its message. The adapter never fails.
   */
  function ProviderResponse(p: Provider, call: ProviderCall, query: string): (r: string)
    ensures call(RequestFor(p, query)).Answered? ==> r == call(RequestFor(p, query)).text
    ensures call(RequestFor(p, query)).Raised? ==> r == ErrorMarker + call(RequestFor(p, query)).message && "Error:" <= r
  {
    match call(RequestFor(p, query))
    case Answered(text) => text
    case Raised(message) =>
      var r := ErrorMarker + message;
      assert r[..6] == "Error:";
      r
  }

  /** The key under which each provider's answer is returned. */
  function FieldName(p: Provider): string {
    match p
    case Claude => "claude"
    case ChatGpt => "chatgpt"
    case Gemini => "gemini"
  }

  /** Reply of `POST /api/query`: a 400 with a detail, or the comparison record as a JSON object. */
  datatype Reply = HttpError(status: nat, detail: string) | Comparison(body: map<string, string>)

  /**
   * query_llms: a blank query is refused with 400 before any provider is
   * asked; otherwise the record holds the query as received and, under its
   * own key, each adapter's response to that same query.
   */
  function QueryLlms(query: string, call: ProviderCall): (reply: Reply)
    ensures reply.HttpError? <==> IsBlank(query)
    ensures reply.HttpError? ==> reply.status == 400 && reply.detail == "Query cannot be empty"
    ensures reply.Comparison? ==>
      reply.body.Keys == {"query", "claude", "chatgpt", "gemini"}
      && reply.body["query"] == query
      && forall p: Provider :: reply.body[FieldName(p)] == ProviderResponse(p, call, query)
  {
    if query == [] || IsBlank(query) then HttpError(400, "Query cannot be empty")
    else
      var claude := ProviderResponse(Claude, call, query);
      var chatgpt := ProviderResponse(ChatGpt, call, query);
      var gemini := ProviderResponse(Gemini, call, query);
      Comparison(map["query" := query, "claude" := claude, "chatgpt" := chatgpt, "gemini" := gemini])
  }

  /** A blank query is answered without consulting any provider: the reply is the same whatever they would do. */
  lemma BlankQueryConsultsNoProvider(query: string, call1: ProviderCall, call2: ProviderCall)
    requires IsBlank(query)
    ensures QueryLlms(query, call1) == QueryLlms(query, call2)
  {
  }

  /** Each provider's field depends only on what that provider did with the query. */
  lemma FieldsIsolated(query: string, call1: ProviderCall, call2: ProviderCall, p: Provider)
    requires !IsBlank(query)
    requires call1(RequestFor(p, query)) == call2(RequestFor(p, query))
    ensures QueryLlms(query, call1).body[FieldName(p)] == QueryLlms(query, call2).body[FieldName(p)]
  {
  }

  /** Every failure that reaches the record is marked with the `Error:` prefix. */
  lemma FailuresMarked(query: string, call: ProviderCall, p: Provider)
    requires !IsBlank(query)
    requires call(RequestFor(p, query)).Raised?
    ensures "Error:" <= QueryLlms(query, call).body[FieldName(p)]
  {
  }

  /** The end-to-end example: three mocked answers come back under their own keys beside the query. */
  lemma ExampleComparison(call: ProviderCall)
    requires call(RequestFor(Claude, "What is 2+2?")) == Answered("4")
    requires call(RequestFor(ChatGpt, "What is 2+2?")) == Answered("Four")
    requires call(RequestFor(Gemini, "What is 2+2?")) == Answered("2+2=4")
    ensures QueryLlms("What is 2+2?", call)
      == Comparison(map["query" := "What is 2+2?", "claude" := "4", "chatgpt" := "Four", "gemini" := "2+2=4"])
  {
    assert !IsWhitespace("What is 2+2?"[0]);
  }
}
