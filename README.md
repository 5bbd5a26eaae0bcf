# llmcompare in Dafny

llmcompare sends one question to three large-language-model providers (Claude, ChatGPT and Gemini) and shows their answers side by side. This project models the parts of it that decide what the user sees:

- **Back end** (`app.dfy`, module `App`): the three provider adapters and the `POST /api/query` handler. Each adapter is total. It returns the provider's text unchanged, or `"Error: " + message` when the vendor call raises. The handler refuses a blank query with a 400 carrying `"Query cannot be empty"` before any provider is asked. Otherwise it returns a record with exactly the keys `query`, `claude`, `chatgpt` and `gemini`. The query is passed on and echoed untrimmed.
- **Front end** (`script.dfy`, module `Script`):
  - `formatContent`, the chain of `replace` calls that turns an answer into HTML.
  - The `Error:` prefix test of `displayResult`.
  - The trim-and-refuse guard of `submitQuery`.
- **Shared text helpers** (`text.dfy`, module `Text`): whitespace, trimming and blankness.
- **Cross-file properties** (`comparison.dfy`, module `Comparison`): a provider failure always reaches the page as an error pane; answer panes hold only safe markup; under the shared whitespace set, whatever the browser posts passes the server's check.

The vendor SDK call is a parameter `call: ProviderRequest -> Outcome`. Its outcome is either `Answered(text)` or `Raised(message)`, where `message` stands for `str(e)`. "No provider is consulted for a blank query" is stated as: the reply is the same whatever `call` does.

Each `replace` in `formatContent` is a recursive function over `seq<char>`:
- `ReplaceAll` is a global one-character replacement.
- `CollapseBlankLines` is `/\n\n+/g`, which takes each run of newlines whole.

The chain is proved equal to `Markup`, a one-pass reading of the input. In `Markup`, each special character becomes its entity, each maximal run of two or more newlines becomes one `</p><p>`, and each single newline becomes one `<br>`. From that the model proves:
- The output is wrapped in `<p>…</p>` and contains no newline.
- Every `<` in the output opens, and every `>` closes, an inserted `<p>`, `</p>` or `<br>`.
- Every `&` begins `&amp;`, `&lt;` or `&gt;`.
- Plain text comes out as `<p>text</p>`.
- `Unformat` reads the output back to the input, with every blank-line run shortened to two newlines.

Behaviour of the code that the model keeps as written:
- `displayResult` puts error content into the page verbatim, without escaping. `DisplayResult` states this, so an error message that contains markup reaches the pane as markup.
- A provider that answers with text starting with `Error:` is shown as an error pane (`Comparison.PaneClassification`). This is because success and failure share one text field.

## Model

| member | source | states |
|---|---|---|
| Text.TrimStart | static/script.js:14 | removes exactly the longest whitespace prefix: the result is a suffix of the input, what was cut is blank, and the result does not start with whitespace |
| Text.TrimEnd | static/script.js:14 | removes exactly the longest whitespace suffix: the result is a prefix, what was cut is blank, and the result does not end with whitespace |
| Text.Trim | static/script.js:14 | the result is, character for character, the slice of the input that starts where TrimStart stops; everything before and after it is whitespace, and it neither starts nor ends with whitespace |
| Text.TrimEmptyIffBlank | llm_comparison_app.py:67 | trimming gives the empty string exactly when the input is empty or all whitespace; under the shared whitespace set the browser's trim test and the server's `strip` test therefore agree |
| Text.TrimmedNotBlank | static/script.js:14-16 | a non-empty trimmed query is not blank |
| Script.ReplaceAll | static/script.js:87-91 | `.replace(/c/g, rep)` for a one-character pattern; it has no contract of its own: ReplaceAllCons states it step by step, and ReplaceAllAbsent, ReplaceAllRemoves and ReplaceAllAppend state what follows |
| Script.ReplaceAllCons | static/script.js:87-91 | one step of a global replacement: the first character becomes `rep` if it is the pattern and is kept otherwise, then the rest is replaced |
| Script.CollapseBlankLines | static/script.js:90 | `.replace(/\n\n+/g, '</p><p>')`, taking each newline run whole; it has no contract of its own: its meaning is fixed by BodyIsMarkup (each maximal run of two or more newlines becomes exactly one `</p><p>`) |
| Script.EscapeHtml | static/script.js:87-89 | the three escaping passes, `&` first; no contract of its own: EscapeHtmlCons and EscapeHtmlWellEscaped state what it does |
| Script.ParagraphBody | static/script.js:86-91 | the `html` variable of formatContent; no contract of its own: BodyIsMarkup proves it equal to the one-pass reading |
| Script.ReplaceAllAbsent | static/script.js:87-91 | replacing a character that does not occur leaves the text unchanged |
| Script.ReplaceAllRemoves | static/script.js:91 | after every `c` is replaced by text without `c`, no `c` remains |
| Script.ReplaceAllAppend | static/script.js:87-91 | a global one-character replacement distributes over concatenation |
| Script.LeadingNewlines | static/script.js:90 | counts the maximal run of newlines at the start: all counted characters are newlines and the next one is not |
| Script.EscapeHtmlCons | static/script.js:87-89 | because `&` is replaced first, the three passes escape each character on its own and exactly once (no entity is escaped twice) |
| Script.EscapeHtmlWellEscaped | static/script.js:87-89 | after escaping no `<` or `>` remains and every `&` begins `&amp;`, `&lt;` or `&gt;` |
| Script.BodyIsMarkup | static/script.js:86-91 | the replace chain equals the one-pass reading: each maximal run of two or more newlines becomes exactly one `</p><p>`, each single newline exactly one `<br>`, every other character its entity or itself |
| Script.FormatContent | static/script.js:93 | the output starts with `<p>` and ends with `</p>` |
| Script.FormatContentIsMarkup | static/script.js:84-94 | formatContent is the one-pass reading wrapped in a single paragraph |
| Script.PlainTextUnchanged | static/script.js:86-93 | input without `&`, `<`, `>` or newline comes out as `<p>` + input + `</p>` |
| Script.FormatContentSafe | static/script.js:87-93 | the output holds no newline; every `<` opens and every `>` closes an inserted `<p>`, `</p>` or `<br>`; every `&` begins an entity |
| Script.UnformatFormatContent | static/script.js:84-94 | decoding the output gives back the input with each blank-line run shortened to two newlines: only run lengths are lost |
| Script.MarkupOfNormalize | static/script.js:90 | the length of a run of two or more newlines does not affect the output |
| Script.FormatContentEqualIff | static/script.js:90-93 | two texts format alike exactly when they agree up to the lengths of their blank-line runs |
| Script.DisplayResult | static/script.js:71-82 | content is an error pane exactly when it starts with `Error:`; error content is put in the red box verbatim, all other content goes through formatContent |
| Script.SubmitQuery | static/script.js:13-36 | input that trims to nothing gives "Please enter a question first" and no request; otherwise the trimmed, non-blank query is posted |
| App.RequestFor | llm_comparison_app.py:28-57 | each adapter sends the query unchanged as its one user message, to its own model (claude-opus-4-1-20250805, gpt-4o-mini, gemini-2.0-flash), with a 1024-token limit for Claude and ChatGPT and the provider default for Gemini |
| App.ProviderResponse | llm_comparison_app.py:25-60 | an adapter returns the provider's text unchanged on success and `Error: ` + message on an exception; it always returns and never raises |
| App.QueryLlms | llm_comparison_app.py:62-88 | 400 "Query cannot be empty" exactly for a blank query; otherwise exactly the keys query, claude, chatgpt and gemini, the untrimmed query echoed, and each provider field holding its own adapter's response to that query |
| App.BlankQueryConsultsNoProvider | llm_comparison_app.py:67-68 | for a blank query the reply does not depend on any provider at all |
| App.FieldsIsolated | llm_comparison_app.py:75-88 | a provider's field depends only on what that provider did, whatever the other two did |
| App.FailuresMarked | llm_comparison_app.py:79-88 | every failure that reaches the record starts with `Error:` |
| App.ExampleComparison | llm_comparison_app.py:62-88 | the answers "4", "Four" and "2+2=4" to "What is 2+2?" come back under their own keys beside the query |
| Comparison.FailureShownAsError | static/script.js:75-77 | a provider that raised is shown as an error pane holding `Error: ` and its message |
| Comparison.PaneClassification | static/script.js:75-80 | a pane is an error pane exactly when the provider raised or answered with text starting with `Error:`; any other answer is shown formatted |
| Comparison.AnswerPaneSafe | static/script.js:78-80 | an answer pane holds only safe markup |
| Comparison.SubmittedQueryAccepted | static/script.js:14-36 | under the shared whitespace set, a query the browser posts always passes the server's blank check, and the providers and the echoed field see the trimmed input |
| Comparison.BlankInputNeverPosted | static/script.js:14-19 | under the shared whitespace set, a blank input box gives the browser's message, and the server would refuse the same text with 400 |

## Left out

- Vendor SDK calls (`messages.create`, `chat.completions.create`, `generate_content`) are foreign network calls. They are the `call` parameter, and the text extraction (`content[0].text`, `choices[0].message.content`, `response.text`) happens inside it. A failed extraction is a `Raised` outcome.
- App.ProviderResponse: the answer is always a string. ChatGPT can return `None` message content, which the source passes on as `null`. The model does not represent that case.
- Concurrency (`ThreadPoolExecutor`, `run_in_executor`, `asyncio.gather`, `executor.shutdown`) is left out. Only the joined result is observable, so the three adapters are evaluated one after another. A provider call that hangs is not modelled.
- FastAPI routing, the `QueryRequest` model, `FileResponse`, the static mount, `load_dotenv`, environment reads and `uvicorn` startup are framework plumbing. A request with no `query` field at all is rejected by the framework's validation, so it never reaches `query_llms`.
- DOM state is left out: `innerHTML`, `className`, `style.display`, button text and disabled state, event listeners, `resetPanes` and `showError`. So are `fetch` and JSON decoding, and with them the front end's handling of a non-200 reply (static/script.js:39-53). The model returns the pane content as a `Panel` value instead of assigning it.
- Text: one ASCII whitespace set (space, tab, LF, CR, VT, FF) stands for both Python's `str.strip` and JavaScript's `trim`. The real sets are larger and differ from each other: Python also strips U+001C to U+001F and U+0085, which JavaScript keeps, and JavaScript also trims U+FEFF, which Python keeps.
- Comparison.SubmittedQueryAccepted: holds only for the shared whitespace set. With the real sets, an input box holding just U+001C is posted by the browser and refused by the server with 400.
- Comparison.BlankInputNeverPosted: holds only for the shared whitespace set. With the real sets, an input of just U+FEFF gets the browser's message, but the server would accept the same text.
- JavaScript strings are UTF-16 code units and Python strings are code points. The model uses Dafny characters for both.
