# RoleReady in Dafny

RoleReady tailors a resume to a job description. A Next.js page
(`frontend/src/app/page.tsx`) sends a PDF resume, the job description and
an optional role title to a FastAPI server (`backend/app/main.py`). The
server does the following:

- extracts and caps the resume text;
- builds a prompt for a language-model agent;
- maps the agent's failures to HTTP errors;
- returns the agent's structured report.

The page stores either that report or an error message, then renders the
report with a colour-coded fit-score badge.

This project models the logic of both sides and proves what it promises.

- `wrappers.dfy` (module `Wrappers`): `Option` and `Result`.
- `text.dfy` (module `Text`): the string operations both sides use:
  - JavaScript's `trim()` and Python's `strip()`. They are one function
    over a whitespace set, with one set per language (`JsSpaces`,
    `PySpaces`), because the two languages disagree on what whitespace is.
  - Python's `split(",")` and `join`.
  - The comprehension that strips every part and drops the empty ones
    (`CleanParts`).
- `page.dfy` (module `Page`):
  - The submit handler, as the class `Session` over the page's three state
    cells `error`, `result` and `loading`.
  - The fit badge.
  - The empty-list fallback of `ListBlock`.
- `backend.dfy` (module `Backend`):
  - The CORS origin list.
  - `extract_pdf_text`, as a specification function `PdfText` and the page
    loop `ExtractPdfText` proved equal to it.
  - The prompt, the agent-error mapping, the response body, and
    `analyze_resume` as a whole.
- `wire.dfy` (module `Wire`): the HTTP boundary. It shows which text the
  page displays for each way the server can answer.

How the outside world enters the model:

- `fetch`'s outcome is a `Transport` value handed to the handler.
- pypdf is the list of what each page's `extract_text()` did. It is `None`
  when `PdfReader` itself raises.
- The agent is a function from prompt to outcome.
- The clock is the elapsed milliseconds, handed in.
- A response the browser hides from the page becomes a thrown `TypeError`.
  Its message is handed in, because each browser words it differently.

### Behaviour of the code worth knowing

- **No last-response-wins guard.** `Session.Settle` applies any outcome,
  whichever request it belongs to. `Page.LateOutcomeIsApplied` shows two
  overlapping submissions that end with both `result` and `error` set.
  Only the disabled button (page.tsx:161) keeps a second submit from
  overlapping the first.
- **A validation failure still clears the previous result.** The handler
  clears `error` and `result` before it validates (page.tsx:37-38), so
  `Session.Begin` and `Session.Submit` promise `result == None` whenever
  validation fails.
- **Model errors show as "[object Object]".** The server's 502 details are
  JSON objects, not strings (main.py:118-131). The page passes `detail` to
  `new Error`, so the user sees "[object Object]"
  (`Wire.UpstreamErrorsShowObjectText`).
- **A corrupt PDF shows the browser's fetch failure.** A PDF that `PdfReader`
  cannot open raises outside any `HTTPException`. The framework answers
  that with a 500 that has no CORS headers, so the cross-origin page shows
  the browser's fetch failure instead of a message from the server
  (`Wire.CorruptPdfShowsFetchFailure`). This rests on Starlette placing its
  outermost error handler outside the user middleware.
- **A page whose origin is not allowed sees only fetch failures.** When
  `ALLOWED_ORIGINS` lists origins without the page's own, the browser hides
  every answer, successes included, and the page shows only its fetch
  failure (`Wire.BlockedPageSeesOnlyFetchFailure`).
- **An `Error` with an empty message is stored as it is.** A thrown `Error`
  whose message is empty leaves `error == Some("")`, because
  `CaughtMessage` keeps the message unchanged, as the handler does.

## Model

| member | source | states |
|---|---|---|
| Text.TrimStart | backend/app/main.py:61 | The result is a suffix of the input. Every dropped character is whitespace, and the result does not start with whitespace. |
| Text.TrimEnd | backend/app/main.py:61 | The result is a prefix of the input. Every dropped character is whitespace, and the result does not end with whitespace. |
| Text.Strip | frontend/src/app/page.tsx:44 | A non-empty result has no whitespace at either end. The result is empty exactly when every character is whitespace. An already clean string is unchanged. |
| Text.StripIsInfix | backend/app/main.py:88 | Stripping returns a contiguous piece `s[i..j]`, and everything outside that piece is whitespace. |
| Text.StripKeepsOut | backend/app/main.py:61 | Stripping removes characters but never adds one: a character absent from the input is absent from the result. |
| Text.StripIdempotent | backend/app/main.py:88 | Stripping twice is the same as stripping once. |
| Text.Take | backend/app/main.py:91 | A slice `s[:n]` has length `min(len(s), n)` and is a prefix of `s`. |
| Text.Split | backend/app/main.py:61 | `split(",")` gives at least one piece. No piece holds the separator, and joining the pieces with the separator gives back the input. |
| Text.Join | backend/app/main.py:88 | `sep.join(xs)` of no parts is empty. Otherwise its length is the total part length plus one separator between each pair of neighbours, it starts with the first part, and with two or more parts the separator follows the first part. |
| Text.SplitNoSeparator | backend/app/main.py:61 | A string without the separator splits into itself alone. |
| Text.SplitAfterPiece | backend/app/main.py:61 | Splitting `p + "," + t` gives `p` followed by the pieces of `t`. |
| Text.SplitJoin | backend/app/main.py:61 | Splitting undoes joining when no piece holds the separator. |
| Text.JoinPrependsToFirst | backend/app/main.py:88 | Prepending to the first piece prepends to the joined string. |
| Text.CleanParts | backend/app/main.py:88 | The comprehension never yields more parts than it was given. Every part it yields is non-empty and has no whitespace at either end. |
| Text.CleanPartsAppend | backend/app/main.py:88 | The comprehension keeps the order of the parts: it distributes over concatenation. |
| Text.CleanPartsSingle | backend/app/main.py:88 | A single part is kept, stripped, exactly when it strips to something non-empty. |
| Text.CleanPartsDropsBlank | backend/app/main.py:88 | Inserting a part that strips to nothing does not change the result. |
| Text.CleanPartsEmptyIff | backend/app/main.py:88-89 | The comprehension yields nothing exactly when every part strips to nothing. |
| Text.AllBlankCons | backend/app/main.py:88 | Every part is blank exactly when the first part is blank and every remaining part is blank. |
| Text.CleanPartsKeepOut | backend/app/main.py:61 | Stripping adds no character: parts without a comma stay without one. |
| Text.CleanPartsOfClean | backend/app/main.py:61 | Parts that are already stripped and non-empty pass through unchanged. |
| Text.JoinEmptyIff | backend/app/main.py:88-89 | A join of non-empty parts is empty exactly when there are no parts. |
| Text.JoinEdges | backend/app/main.py:88 | A join of non-empty parts starts with the first part's first character and ends with the last part's last character. |
| Page.FitBadge | frontend/src/app/page.tsx:27-33 | There is no badge exactly when there is no result. Otherwise the tier is emerald exactly for a score of 80 or more, amber exactly for 60 to 79, and rose exactly below 60. |
| Page.Badge.ClassName | frontend/src/app/page.tsx:30-32 | Each tier has its own Tailwind class string, and each class string belongs to exactly one tier. |
| Page.ClassNamesDistinct | frontend/src/app/page.tsx:30-32 | Two tiers have the same class string exactly when they are the same tier. |
| Page.FitBadgeMonotone | frontend/src/app/page.tsx:27-33 | A higher score never earns a lower tier. |
| Page.ListBlock | frontend/src/app/page.tsx:334-346 | A missing or empty list renders the placeholder "No content yet.". Any other list renders its items, unchanged and in order. |
| Page.ValidationError | frontend/src/app/page.tsx:40-47 | A missing resume gives the resume message, whatever the job description is. With a resume, the job-description message appears exactly when the trimmed description is empty. Passing means there is a resume and the trimmed description is clean and non-empty. |
| Page.ValidationPassesIff | frontend/src/app/page.tsx:40-47 | Validation passes exactly when there is a resume and the job description has a non-whitespace character. |
| Page.TrimEmptyIffBlank | frontend/src/app/page.tsx:44 | `trim()` is empty exactly when the string has no non-whitespace character. |
| Page.Payload | frontend/src/app/page.tsx:49-54 | The body holds the resume, then the job description untrimmed. A role title follows exactly when its trimmed form is non-empty, and it is sent trimmed. |
| Page.PayloadTitleIff | frontend/src/app/page.tsx:52-54 | A `role_title` part is present exactly when the title has a non-whitespace character. |
| Page.BuildFormData | frontend/src/app/page.tsx:49-54 | The parts appended one by one are exactly `Payload`. |
| Page.HttpErrorMessage | frontend/src/app/page.tsx:63-66 | A non-empty string `detail` becomes the message. An unparsable body, a missing detail or an empty one gives "Something went wrong.", and an object detail gives "[object Object]". The message is never empty. |
| Page.CaughtMessage | frontend/src/app/page.tsx:70-73 | An `Error` keeps its own message. Any other thrown value gives "Unexpected error occurred.". |
| Page.Settlement | frontend/src/app/page.tsx:57-76 | Exactly one of `result` and `error` is set. `result` is set exactly for an ok response and holds its body. A non-ok response stores the HTTP error message, and a thrown value stores the caught message. |
| Page.HttpErrorsAlwaysShowAMessage | frontend/src/app/page.tsx:63-73 | Every non-ok response leaves a non-empty error message and no result. |
| Page.Session.constructor | frontend/src/app/page.tsx:23-25 | The page starts with no error, no result and not loading. |
| Page.Session.Begin | frontend/src/app/page.tsx:36-56 | Clears the result. On a validation failure it sends nothing, stores the validation message and leaves `loading` untouched. Otherwise it sends `Payload`, clears the error and sets `loading`. |
| Page.Session.Settle | frontend/src/app/page.tsx:57-76 | Writes the cell that `Settlement` sets, keeps the other one, and always lowers `loading`. |
| Page.Session.Submit | frontend/src/app/page.tsx:35-77 | A request is sent exactly when validation passes, and its body is `Payload`. On a validation failure: the validation message, no result, and `loading` unchanged. Otherwise the cells end as `Settlement` of the outcome, with `loading` false. |
| Page.LateOutcomeIsApplied | frontend/src/app/page.tsx:56-76 | With two requests in flight, a success followed by any failure of the older request (a non-ok response or a thrown value) leaves `result` holding the report and `error` holding that failure's message. Nothing guards against an out-of-order response. |
| Backend.Origins | backend/app/main.py:60-61 | An unset `ALLOWED_ORIGINS`, or exactly "*", gives `["*"]`. Otherwise every origin is non-empty, stripped and comma-free. |
| Backend.OriginsRoundTrip | backend/app/main.py:60-61 | A comma-joined list of stripped, non-empty, comma-free origins is read back exactly, and an empty setting gives no origins. |
| Backend.PageTexts | backend/app/main.py:81-87 | There are never more texts than pages, and exactly one per page when no page raises. |
| Backend.PageTextsAppend | backend/app/main.py:82-87 | The page loop keeps page order: it distributes over concatenation. |
| Backend.PageTextsOfBlank | backend/app/main.py:84 | A page that returns text, or `None` read as "", contributes exactly that text in its place. |
| Backend.JoinedText | backend/app/main.py:88 | The joined text is empty exactly when every page text is blank. |
| Backend.JoinedTextHasCleanEdges | backend/app/main.py:88 | A non-empty joined text has no whitespace at either end. |
| Backend.PdfText | backend/app/main.py:72-91 | A missing or non-PDF content type gives a 400 "Resume must be a PDF file", whatever the data. Otherwise empty data gives a 400 "Could not read PDF content". Otherwise a reader that raises gives an unhandled failure, and a join of the first 12 pages that is empty gives a 400 "No extractable text found in PDF". Otherwise the result is a success: a prefix of the join, exactly `min(len(joined), 20000)` characters long. |
| Backend.NoTextIffAllBlank | backend/app/main.py:82-90 | A readable PDF is refused for lack of text exactly when every page among the first 12 that did not raise is blank. |
| Backend.ExtractPdfText | backend/app/main.py:72-91 | The page loop over the first 12 pages, with its skips, the join, the checks and the cap, computes exactly `PdfText`. |
| Backend.RaisingPageIsSkipped | backend/app/main.py:83-87 | A page whose extraction raises changes nothing. |
| Backend.BlankPageIsDropped | backend/app/main.py:84-88 | A page with no text, or only whitespace, leaves the joined text as it was. |
| Backend.OnlyFirstPagesMatter | backend/app/main.py:82 | Documents that agree on their first 12 pages give the same result. |
| Backend.PdfTextHasCleanEdges | backend/app/main.py:88-91 | Extracted text never starts with whitespace. When the cap does not cut it, it is the exact join and has no whitespace at either end. |
| Backend.RoleLabel | backend/app/main.py:109 | A non-empty role title is shown as given. A missing or empty one shows "Not specified". The label is never empty. |
| Backend.Prompt | backend/app/main.py:108-112 | The prompt is "ROLE TITLE: " and the label, then "\n\nJOB DESCRIPTION:\n" and at most the first 6000 characters of the job description, then "\n\nRESUME:\n" and the resume text. Each header's content and position is fixed, and the length is the sum of the parts. |
| Backend.PromptIsBounded | backend/app/main.py:91 | The prompt is at most the three headers, the role label, 6000 and 20000 characters long, whatever the lengths of the job description and the PDF text. The role title itself is not capped. |
| Backend.AgentFailure | backend/app/main.py:114-133 | Status 502 comes exactly for model API errors, which include model HTTP errors, and status 500 for every other exception. Each case carries the detail its handler builds. |
| Backend.ModelHttpErrorIsApiError | backend/app/main.py:116-127 | A model HTTP error is also a model API error. Only the order of the clauses gives it the `upstream_model_error` detail. |
| Backend.Respond | backend/app/main.py:135-145 | The six report fields are copied unchanged and the score stays in 0..100, plus the elapsed time. |
| Backend.AnalyzeResume | backend/app/main.py:99-145 | A PDF failure is returned as it is, and the result does not depend on the agent. Otherwise the agent runs on exactly `Prompt`. Its failure maps to `AgentFailure`, and its output becomes `Respond`. |
| Wire.ErrorBodyOf | frontend/src/app/page.tsx:63-65 | An `HTTPException` detail reaches the page as text exactly when it is a string; the structured details reach it as objects. |
| Wire.ReportOf | frontend/src/app/page.tsx:68-69 | The page stores the server's fields unchanged, with the elapsed time present. |
| Wire.Delivered | frontend/src/app/page.tsx:57-69 | If the page's origin is not allowed, every answer arrives as the browser's thrown fetch failure. If it is allowed, the handler sees an ok response exactly when the server succeeds, and an `HTTPException` arrives as a non-ok response with its detail. Any other server exception always arrives as the fetch failure. |
| Wire.PageAllowed | backend/app/main.py:60-69 | A page's origin is allowed exactly when the parsed origin list holds "*" or that origin; an unset setting or "*" allows every page. |
| Wire.DefaultSettingAllowsEveryPage | backend/app/main.py:60-69 | An unset `ALLOWED_ORIGINS`, or one set to "*", allows a page on any origin. |
| Wire.ListedOriginIsAllowed | backend/app/main.py:60-69 | A page whose origin appears in a comma-separated setting of stripped, non-empty, comma-free origins is allowed. |
| Wire.BlockedPageSeesOnlyFetchFailure | backend/app/main.py:63-69 | When the setting does not allow the page's origin, every answer, including a success, leaves only the fetch failure as the page's error, with no result. |
| Wire.PdfErrorsReachThePage | backend/app/main.py:73-90 | On a page whose origin is allowed, every `HTTPException` raised for the upload is a 400 whose own message becomes the page's error, with no result. |
| Wire.CorruptPdfShowsFetchFailure | backend/app/main.py:80 | Whether or not the origin is allowed, a PDF the reader cannot open leaves the browser's fetch failure as the page's error, with no result. |
| Wire.UpstreamErrorsShowObjectText | backend/app/main.py:116-131 | On an allowed page, model errors reach the user as "[object Object]". |
| Wire.AgentFailureShowsItsMessage | backend/app/main.py:132-133 | On an allowed page, any other agent failure shows "Agent failed: " followed by the exception text. |
| Wire.CompletedAnalysisGetsBadge | frontend/src/app/page.tsx:27-33 | On an allowed page, a completed analysis is stored as the server sent it, with its score unchanged. It always earns a badge, and it is emerald exactly for a score of 80 or more. |

## Left out

- Network, file, environment and framework I/O. `fetch`, `FormData`, `response.json()`, FastAPI routing and the CORS middleware's code are not modelled; its allow decision is `Wire.PageAllowed`. What the model sees is the `Transport` value, the `ALLOWED_ORIGINS` string and the parsed upload.
- PDF parsing. pypdf is replaced by the list of per-page outcomes. `reader.pages[:12]` raising is folded into `PdfReader` raising, and both become `Unhandled`.
- The language model and the agent library are not modelled. The agent is a function from prompt to outcome. The system prompt, the schema validation and `build_agent`'s missing-key failure at start-up are outside the model.
- Backend.AnalyzeResume: does not model the timing. `round((time.time() - start) * 1000)` is floating point, so the elapsed milliseconds are a parameter.
- Backend.AnalyzeResume: does not model FastAPI's check that the job description has at least 20 characters. That check happens before the handler runs and fails with a 422.
- Backend.PdfText: does not model the `max_pages` parameter. The only call site uses its default of 12, which is the constant `MaxPages`, so negative slice bounds never arise.
- Wire.ErrorBodyOf: does not model the 422 bodies. Their `detail` is a list, which the page also turns into "[object Object]"-style text.
- Non-integer scores: `fit_score` is a JSON number on the page. Only integers are modelled, as the server sends.
- Rendering is not modelled: the JSX layout, the button label and the KB display of the file size. The badge, the list fallback and the error cell are modelled as values.
- Concurrency is not modelled as interleaving. Two overlapping submissions are shown only as sequential calls of `Begin` and `Settle`, as in `Page.LateOutcomeIsApplied`.
- Wire.Delivered: models a page and a server on different origins, as `API_BASE` and the CORS middleware set them up. Whether the page's origin is allowed is computed from `Backend.Origins`. Behind a same-origin proxy, an unhandled 500 would reach the page as an unparsable body and show "Something went wrong." instead. The browser's fetch-failure text is a parameter, because each browser words it its own way.
- Backend.Respond: copies the agent's fields into the response, so its contract lists them one by one. The partner that gives it meaning is `Wire.CompletedAnalysisGetsBadge`, on the page side.
