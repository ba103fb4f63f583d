/**
 * The server of backend/app/main.py, without FastAPI, pypdf or the model
 * client: the CORS origin list, the PDF text assembly and its checks, the
 * prompt, the mapping of agent failures to HTTP errors and the response body.
 *
 * The agent is a function from prompt to outcome, the PDF reader the list
 * of what each page's `extract_text()` did, and the clock the elapsed
 * milliseconds handed in.
 */
module Backend {
  import opened Wrappers
  import opened Text

  newtype byte = x: int | 0 <= x < 256

  // ------------------------------------------------------------ origins

  /** `ALLOWED_ORIGINS` as `os.getenv` returns it, `None` when unset. */
  function Origins(allowedOrigins: Option<string>): (origins: seq<string>)
    ensures allowedOrigins.None? || allowedOrigins == Some("*") ==> origins == ["*"]
    ensures AllClean(origins, PySpaces) && NoneContains(origins, ',')
  {
    var raw := allowedOrigins.GetOr("*");
    if raw == "*" then ["*"]
    else
      var parts := Split(raw, ',');
      CleanPartsKeepOut(parts, ',', PySpaces);
      CleanParts(parts, PySpaces)
  }

  /** A comma-separated list of clean, comma-free origins is read back exactly. */
  lemma OriginsRoundTrip(xs: seq<string>)
    requires AllClean(xs, PySpaces) && NoneContains(xs, ',')
    ensures Origins(Some(Join(xs, ","))) == xs
  {
    var raw := Join(xs, ",");
    if xs == [] {
      assert Split(raw, ',') == [""];
    } else {
      SplitJoin(xs, ',');
      if raw == "*" {
        SplitNoSeparator("*", ',');
      } else {
        CleanPartsOfClean(xs, PySpaces);
      }
    }
  }

  // ------------------------------------------------------------ PDF text

  const PdfContentTypes: set<string> := {"application/pdf", "application/octet-stream"}
  const MaxPages: nat := 12
  const MaxResumeChars: nat := 20000

  /** What one page's `extract_text()` did: raise, or return a string or `None`. */
  datatype PageText = Raised | Extracted(text: Option<string>)

  /** The uploaded file: its declared content type and its bytes. */
  datatype Upload = Upload(contentType: Option<string>, data: seq<byte>)

  /** The `detail` of an `HTTPException`. */
  datatype Detail =
    | Message(text: string)
    | UpstreamModelError(error: string, upstreamStatusCode: int, model: string, body: Option<string>)
    | UpstreamApiError(error: string, model: string, message: string)

  /** How a request fails: an `HTTPException`, or another exception the framework answers with status 500. */
  datatype ApiError = HttpException(statusCode: int, detail: Detail) | Unhandled

  /** `text_parts`: the text of every page that did not raise, `None` read as "". */
  function PageTexts(pages: seq<PageText>): (parts: seq<string>)
    ensures |parts| <= |pages|
    ensures (forall i :: 0 <= i < |pages| ==> pages[i].Extracted?) ==> |parts| == |pages|
  {
    if pages == [] then []
    else
      var last := pages[|pages| - 1];
      PageTexts(pages[..|pages| - 1]) + (if last.Raised? then [] else [last.text.GetOr("")])
  }

  /** `"\n".join(part.strip() for part in text_parts if part.strip())`. */
  function JoinedText(parts: seq<string>): (joined: string)
    ensures joined == [] <==> AllBlank(parts, PySpaces)
  {
    var kept := CleanParts(parts, PySpaces);
    CleanPartsEmptyIff(parts, PySpaces);
    JoinEmptyIff(kept, "\n");
    Join(kept, "\n")
  }

  /** The joined text neither starts nor ends with white space. */
  lemma JoinedTextHasCleanEdges(parts: seq<string>)
    requires JoinedText(parts) != []
    ensures IsCleanPart(JoinedText(parts), PySpaces)
  {
    var kept := CleanParts(parts, PySpaces);
    JoinEmptyIff(kept, "\n");
    JoinEdges(kept, "\n");
  }

  /** What `extract_pdf_text` returns or raises; `reader` is `None` when `PdfReader` itself raises. */
  function PdfText(upload: Upload, reader: Option<seq<PageText>>): (r: Result<string, ApiError>)
    ensures upload.contentType.None? || upload.contentType.value !in PdfContentTypes ==>
      r == Failure(HttpException(400, Message("Resume must be a PDF file")))
    ensures upload.contentType.Some? && upload.contentType.value in PdfContentTypes && upload.data == [] ==>
      r == Failure(HttpException(400, Message("Could not read PDF content")))
    ensures upload.contentType.Some? && upload.contentType.value in PdfContentTypes && upload.data != [] &&
            reader.Some? && JoinedText(PageTexts(Take(reader.value, MaxPages))) == [] ==>
      r == Failure(HttpException(400, Message("No extractable text found in PDF")))
    ensures upload.contentType.Some? && upload.contentType.value in PdfContentTypes && upload.data != [] ==>
      && (reader.None? ==> r == Failure(Unhandled))
      && (reader.Some? && JoinedText(PageTexts(Take(reader.value, MaxPages))) != [] ==>
            var joined := JoinedText(PageTexts(Take(reader.value, MaxPages)));
            r.Success? && |r.value| == if |joined| <= MaxResumeChars then |joined| else MaxResumeChars)
    ensures r.Success? ==> reader.Some? && 0 < |r.value| <= MaxResumeChars
    ensures r.Success? ==> var joined := JoinedText(PageTexts(Take(reader.value, MaxPages)));
      |r.value| <= |joined| && r.value == joined[..|r.value|] &&
      (|joined| <= MaxResumeChars ==> r.value == joined)
  {
    if upload.contentType.None? || upload.contentType.value !in PdfContentTypes then
      Failure(HttpException(400, Message("Resume must be a PDF file")))
    else if upload.data == [] then
      Failure(HttpException(400, Message("Could not read PDF content")))
    else if reader.None? then
      Failure(Unhandled)
    else
      var joined := JoinedText(PageTexts(Take(reader.value, MaxPages)));
      if joined == [] then Failure(HttpException(400, Message("No extractable text found in PDF")))
      else Success(Take(joined, MaxResumeChars))
  }

  /** `extract_pdf_text`: the page loop that fills `text_parts`, then the join, the checks and the cap. */
  method ExtractPdfText(upload: Upload, reader: Option<seq<PageText>>) returns (r: Result<string, ApiError>)
    ensures r == PdfText(upload, reader)
  {
    if upload.contentType.None? || upload.contentType.value !in PdfContentTypes {
      return Failure(HttpException(400, Message("Resume must be a PDF file")));
    }
    var data := upload.data;
    if data == [] {
      return Failure(HttpException(400, Message("Could not read PDF content")));
    }
    if reader.None? {
      return Failure(Unhandled);
    }
    var pages := Take(reader.value, MaxPages);
    var textParts: seq<string> := [];
    for i := 0 to |pages|
      invariant textParts == PageTexts(pages[..i])
    {
      assert pages[..i + 1][..i] == pages[..i];
      if pages[i].Raised? {
        continue;
      }
      textParts := textParts + [pages[i].text.GetOr("")];
    }
    assert pages[..|pages|] == pages;
    var joined := JoinedText(textParts);
    if joined == [] {
      return Failure(HttpException(400, Message("No extractable text found in PDF")));
    }
    return Success(Take(joined, MaxResumeChars));
  }

  lemma {:induction false} PageTextsAppend(a: seq<PageText>, b: seq<PageText>)
    ensures PageTexts(a + b) == PageTexts(a) + PageTexts(b)
    decreases |b|
  {
    if b == [] {
      assert a + b == a;
    } else {
      var b' := b[..|b| - 1];
      assert (a + b)[..|a + b| - 1] == a + b';
      assert b[..|b| - 1] == b';
      PageTextsAppend(a, b');
    }
  }

  /** A page whose extraction raises is skipped: it changes nothing. */
  lemma RaisingPageIsSkipped(before: seq<PageText>, after: seq<PageText>)
    ensures PageTexts(before + [Raised] + after) == PageTexts(before + after)
  {
    PageTextsAppend(before + [Raised], after);
    PageTextsAppend(before, [Raised]);
    PageTextsAppend(before, after);
    assert [Raised][..0] == [];
  }

  /** A page with no text, or only white space, leaves the joined text as it was. */
  lemma BlankPageIsDropped(before: seq<PageText>, text: Option<string>, after: seq<PageText>)
    requires text.None? || Strip(text.value, PySpaces) == []
    ensures JoinedText(PageTexts(before + [Extracted(text)] + after)) == JoinedText(PageTexts(before + after))
  {
    var t := text.GetOr("");
    var a, b := PageTexts(before), PageTexts(after);
    PageTextsOfBlank(before, text, after);
    assert PageTexts(before + [Extracted(text)] + after) == a + [t] + b;
    assert PageTexts(before + after) == a + b by { PageTextsAppend(before, after); }
    CleanPartsDropsBlank(a, t, b, PySpaces);
  }

  lemma PageTextsOfBlank(before: seq<PageText>, text: Option<string>, after: seq<PageText>)
    ensures PageTexts(before + [Extracted(text)] + after) ==
            PageTexts(before) + [text.GetOr("")] + PageTexts(after)
  {
    PageTextsAppend(before + [Extracted(text)], after);
    PageTextsAppend(before, [Extracted(text)]);
    assert [Extracted(text)][..0] == [];
  }

  /** Pages after the twelfth are never consulted. */
  lemma OnlyFirstPagesMatter(upload: Upload, p1: seq<PageText>, p2: seq<PageText>)
    requires Take(p1, MaxPages) == Take(p2, MaxPages)
    ensures PdfText(upload, Some(p1)) == PdfText(upload, Some(p2))
  {
  }

  /** Successful text never starts with white space, and when the cap does not cut it, it is the whole join and has none at either end. */
  lemma PdfTextHasCleanEdges(upload: Upload, pages: seq<PageText>)
    requires PdfText(upload, Some(pages)).Success?
    ensures PdfText(upload, Some(pages)).value[0] !in PySpaces
    ensures |JoinedText(PageTexts(Take(pages, MaxPages)))| <= MaxResumeChars ==>
      PdfText(upload, Some(pages)).value == JoinedText(PageTexts(Take(pages, MaxPages))) &&
      IsCleanPart(PdfText(upload, Some(pages)).value, PySpaces)
  {
    JoinedTextHasCleanEdges(PageTexts(Take(pages, MaxPages)));
  }

  /** A PDF is refused for lack of text exactly when every page that did not raise is blank. */
  lemma NoTextIffAllBlank(upload: Upload, pages: seq<PageText>)
    requires upload.contentType.Some? && upload.contentType.value in PdfContentTypes && upload.data != []
    ensures PdfText(upload, Some(pages)) == Failure(HttpException(400, Message("No extractable text found in PDF")))
      <==> AllBlank(PageTexts(Take(pages, MaxPages)), PySpaces)
  {
    var joined := JoinedText(PageTexts(Take(pages, MaxPages)));
    if joined == [] {
      assert PdfText(upload, Some(pages)) == Failure(HttpException(400, Message("No extractable text found in PDF")));
    } else {
      assert PdfText(upload, Some(pages)).Success?;
    }
  }

  // ------------------------------------------------------------ prompt

  const MaxJobDescriptionChars: nat := 6000
  const RoleHeader := "ROLE TITLE: "
  const JobHeader := "\n\nJOB DESCRIPTION:\n"
  const ResumeHeader := "\n\nRESUME:\n"

  /** `role_title or 'Not specified'`. */
  function RoleLabel(roleTitle: Option<string>): (shown: string)
    ensures roleTitle.Some? && roleTitle.value != "" ==> shown == roleTitle.value
    ensures roleTitle.None? || roleTitle.value == "" ==> shown == "Not specified"
    ensures shown != ""
  {
    if roleTitle.Some? && roleTitle.value != "" then roleTitle.value else "Not specified"
  }

  /** The prompt: role, then at most 6000 characters of the job description, then the resume text. */
  function Prompt(roleTitle: Option<string>, jobDescription: string, resumeText: string): (p: string)
    ensures var role, job := RoleLabel(roleTitle), Take(jobDescription, MaxJobDescriptionChars);
      && |p| == |RoleHeader| + |role| + |JobHeader| + |job| + |ResumeHeader| + |resumeText|
      && p[..|RoleHeader| + |role|] == RoleHeader + role
      && p[|RoleHeader| + |role|..][..|JobHeader|] == JobHeader
      && p[|p| - |resumeText| - |ResumeHeader|..][..|ResumeHeader|] == ResumeHeader
      && p[|RoleHeader| + |role| + |JobHeader|..][..|job|] == job
      && p[|p| - |resumeText|..] == resumeText
  {
    RoleHeader + RoleLabel(roleTitle) + JobHeader + Take(jobDescription, MaxJobDescriptionChars) +
    ResumeHeader + resumeText
  }

  /** The two caps bound the prompt whatever the length of the job description. */
  lemma PromptIsBounded(roleTitle: Option<string>, jobDescription: string, upload: Upload, pages: seq<PageText>)
    requires PdfText(upload, Some(pages)).Success?
    ensures |Prompt(roleTitle, jobDescription, PdfText(upload, Some(pages)).value)|
      <= |RoleHeader| + |RoleLabel(roleTitle)| + |JobHeader| + MaxJobDescriptionChars + |ResumeHeader| + MaxResumeChars
  {
  }

  // ------------------------------------------------------------ agent errors

  /** The exceptions `agent.run` can raise; `message` is what `str(exc)` gives. */
  datatype AgentError =
    | ModelHTTPError(statusCode: int, modelName: string, body: Option<string>, message: string)
    | ModelAPIError(modelName: string, message: string)
    | OtherError(message: string)

  /** The exception classes the handlers name; `ModelHTTPError` subclasses `ModelAPIError`. */
  datatype ExceptionClass = ModelHTTPErrorClass | ModelAPIErrorClass | ExceptionBase

  predicate IsInstance(e: AgentError, c: ExceptionClass) {
    match c
    case ModelHTTPErrorClass => e.ModelHTTPError?
    case ModelAPIErrorClass => e.ModelHTTPError? || e.ModelAPIError?
    case ExceptionBase => true
  }

  /** The `except` clauses, tried in order: the subclass first, then its base, then any exception. */
  function AgentFailure(e: AgentError): (f: ApiError)
    ensures f.HttpException?
    ensures f.statusCode == 502 <==> IsInstance(e, ModelAPIErrorClass)
    ensures f.statusCode == 500 <==> !IsInstance(e, ModelAPIErrorClass)
    ensures e.ModelHTTPError? ==>
      f.detail == UpstreamModelError("upstream_model_error", e.statusCode, e.modelName, e.body)
    ensures e.ModelAPIError? ==> f.detail == UpstreamApiError("upstream_api_error", e.modelName, e.message)
    ensures e.OtherError? ==> f.detail == Message("Agent failed: " + e.message)
  {
    if IsInstance(e, ModelHTTPErrorClass) then
      HttpException(502, UpstreamModelError("upstream_model_error", e.statusCode, e.modelName, e.body))
    else if IsInstance(e, ModelAPIErrorClass) then
      HttpException(502, UpstreamApiError("upstream_api_error", e.modelName, e.message))
    else
      HttpException(500, Message("Agent failed: " + e.message))
  }

  /** A model HTTP error is also a model API error: only the order of the clauses sends it to the first one. */
  lemma ModelHttpErrorIsApiError(e: AgentError)
    requires e.ModelHTTPError?
    ensures IsInstance(e, ModelAPIErrorClass)
    ensures AgentFailure(e).detail.UpstreamModelError?
  {
  }

  // ------------------------------------------------------------ response

  type FitScore = x: int | 0 <= x <= 100

  /** The validated `AnalysisResult` the agent produces. */
  datatype AgentOutput = AgentOutput(
    fitScore: FitScore,
    summary: string,
    strengths: seq<string>,
    gaps: seq<string>,
    tailoredBullets: seq<string>,
    interviewQuestions: seq<string>)

  datatype AgentOutcome = Completed(output: AgentOutput) | Raise(error: AgentError)

  /** The JSON object `analyze_resume` returns. */
  datatype ResponseBody = ResponseBody(
    fitScore: int,
    summary: string,
    strengths: seq<string>,
    gaps: seq<string>,
    tailoredBullets: seq<string>,
    interviewQuestions: seq<string>,
    elapsedMs: int)

  /** The six output fields copied unchanged, plus the elapsed time. */
  function Respond(output: AgentOutput, elapsedMs: int): (b: ResponseBody)
    ensures 0 <= b.fitScore <= 100
    ensures b.fitScore == output.fitScore && b.summary == output.summary
    ensures b.strengths == output.strengths && b.gaps == output.gaps
    ensures b.tailoredBullets == output.tailoredBullets && b.interviewQuestions == output.interviewQuestions
    ensures b.elapsedMs == elapsedMs
  {
    ResponseBody(output.fitScore, output.summary, output.strengths, output.gaps,
                 output.tailoredBullets, output.interviewQuestions, elapsedMs)
  }

  /** `analyze_resume`: extract, prompt, run the agent, map its failure or shape its output. */
  method AnalyzeResume(upload: Upload, reader: Option<seq<PageText>>, jobDescription: string,
                       roleTitle: Option<string>, agent: string -> AgentOutcome, elapsedMs: int)
    returns (r: Result<ResponseBody, ApiError>)
    ensures PdfText(upload, reader).Failure? ==> r == Failure(PdfText(upload, reader).error)
    ensures PdfText(upload, reader).Success? ==>
      var outcome := agent(Prompt(roleTitle, jobDescription, PdfText(upload, reader).value));
      r == match outcome
           case Completed(o) => Success(Respond(o, elapsedMs))
           case Raise(e) => Failure(AgentFailure(e))
  {
    var extracted := ExtractPdfText(upload, reader);
    if extracted.Failure? {
      return Failure(extracted.error);
    }
    var prompt := Prompt(roleTitle, jobDescription, extracted.value);
    var outcome := agent(prompt);
    match outcome {
      case Raise(e) =>
        return Failure(AgentFailure(e));
      case Completed(output) =>
        return Success(Respond(output, elapsedMs));
    }
  }
}
