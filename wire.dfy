/**
 * The HTTP boundary between the server and the page: how the answer of
 * `analyze_resume` arrives at the page's submit handler. The page calls the
 * server on another origin (page.tsx's `API_BASE`), so the browser shows it
 * only answers that carry the CORS middleware's headers, and the middleware
 * adds them only when the page's origin is allowed: the origin list holds
 * "*" or that origin. FastAPI serialises an `HTTPException` as
 * `{"detail": ...}` inside that middleware. Any other exception is answered
 * with a 500 by the framework's outermost error handler, outside it. An
 * answer the browser hides makes `fetch` reject with a `TypeError` whose
 * message the browser chooses; that message is a parameter here.
 */
module Wire {
  import opened Wrappers
  import Page
  import Backend
  import Text

  /** The body of an `HTTPException` answer, as the page's handler reads it. */
  function ErrorBodyOf(detail: Backend.Detail): (b: Page.ErrorBody)
    ensures detail.Message? <==> b.TextDetail?
    ensures detail.Message? ==> b == Page.TextDetail(detail.text)
    ensures !detail.Message? ==> b == Page.ObjectDetail
  {
    if detail.Message? then Page.TextDetail(detail.text) else Page.ObjectDetail
  }

  /** The report the page stores, read from the server's JSON object. */
  function ReportOf(body: Backend.ResponseBody): (r: Page.AnalysisResult)
    ensures r.fitScore == body.fitScore && r.summary == body.summary
    ensures r.strengths == body.strengths && r.gaps == body.gaps
    ensures r.tailoredBullets == body.tailoredBullets && r.interviewQuestions == body.interviewQuestions
    ensures r.elapsedMs == Some(body.elapsedMs)
  {
    Page.AnalysisResult(body.fitScore, body.summary, body.strengths, body.gaps,
                        body.tailoredBullets, body.interviewQuestions, Some(body.elapsedMs))
  }

  /** The CORS middleware labels answers for the page: its origin list allows every origin or lists the page's. */
  predicate PageAllowed(allowedOrigins: Option<string>, pageOrigin: string): (b: bool)
    ensures allowedOrigins.None? ==> b
    ensures allowedOrigins == Some("*") ==> b
  {
    var origins := Backend.Origins(allowedOrigins);
    "*" in origins || pageOrigin in origins
  }

  /**
   * What the handler sees once the server has answered; `allowed` says
   * whether the CORS middleware labels answers for the page's origin, and
   * `fetchFailure` is the message of the `TypeError` the browser raises for
   * an answer it hides.
   */
  function Delivered(answer: Result<Backend.ResponseBody, Backend.ApiError>, allowed: bool, fetchFailure: string)
    : (t: Page.Transport)
    ensures !allowed ==> t == Page.Threw(Page.ErrorObject(fetchFailure))
    ensures allowed ==> (t.Ok? <==> answer.Success?)
    ensures allowed && answer.Success? ==> t == Page.Ok(ReportOf(answer.value))
    ensures answer == Failure(Backend.Unhandled) ==> t == Page.Threw(Page.ErrorObject(fetchFailure))
    ensures allowed && answer.Failure? && answer.error.HttpException? ==>
      t == Page.HttpError(ErrorBodyOf(answer.error.detail))
  {
    if !allowed then Page.Threw(Page.ErrorObject(fetchFailure))
    else
      match answer
      case Success(body) => Page.Ok(ReportOf(body))
      case Failure(Unhandled) => Page.Threw(Page.ErrorObject(fetchFailure))
      case Failure(HttpException(_, detail)) => Page.HttpError(ErrorBodyOf(detail))
  }

  /** The default setting, unset or "*", allows every page. */
  lemma DefaultSettingAllowsEveryPage(pageOrigin: string)
    ensures PageAllowed(None, pageOrigin)
    ensures PageAllowed(Some("*"), pageOrigin)
  {
  }

  /** Origins as an administrator writes them: stripped, non-empty and comma-free. */
  predicate AllCleanOrigins(xs: seq<string>) {
    Text.AllClean(xs, Text.PySpaces) && Text.NoneContains(xs, ',')
  }

  /** A page whose origin is listed in a comma-separated setting of clean origins is allowed. */
  lemma ListedOriginIsAllowed(xs: seq<string>, pageOrigin: string)
    requires AllCleanOrigins(xs)
    requires pageOrigin in xs
    ensures PageAllowed(Some(Text.Join(xs, ",")), pageOrigin)
  {
    Backend.OriginsRoundTrip(xs);
  }

  /** When the page's origin is not allowed, every answer, success or failure, shows only the fetch failure. */
  lemma BlockedPageSeesOnlyFetchFailure(answer: Result<Backend.ResponseBody, Backend.ApiError>,
                                        allowedOrigins: Option<string>, pageOrigin: string, fetchFailure: string)
    requires !PageAllowed(allowedOrigins, pageOrigin)
    ensures Page.Settlement(Delivered(answer, PageAllowed(allowedOrigins, pageOrigin), fetchFailure)) ==
      Page.Settled(Some(fetchFailure), None)
  {
  }

  /** Every `HTTPException` raised for the uploaded file is shown on an allowed page with the server's own words. */
  lemma PdfErrorsReachThePage(upload: Backend.Upload, reader: Option<seq<Backend.PageText>>,
                              allowedOrigins: Option<string>, pageOrigin: string, fetchFailure: string)
    requires PageAllowed(allowedOrigins, pageOrigin)
    requires Backend.PdfText(upload, reader).Failure?
    requires Backend.PdfText(upload, reader).error.HttpException?
    ensures var e := Backend.PdfText(upload, reader).error;
      e.statusCode == 400 && e.detail.Message? &&
      Page.Settlement(Delivered(Failure(e), PageAllowed(allowedOrigins, pageOrigin), fetchFailure)) ==
        Page.Settled(Some(e.detail.text), None)
  {
  }

  /**
   * A PDF the reader cannot open fails outside any `HTTPException`, so the
   * page shows the browser's fetch failure and no message of the server.
   */
  lemma CorruptPdfShowsFetchFailure(upload: Backend.Upload, allowed: bool, fetchFailure: string)
    requires upload.contentType.Some? && upload.contentType.value in Backend.PdfContentTypes
    requires upload.data != []
    ensures Page.Settlement(Delivered(Failure(Backend.PdfText(upload, None).error), allowed, fetchFailure)) ==
      Page.Settled(Some(fetchFailure), None)
  {
  }

  /**
   * The structured 502 details the server sends for model errors are plain
   * objects on the page, so the user sees their string form, not a message.
   */
  lemma UpstreamErrorsShowObjectText(e: Backend.AgentError, allowedOrigins: Option<string>, pageOrigin: string, fetchFailure: string)
    requires PageAllowed(allowedOrigins, pageOrigin)
    requires Backend.IsInstance(e, Backend.ModelAPIErrorClass)
    ensures Page.Settlement(Delivered(Failure(Backend.AgentFailure(e)), PageAllowed(allowedOrigins, pageOrigin), fetchFailure)) ==
      Page.Settled(Some("[object Object]"), None)
  {
  }

  /** Any other agent failure is shown as the server's `Agent failed: ...` text. */
  lemma AgentFailureShowsItsMessage(e: Backend.AgentError, allowedOrigins: Option<string>, pageOrigin: string, fetchFailure: string)
    requires PageAllowed(allowedOrigins, pageOrigin)
    requires !Backend.IsInstance(e, Backend.ModelAPIErrorClass)
    ensures Page.Settlement(Delivered(Failure(Backend.AgentFailure(e)), PageAllowed(allowedOrigins, pageOrigin), fetchFailure)) ==
      Page.Settled(Some("Agent failed: " + e.message), None)
  {
  }

  /** On an allowed page, a completed analysis is stored as sent and always earns a badge within the three tiers. */
  lemma CompletedAnalysisGetsBadge(output: Backend.AgentOutput, elapsedMs: int,
                                   allowedOrigins: Option<string>, pageOrigin: string, fetchFailure: string)
    requires PageAllowed(allowedOrigins, pageOrigin)
    ensures var s := Page.Settlement(Delivered(Success(Backend.Respond(output, elapsedMs)),
                                               PageAllowed(allowedOrigins, pageOrigin), fetchFailure));
      && s.error.None? && s.result.Some?
      && s.result.value == ReportOf(Backend.Respond(output, elapsedMs))
      && s.result.value.fitScore == output.fitScore
      && Page.FitBadge(s.result).Some?
      && (Page.FitBadge(s.result) == Some(Page.Emerald) <==> output.fitScore >= 80)
  {
  }
}
