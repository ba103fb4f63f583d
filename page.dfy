/**
 * The client page of frontend/src/app/page.tsx: the submit handler's state
 * machine over the three state cells `error`, `result` and `loading`, the
 * fit-score badge, and the list block's empty fallback.
 *
 * `fetch`, `FormData` and `response.json()` are not modelled; what the
 * network and the body parser deliver is the `Transport` value handed to
 * the handler.
 */
module Page {
  import opened Wrappers
  import opened Text

  /** The report the analysis service returns (the `AnalysisResult` type of the page). */
  datatype AnalysisResult = AnalysisResult(
    fitScore: int,
    summary: string,
    strengths: seq<string>,
    gaps: seq<string>,
    tailoredBullets: seq<string>,
    interviewQuestions: seq<string>,
    elapsedMs: Option<int>)

  /** The selected file; its bytes are opaque to the page. */
  datatype ResumeFile = ResumeFile(name: string, size: nat)

  /** One entry of the multipart form body. */
  datatype Part =
    | FilePart(name: string, file: ResumeFile)
    | TextPart(name: string, value: string)

  /** What a non-ok response's body turned out to be once `response.json()` ran. */
  datatype ErrorBody =
    | Unparsable             // `.json()` rejected; the handler substitutes `{}`
    | NoDetail               // parsed, but `detail` is absent or falsy other than ""
    | TextDetail(text: string)
    | ObjectDetail           // `detail` is a JSON object, as the server sends for upstream errors

  /** A value reaching the `catch` clause. */
  datatype Thrown =
    | ErrorObject(message: string)   // an instance of `Error`
    | OtherValue                     // anything else that was thrown

  /** How the request ended, as seen by the handler after its `await`s. */
  datatype Transport =
    | Ok(body: AnalysisResult)       // `response.ok` and the body parsed
    | HttpError(errorBody: ErrorBody)
    | Threw(thrown: Thrown)          // `fetch` or the success-path `.json()` threw

  const MissingResumeMessage := "Please upload a PDF resume."
  const MissingJobDescriptionMessage := "Add a job description to tailor against."
  const GenericFailureMessage := "Something went wrong."
  const UnexpectedErrorMessage := "Unexpected error occurred."
  const NoContentMessage := "No content yet."

  // `s.trim()` is written `Strip(s, JsSpaces)` throughout.

  /** True when `s` has a character that `trim()` keeps, i.e. `s.trim()` is truthy. */
  predicate HasContent(s: string) {
    exists i :: 0 <= i < |s| && s[i] !in JsSpaces
  }

  // ---------------------------------------------------------------- badge

  /** The three colour tiers of the fit-score badge. */
  datatype Badge = Emerald | Amber | Rose {
    /** The Tailwind classes `fitBadge` returns for the tier. */
    function ClassName(): (c: string)
      ensures c == "bg-emerald-100 text-emerald-800" <==> this == Emerald
      ensures c == "bg-amber-100 text-amber-800" <==> this == Amber
      ensures c == "bg-rose-100 text-rose-800" <==> this == Rose
    {
      match this
      case Emerald => "bg-emerald-100 text-emerald-800"
      case Amber => "bg-amber-100 text-amber-800"
      case Rose => "bg-rose-100 text-rose-800"
    }
    /** Tier order: a better tier has a higher rank. */
    function Rank(): nat {
      match this
      case Emerald => 2
      case Amber => 1
      case Rose => 0
    }
  }

  /** `fitBadge`: no badge without a result, else the tier of its score. */
  function FitBadge(result: Option<AnalysisResult>): (b: Option<Badge>)
    ensures b.None? <==> result.None?
    ensures result.Some? ==> (b == Some(Emerald) <==> result.value.fitScore >= 80)
    ensures result.Some? ==> (b == Some(Amber) <==> 60 <= result.value.fitScore < 80)
    ensures result.Some? ==> (b == Some(Rose) <==> result.value.fitScore < 60)
  {
    match result
    case None => None
    case Some(r) =>
      if r.fitScore >= 80 then Some(Emerald)
      else if r.fitScore >= 60 then Some(Amber)
      else Some(Rose)
  }

  /** Different tiers are told apart by their classes alone. */
  lemma ClassNamesDistinct(b1: Badge, b2: Badge)
    ensures b1.ClassName() == b2.ClassName() <==> b1 == b2
  {
  }

  /** A higher score never earns a lower tier. */
  lemma FitBadgeMonotone(r1: AnalysisResult, r2: AnalysisResult)
    requires r1.fitScore <= r2.fitScore
    ensures FitBadge(Some(r1)).value.Rank() <= FitBadge(Some(r2)).value.Rank()
  {
  }

  // ------------------------------------------------------------ list block

  /** What `ListBlock` renders: the placeholder, or the items in order. */
  datatype ListView = Placeholder(text: string) | Items(entries: seq<string>)

  /** `ListBlock`'s `!items?.length` fallback; `None` stands for a missing list. */
  function ListBlock(items: Option<seq<string>>): (v: ListView)
    ensures v.Placeholder? <==> items.None? || items.value == []
    ensures v.Placeholder? ==> v.text == NoContentMessage
    ensures v.Items? ==> v.entries == items.value && |v.entries| > 0
  {
    match items
    case None => Placeholder(NoContentMessage)
    case Some(xs) => if |xs| == 0 then Placeholder(NoContentMessage) else Items(xs)
  }

  // ------------------------------------------------------------ submission

  /** The message that stops a submission before any request, if any; the resume is checked first. */
  function ValidationError(resume: Option<ResumeFile>, jobDescription: string): (e: Option<string>)
    ensures resume.None? ==> e == Some(MissingResumeMessage)
    ensures resume.Some? ==> (e == Some(MissingJobDescriptionMessage) <==> Strip(jobDescription, JsSpaces) == [])
    ensures e.None? ==> resume.Some? && IsCleanPart(Strip(jobDescription, JsSpaces), JsSpaces)
  {
    if resume.None? then Some(MissingResumeMessage)
    else if Strip(jobDescription, JsSpaces) == [] then Some(MissingJobDescriptionMessage)
    else None
  }

  /** A submission passes validation exactly when there is a resume and the job description has a non-blank character. */
  lemma ValidationPassesIff(resume: Option<ResumeFile>, jobDescription: string)
    ensures ValidationError(resume, jobDescription).None? <==> resume.Some? && HasContent(jobDescription)
  {
    TrimEmptyIffBlank(jobDescription);
  }

  lemma TrimEmptyIffBlank(s: string)
    ensures Strip(s, JsSpaces) == [] <==> !HasContent(s)
  {
  }

  /** The multipart body the handler would send. */
  function Payload(file: ResumeFile, jobDescription: string, roleTitle: string): (p: seq<Part>)
    ensures 2 <= |p| <= 3
    ensures p[0] == FilePart("resume", file)
    ensures p[1] == TextPart("job_description", jobDescription)
    ensures |p| == 3 <==> Strip(roleTitle, JsSpaces) != []
    ensures |p| == 3 ==> p[2] == TextPart("role_title", Strip(roleTitle, JsSpaces)) && IsCleanPart(p[2].value, JsSpaces)
  {
    var title := Strip(roleTitle, JsSpaces);
    [FilePart("resume", file), TextPart("job_description", jobDescription)] +
    (if title != [] then [TextPart("role_title", title)] else [])
  }

  /** A whitespace-only role title is left out; any other one is sent trimmed. */
  lemma PayloadTitleIff(file: ResumeFile, jobDescription: string, roleTitle: string)
    ensures (exists i :: 0 <= i < |Payload(file, jobDescription, roleTitle)| &&
                         Payload(file, jobDescription, roleTitle)[i].name == "role_title")
            <==> HasContent(roleTitle)
  {
    TrimEmptyIffBlank(roleTitle);
    var p := Payload(file, jobDescription, roleTitle);
    assert p[0].name == "resume" && p[1].name == "job_description";
    if HasContent(roleTitle) {
      assert p[2].name == "role_title";
    }
  }

  /** Appends the parts to a fresh form body one by one, as the handler does. */
  method BuildFormData(file: ResumeFile, jobDescription: string, roleTitle: string)
    returns (formData: seq<Part>)
    ensures formData == Payload(file, jobDescription, roleTitle)
  {
    formData := [];
    formData := formData + [FilePart("resume", file)];
    formData := formData + [TextPart("job_description", jobDescription)];
    assert formData == [FilePart("resume", file), TextPart("job_description", jobDescription)];
    var title := Strip(roleTitle, JsSpaces);
    if title != [] {
      formData := formData + [TextPart("role_title", title)];
    }
  }

  /** The message of the `Error` thrown for a non-ok response: `detail?.detail || "Something went wrong."`. */
  function HttpErrorMessage(body: ErrorBody): (m: string)
    ensures body.TextDetail? && body.text != "" ==> m == body.text
    ensures body.Unparsable? || body.NoDetail? || body == TextDetail("") ==> m == GenericFailureMessage
    ensures body.ObjectDetail? ==> m == "[object Object]"
    ensures m != ""
  {
    match body
    case TextDetail(t) => if t != "" then t else GenericFailureMessage
    case ObjectDetail => "[object Object]"   // what `new Error(obj)` makes of a plain object
    case _ => GenericFailureMessage
  }

  /** The `catch` clause's message: an `Error`'s own message, else the fallback. */
  function CaughtMessage(t: Thrown): (m: string)
    ensures t.ErrorObject? ==> m == t.message
    ensures t.OtherValue? ==> m == UnexpectedErrorMessage
  {
    match t
    case ErrorObject(msg) => msg
    case OtherValue => UnexpectedErrorMessage
  }

  /** The cells a settled request writes: `result` on success, `error` otherwise. */
  datatype Settled = Settled(error: Option<string>, result: Option<AnalysisResult>)

  function Settlement(outcome: Transport): (s: Settled)
    ensures s.result.Some? <==> s.error.None?
    ensures s.result.Some? <==> outcome.Ok?
    ensures outcome.Ok? ==> s.result == Some(outcome.body)
    ensures outcome.HttpError? ==> s.error == Some(HttpErrorMessage(outcome.errorBody))
    ensures outcome.Threw? ==> s.error == Some(CaughtMessage(outcome.thrown))
  {
    match outcome
    case Ok(r) => Settled(None, Some(r))
    // the non-ok branch throws an Error that the same handler's catch receives
    case HttpError(b) => Settled(Some(CaughtMessage(ErrorObject(HttpErrorMessage(b)))), None)
    case Threw(t) => Settled(Some(CaughtMessage(t)), None)
  }

  /** A server error is shown with its own detail, or a non-empty fallback. */
  lemma HttpErrorsAlwaysShowAMessage(b: ErrorBody)
    ensures Settlement(HttpError(b)).error.Some?
    ensures Settlement(HttpError(b)).error.value != ""
    ensures Settlement(HttpError(b)).result.None?
  {
  }

  /**
   * The page's three state cells. `Submit` is `handleSubmit`; it is the
   * composition of `Begin` (everything up to the `await`) and `Settle`
   * (the `try`/`catch`/`finally` after it).
   */
  class Session {
    var error: Option<string>
    var result: Option<AnalysisResult>
    var loading: bool

    constructor ()
      ensures error == None && result == None && !loading
    {
      error := None;
      result := None;
      loading := false;
    }

    /** Clears both cells, validates, builds the form body and raises `loading`. */
    method Begin(resume: Option<ResumeFile>, jobDescription: string, roleTitle: string)
      returns (sent: Option<seq<Part>>)
      modifies this
      ensures result == None
      ensures sent == if ValidationError(resume, jobDescription).None?
                      then Some(Payload(resume.value, jobDescription, roleTitle)) else None
      ensures sent.None? ==> error == ValidationError(resume, jobDescription)
      ensures sent.None? ==> loading == old(loading)
      ensures sent.Some? ==> error == None && loading
    {
      error := None;
      result := None;

      if resume.None? {
        error := Some(MissingResumeMessage);
        assert error == ValidationError(resume, jobDescription);
        return None;
      }
      if Strip(jobDescription, JsSpaces) == [] {
        error := Some(MissingJobDescriptionMessage);
        assert error == ValidationError(resume, jobDescription);
        return None;
      }
      assert ValidationError(resume, jobDescription).None?;

      var formData := BuildFormData(resume.value, jobDescription, roleTitle);
      loading := true;
      sent := Some(formData);
    }

    /** Applies the request's outcome; nothing guards against an outcome of an older request. */
    method Settle(outcome: Transport)
      modifies this
      ensures !loading
      ensures outcome.Ok? ==> result == Settlement(outcome).result && error == old(error)
      ensures !outcome.Ok? ==> error == Settlement(outcome).error && result == old(result)
    {
      match outcome {
        case Ok(data) =>
          result := Some(data);
        case HttpError(body) =>
          var message := CaughtMessage(ErrorObject(HttpErrorMessage(body)));
          error := Some(message);
        case Threw(t) =>
          var message := CaughtMessage(t);
          error := Some(message);
      }
      loading := false;
    }

    /** `handleSubmit`: one submission from the form's inputs to its settled state. */
    method Submit(resume: Option<ResumeFile>, jobDescription: string, roleTitle: string, outcome: Transport)
      returns (sent: Option<seq<Part>>)
      modifies this
      ensures sent.Some? <==> ValidationError(resume, jobDescription).None?
      ensures sent.None? ==> error == ValidationError(resume, jobDescription) && result == None
                             && loading == old(loading)
      ensures sent.Some? ==> sent.value == Payload(resume.value, jobDescription, roleTitle)
      ensures sent.Some? ==> Settled(error, result) == Settlement(outcome) && !loading
    {
      sent := Begin(resume, jobDescription, roleTitle);
      if sent.Some? {
        Settle(outcome);
      }
    }
  }

  /**
   * Two submissions in flight at once (only the disabled button prevents
   * it): the later one settles first with a report, then the earlier one's
   * failure, whichever it is, arrives and is applied too, so both cells end up set.
   */
  method LateOutcomeIsApplied(file: ResumeFile, report: AnalysisResult, late: Transport)
    returns (error: Option<string>, result: Option<AnalysisResult>)
    requires !late.Ok?
    ensures result == Some(report)
    ensures error == Settlement(late).error && error.Some?
  {
    var page := new Session();
    var first := page.Begin(Some(file), "Staff engineer, distributed systems", "");
    var second := page.Begin(Some(file), "Staff engineer, distributed systems", "");
    page.Settle(Ok(report));
    page.Settle(late);
    error, result := page.error, page.result;
  }
}
