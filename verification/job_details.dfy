/** One job's detail page: the fetch of the job, the days left until its
    deadline, the apply button and the snackbar that reports the result. */
module JobDetails {
  import opened Options
  import opened Js

  /** Milliseconds in a day: `1000 * 60 * 60 * 24`. */
  const DayMs: int := 1000 * 60 * 60 * 24

  /** `Math.ceil(x / DayMs)`. Dafny's division by a positive divisor
      rounds down, so the ceiling is the negated floor of the negation. */
  function CeilDays(x: int): (r: int)
    ensures (r - 1) * DayMs < x <= r * DayMs
  {
    -((-x) / DayMs)
  }

  /** `getDaysUntilDeadline`: whole days from `now` up to the deadline,
      rounded up. Both instants are milliseconds since the epoch; a deadline
      that does not parse is `None`, and the result is then `NaN`, `None`. */
  function DaysUntilDeadline(deadline: Option<int>, now: int): (r: Option<int>)
    ensures deadline.None? <==> r.None?
    ensures deadline.Some? ==> (r.value - 1) * DayMs < deadline.value - now <= r.value * DayMs
  {
    match deadline
    case None => None
    case Some(d) => Some(CeilDays(d - now))
  }

  /** A valid deadline has passed, by the page's count, exactly when it is
      not later than now. */
  lemma DeadlinePassedIff(deadline: int, now: int)
    ensures DaysUntilDeadline(Some(deadline), now).value <= 0 <==> deadline <= now
  {
    var r := DaysUntilDeadline(Some(deadline), now).value;
    if r <= 0 {
      assert r * DayMs <= 0;
    } else {
      assert (r - 1) * DayMs >= 0;
    }
  }

  /** What the apply button shows. */
  datatype Caption = Spinner | DeadlinePassed | ApplyNow

  datatype ApplyButton = ApplyButton(disabled: bool, caption: Caption)

  /** `daysUntilDeadline <= 0 || applyLoading` disables it; `NaN <= 0` is
      false. The spinner shows while applying, then the deadline text. */
  function Button(days: Option<int>, applyLoading: bool): (r: ApplyButton)
    ensures r.disabled <==> applyLoading || (days.Some? && days.value <= 0)
    ensures applyLoading <==> r.caption == Spinner
    ensures !applyLoading ==> (r.caption == DeadlinePassed <==> days.Some? && days.value <= 0)
    ensures !r.disabled <==> r.caption == ApplyNow
  {
    var passed := days.Some? && days.value <= 0;
    ApplyButton(passed || applyLoading, if applyLoading then Spinner else if passed then DeadlinePassed else ApplyNow)
  }

  /** A deadline that does not parse never closes applications. */
  lemma InvalidDeadlineStaysOpen(now: int)
    ensures Button(DaysUntilDeadline(None, now), false) == ApplyButton(false, ApplyNow)
  {
  }

  /** A request error: the response body when a response came back, and
      the error's own `message`. */
  datatype HttpError = HttpError(response: Option<Value>, message: Value)

  /** `err.response?.data`. */
  function ResponseData(e: HttpError): Value {
    if e.response.Some? then e.response.value else Undefined
  }

  datatype Snack = Snack(open: bool, message: Value, severity: string)

  /** `job`, `loading`, `error`, `applyLoading` and the snackbar. */
  datatype DetailsState = DetailsState(job: Value, loading: bool, error: Value, applyLoading: bool, snack: Snack)

  function Initial(): (r: DetailsState)
    ensures r.loading && r.job == Null && !r.applyLoading && !r.snack.open
  {
    DetailsState(Null, true, Str(""), false, Snack(false, Str(""), "success"))
  }

  datatype JobFetch = JobFetched(data: Value) | JobFetchFailed(err: HttpError)

  /** The message of a failed fetch: the body's `message`, else the body,
      else a fixed text. */
  function LoadError(e: HttpError): (r: Value)
    ensures Truthy(r)
    ensures Truthy(Prop(ResponseData(e), "message")) ==> r == Prop(ResponseData(e), "message")
    ensures !Truthy(Prop(ResponseData(e), "message")) && Truthy(ResponseData(e)) ==> r == ResponseData(e)
    ensures !Truthy(Prop(ResponseData(e), "message")) && !Truthy(ResponseData(e)) ==>
      r == Str("Failed to load job details. Please try again later.")
  {
    Or(Prop(ResponseData(e), "message"), Or(ResponseData(e), Str("Failed to load job details. Please try again later.")))
  }

  /** The fetch effect: with no job id nothing is requested and the page
      keeps loading; otherwise the job or the error is recorded and loading
      ends. */
  function Load(s: DetailsState, hasJobId: bool, outcome: JobFetch): (r: DetailsState)
    ensures !hasJobId ==> r == s
    ensures hasJobId ==> !r.loading && r.applyLoading == s.applyLoading && r.snack == s.snack
    ensures hasJobId && outcome.JobFetched? ==> r.job == outcome.data && r.error == Str("")
    ensures hasJobId && outcome.JobFetchFailed? ==> r.job == s.job && r.error == LoadError(outcome.err) && Truthy(r.error)
  {
    if !hasJobId then s
    else match outcome
      case JobFetched(data) => s.(job := data, error := Str(""), loading := false)
      case JobFetchFailed(e) => s.(error := LoadError(e), loading := false)
  }

  /** What the page shows. */
  datatype Page = Loading | ErrorPage(message: Value) | Blank | Details(job: Value, button: ApplyButton)

  /** The page: the spinner while loading, the error when there is one,
      nothing without a job, else the job and its apply button. */
  function Render(s: DetailsState, days: Option<int>): (r: Page)
    ensures s.loading <==> r.Loading?
    ensures r.ErrorPage? <==> !s.loading && Truthy(s.error)
    ensures r.Details? ==> r.job == s.job && Truthy(s.job) && r.button == Button(days, s.applyLoading)
    ensures !s.loading && !Truthy(s.error) ==> (r.Details? <==> Truthy(s.job))
  {
    if s.loading then Loading
    else if Truthy(s.error) then ErrorPage(s.error)
    else if !Truthy(s.job) then Blank
    else Details(s.job, Button(days, s.applyLoading))
  }

  /** Without a job id the page never leaves the spinner. */
  lemma NoJobIdKeepsLoading(outcome: JobFetch, days: Option<int>)
    ensures Render(Load(Initial(), false, outcome), days) == Loading
  {
  }

  /** A fetch error is always shown: its message is never empty. */
  lemma FailedLoadShowsError(s: DetailsState, e: HttpError, days: Option<int>)
    ensures Render(Load(s, true, JobFetchFailed(e)), days).ErrorPage?
  {
  }

  /** `showToast`: the snackbar opens with the message and severity. */
  function ShowToast(s: DetailsState, message: Value, severity: string): (r: DetailsState)
    ensures r.snack == Snack(true, message, severity)
    ensures r.job == s.job && r.loading == s.loading && r.error == s.error && r.applyLoading == s.applyLoading
  {
    s.(snack := Snack(true, message, severity))
  }

  /** The start of `handleApply`: the button turns into a spinner. */
  function BeginApply(s: DetailsState): (r: DetailsState)
    ensures r.applyLoading && r.job == s.job && r.snack == s.snack
  {
    s.(applyLoading := true)
  }

  datatype ApplyOutcome = Applied(data: Value) | ApplyFailed(err: HttpError)

  /** The message of a failed application: the body's `message`, else the
      body, else the error's own message, else a fixed text. */
  function ApplyError(e: HttpError): (r: Value)
    ensures Truthy(r)
    ensures Truthy(Prop(ResponseData(e), "message")) ==> r == Prop(ResponseData(e), "message")
    ensures !Truthy(Prop(ResponseData(e), "message")) && Truthy(ResponseData(e)) ==> r == ResponseData(e)
    ensures !Truthy(Prop(ResponseData(e), "message")) && !Truthy(ResponseData(e)) && Truthy(e.message) ==> r == e.message
    ensures !Truthy(Prop(ResponseData(e), "message")) && !Truthy(ResponseData(e)) && !Truthy(e.message) ==>
      r == Str("Failed to apply. Please try again later.")
  {
    Or(Prop(ResponseData(e), "message"), Or(ResponseData(e), Or(e.message, Str("Failed to apply. Please try again later."))))
  }

  /** The end of `handleApply`: a success toast with the server's message
      or a default, or an error toast; the spinner stops either way. */
  function FinishApply(s: DetailsState, outcome: ApplyOutcome): (r: DetailsState)
    ensures !r.applyLoading && r.snack.open && r.job == s.job
    ensures outcome.Applied? ==> r.snack.severity == "success"
    ensures outcome.Applied? && Truthy(Prop(outcome.data, "message")) ==> r.snack.message == Prop(outcome.data, "message")
    ensures outcome.Applied? && !Truthy(Prop(outcome.data, "message")) ==> r.snack.message == Str("Applied successfully")
    ensures outcome.ApplyFailed? ==> r.snack == Snack(true, ApplyError(outcome.err), "error")
  {
    var s' := match outcome
      case Applied(data) => ShowToast(s, Or(Prop(data, "message"), Str("Applied successfully")), "success")
      case ApplyFailed(e) => ShowToast(s, ApplyError(e), "error");
    s'.(applyLoading := false)
  }

  /** While an application is in flight the button cannot be pressed again;
      once it ends the button depends on the deadline alone. */
  lemma ApplyDisablesButton(s: DetailsState, outcome: ApplyOutcome, days: Option<int>)
    ensures Button(days, BeginApply(s).applyLoading).disabled
    ensures Button(days, FinishApply(BeginApply(s), outcome).applyLoading).disabled <==> days.Some? && days.value <= 0
  {
  }

  /** `handleSnackbarClose`: a click elsewhere on the page keeps it open. */
  function SnackbarClose(s: DetailsState, reason: string): (r: DetailsState)
    ensures reason == "clickaway" ==> r == s
    ensures reason != "clickaway" ==> !r.snack.open && r.snack.message == s.snack.message && r.snack.severity == s.snack.severity
    ensures r.job == s.job && r.applyLoading == s.applyLoading
  {
    if reason == "clickaway" then s else s.(snack := s.snack.(open := false))
  }
}
