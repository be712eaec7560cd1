/** The company's edit-job page: loading a job into the form, editing its
    fields and its three string lists, and building the update request. */
module EditJob {
  import opened Options
  import opened Js
  import Text
  import Lists
  import opened Storage

  /** The lists edited through a text box each. */
  const ListFields: set<string> := {"requirements", "highlights", "keySkills"}

  /** `jobData` and `tempInputs` (the text typed into each list's box). */
  datatype EditState = EditState(job: Props, temp: map<string, string>)

  /** Each list is an array and has a text box. The page renders every list
      with `.map`, so this holds whenever a handler can run. */
  predicate Editable(s: EditState) {
    forall f :: f in ListFields ==> f in s.temp && f in s.job && s.job[f].Arr?
  }

  /** The state before anything is loaded. */
  function Initial(): (r: EditState)
    ensures Editable(r)
    ensures forall f :: f in ListFields ==> r.job[f] == Arr([]) && r.temp[f] == ""
  {
    EditState(
      map["title" := Str(""), "description" := Str(""), "requirements" := Arr([]),
          "experienceLevel" := Str(""), "employmentType" := Str(""), "openings" := Num(0),
          "location" := Str(""), "salary" := Str(""), "deadlineDate" := Str(""),
          "highlights" := Arr([]), "keySkills" := Arr([])],
      map["requirements" := "", "highlights" := "", "keySkills" := ""])
  }

  /** `handleInputChange`: one field of `jobData` takes the new value. */
  function InputChange(s: EditState, field: string, value: Value): (r: EditState)
    ensures field in r.job && r.job[field] == value
    ensures SameExcept(s.job, r.job, field)
    ensures r.temp == s.temp
    ensures field !in ListFields && Editable(s) ==> Editable(r)
  {
    s.(job := Put(s.job, field, value))
  }

  /** `handleArrayInput`: Enter with a non-blank box appends the trimmed text
      at the end of that list (no duplicate check) and empties the box; any
      other key, or a blank box, changes nothing. */
  function ArrayInput(s: EditState, field: string, key: string): (r: EditState)
    requires Editable(s) && field in ListFields
    ensures Editable(r)
    ensures key == "Enter" && !Text.Blank(s.temp[field]) ==>
      r.job[field] == Arr(s.job[field].items + [Str(Text.Trim(s.temp[field]))]) &&
      r.temp[field] == "" &&
      SameExcept(s.job, r.job, field) && SameExcept(s.temp, r.temp, field)
    ensures !(key == "Enter" && !Text.Blank(s.temp[field])) ==> r == s
  {
    var text := Text.Trim(s.temp[field]);
    if key == "Enter" && text != "" then
      AppendKeepsEditable(s, field, text);
      EditState(s.job[field := Arr(s.job[field].items + [Str(text)])], s.temp[field := ""])
    else s
  }

  /** Appending to one list and emptying its box keeps every list editable. */
  lemma AppendKeepsEditable(s: EditState, field: string, text: string)
    requires Editable(s) && field in ListFields
    ensures Editable(EditState(s.job[field := Arr(s.job[field].items + [Str(text)])], s.temp[field := ""]))
  {
  }

  /** `handleDeleteItem`: the element at `indexToDelete` leaves the list and
      the others keep their order; an index outside the list changes nothing. */
  function DeleteItem(s: EditState, field: string, indexToDelete: int): (r: EditState)
    requires Editable(s) && field in ListFields
    ensures Editable(r)
    ensures var items := s.job[field].items;
      0 <= indexToDelete < |items| ==>
        r.job[field] == Arr(items[..indexToDelete] + items[indexToDelete + 1..]) &&
        SameExcept(s.job, r.job, field) && r.temp == s.temp
    ensures !(0 <= indexToDelete < |s.job[field].items|) ==> r == s
  {
    var items := s.job[field].items;
    var kept := Lists.RemoveAt(items, indexToDelete);
    if kept == items then s else s.(job := s.job[field := Arr(kept)])
  }

  /** `data.jobHighlights || data.highlights || []`. An empty array is truthy,
      so an empty `jobHighlights` wins over a non-empty `highlights`. */
  function LoadedHighlights(data: Value): (r: Value)
    ensures Truthy(Prop(data, "jobHighlights")) ==> r == Prop(data, "jobHighlights")
    ensures !Truthy(Prop(data, "jobHighlights")) && Truthy(Prop(data, "highlights")) ==> r == Prop(data, "highlights")
    ensures !Truthy(Prop(data, "jobHighlights")) && !Truthy(Prop(data, "highlights")) ==> r == Arr([])
  {
    Or(Or(Prop(data, "jobHighlights"), Prop(data, "highlights")), Arr([]))
  }

  lemma EmptyJobHighlightsWin()
    ensures LoadedHighlights(Obj(map["jobHighlights" := Arr([]), "highlights" := Arr([Str("x")])])) == Arr([])
  {
  }

  /** How the job request ended: the decoded body of an ok response, or a
      non-ok response or a thrown request. */
  datatype FetchOutcome = Fetched(data: Value) | FetchFailed

  /** The deadline of the loaded job can be shown: it is falsy, or it is a
      date that `isoDay` formats. */
  predicate Formattable(data: Value, isoDay: Value -> Option<string>) {
    !Truthy(Prop(data, "deadlineDate")) || isoDay(Prop(data, "deadlineDate")).Some?
  }

  /** The fetch effect. With a token and an ok response, the job becomes the
      server's object with `deadlineDate` reformatted (or '' when falsy) and
      `highlights` taken by `LoadedHighlights`; every other server field is
      kept. A missing token, a failed request, a `null` body or a date that
      cannot be formatted leaves the state as it was. `isoDay` stands for
      `new Date(d).toISOString().split('T')[0]`, None when it throws. */
  function Load(s: EditState, token: Option<string>, outcome: FetchOutcome, isoDay: Value -> Option<string>): (r: EditState)
    ensures r.temp == s.temp
    ensures !HasToken(token) || outcome.FetchFailed? ==> r == s
    ensures HasToken(token) && outcome.Fetched? && (Nullish(outcome.data) || !Formattable(outcome.data, isoDay)) ==> r == s
    ensures HasToken(token) && outcome.Fetched? && !Nullish(outcome.data) && Formattable(outcome.data, isoDay) ==>
      var data := outcome.data;
      var deadline := Prop(data, "deadlineDate");
      r.job.Keys == SpreadOf(data).Keys + {"deadlineDate", "highlights"} &&
      r.job["highlights"] == LoadedHighlights(data) &&
      r.job["deadlineDate"] == Str(if Truthy(deadline) then isoDay(deadline).value else "") &&
      forall k :: k in SpreadOf(data) && k != "deadlineDate" && k != "highlights" ==> r.job[k] == SpreadOf(data)[k]
  {
    if !HasToken(token) || outcome.FetchFailed? || Nullish(outcome.data) then s
    else
      var data := outcome.data;
      var deadline := Prop(data, "deadlineDate");
      var day := if Truthy(deadline) then isoDay(deadline) else Some("");
      match day
      case None => s
      case Some(d) => s.(job := SpreadOf(data)["deadlineDate" := Str(d)]["highlights" := LoadedHighlights(data)])
  }

  /** A load leaves every list editable exactly when the server sent the
      requirements and key skills as arrays and the highlights chain ends
      in an array. Anything else breaks the `.map` of the render. */
  lemma LoadKeepsEditable(s: EditState, token: Option<string>, data: Value, isoDay: Value -> Option<string>)
    requires Editable(s) && HasToken(token) && !Nullish(data) && Formattable(data, isoDay)
    ensures Editable(Load(s, token, Fetched(data), isoDay)) <==>
      Prop(data, "requirements").Arr? && Prop(data, "keySkills").Arr? && LoadedHighlights(data).Arr?
  {
    var r := Load(s, token, Fetched(data), isoDay);
    assert forall f :: f in ListFields && f != "highlights" && f in r.job ==> r.job[f] == Prop(data, f);
  }

  /** The form's deadline is a day that `isoDay` formats back to itself, or
      empty: what the date input of the page produces. */
  predicate DayStable(job: Props, isoDay: Value -> Option<string>) {
    "deadlineDate" in job && job["deadlineDate"].Str? &&
    (job["deadlineDate"].s != "" ==> isoDay(job["deadlineDate"]) == Some(job["deadlineDate"].s))
  }

  /** The PATCH body: every field of `jobData`, plus `jobHighlights` equal to
      `highlights` (replacing any `jobHighlights` the job was loaded with). */
  function SubmitBody(job: Props): (r: Props)
    ensures "jobHighlights" in r && r["jobHighlights"] == Get(job, "highlights")
    ensures SameExcept(job, r, "jobHighlights")
  {
    Put(job, "jobHighlights", Get(job, "highlights"))
  }

  /** `handleSubmit`: no request is issued without a token. */
  function SubmitRequest(token: Option<string>, job: Props): (r: Option<Props>)
    ensures r.Some? <==> HasToken(token)
    ensures r.Some? ==> "jobHighlights" in r.value && r.value["jobHighlights"] == Get(job, "highlights")
    ensures r.Some? ==> SameExcept(job, r.value, "jobHighlights")
  {
    if HasToken(token) then Some(SubmitBody(job)) else None
  }

  /** Saving the form and loading the saved job back gives the form again:
      every field comes back unchanged, and the only addition is the
      `jobHighlights` copy the save wrote. */
  lemma SaveReloadRoundTrip(s: EditState, token: Option<string>, job: Props, isoDay: Value -> Option<string>)
    requires HasToken(token)
    requires "highlights" in job && job["highlights"].Arr?
    requires DayStable(job, isoDay)
    ensures SubmitRequest(token, job).Some?
    ensures Load(s, token, Fetched(Obj(SubmitRequest(token, job).value)), isoDay).job == SubmitBody(job)
    ensures forall k :: k in job && k != "jobHighlights" ==> Load(s, token, Fetched(Obj(SubmitRequest(token, job).value)), isoDay).job[k] == job[k]
  {
    var body := SubmitBody(job);
    var data := Obj(body);
    assert Prop(data, "jobHighlights") == job["highlights"];
    assert LoadedHighlights(data) == job["highlights"];
    assert Formattable(data, isoDay);
    var r := Load(s, token, Fetched(data), isoDay);
    assert r.job == body;
  }
}
