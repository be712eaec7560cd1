/** The job-alert form: a title, description, experience level and end date,
    plus a list of candidate e-mail addresses the alert is sent to. */
module JobAlert {
  import opened Options
  import opened Js
  import Text
  import Lists
  import EmailPatterns

  /** `candidates`, the `email` box, `formData` and `errors`. */
  datatype AlertState = AlertState(candidates: seq<string>, email: string, form: map<string, string>, errors: map<string, string>)

  function Initial(): (r: AlertState)
    ensures r.candidates == [] && r.email == "" && r.errors == map[]
    ensures forall k :: k in {"title", "description", "experienceLevel", "endDate"} ==> k in r.form && r.form[k] == ""
  {
    AlertState([], "", map["title" := "", "description" := "", "experienceLevel" := "", "endDate" := ""], map[])
  }

  /** `validateEmail`: the anchored pattern `^[^\s@]+@[^\s@]+\.[^\s@]+$`. */
  predicate ValidateEmail(email: string) {
    EmailPatterns.StrictMatch(email)
  }

  /** `handleChange`: the field takes the typed value; its error, if it has
      a non-empty one, is blanked; nothing else changes. */
  function HandleChange(s: AlertState, name: string, value: string): (r: AlertState)
    ensures name in r.form && r.form[name] == value && SameExcept(s.form, r.form, name)
    ensures r.candidates == s.candidates && r.email == s.email
    ensures name in s.errors && s.errors[name] != "" ==>
      name in r.errors && r.errors[name] == "" && SameExcept(s.errors, r.errors, name)
    ensures !(name in s.errors && s.errors[name] != "") ==> r.errors == s.errors
  {
    var errors := if name in s.errors && s.errors[name] != "" then s.errors[name := ""] else s.errors;
    s.(form := s.form[name := value], errors := errors)
  }

  /** The first check of `handleAddCandidate` that fails, in the source's
      order: empty, then malformed, then already listed. */
  function CandidateError(candidates: seq<string>, email: string): (r: Option<string>)
    ensures email == "" ==> r == Some("Email is required")
    ensures email != "" && !ValidateEmail(email) ==> r == Some("Invalid email format")
    ensures ValidateEmail(email) && email in candidates ==> r == Some("Email already added")
    ensures r == None <==> ValidateEmail(email) && email !in candidates
  {
    if email == "" then Some("Email is required")
    else if !ValidateEmail(email) then Some("Invalid email format")
    else if email in candidates then Some("Email already added")
    else None
  }

  /** `handleAddCandidate`: a failing check records its message as the
      `email` error and changes nothing else; otherwise the address goes to
      the end of the list, the box is emptied and the `email` and
      `candidates` errors are blanked. */
  function AddCandidate(s: AlertState): (r: AlertState)
    ensures r.form == s.form
    ensures CandidateError(s.candidates, s.email).Some? ==>
      r.candidates == s.candidates && r.email == s.email &&
      "email" in r.errors && r.errors["email"] == CandidateError(s.candidates, s.email).value &&
      SameExcept(s.errors, r.errors, "email")
    ensures CandidateError(s.candidates, s.email) == None ==>
      r.candidates == s.candidates + [s.email] && r.email == "" &&
      "email" in r.errors && r.errors["email"] == "" &&
      "candidates" in r.errors && r.errors["candidates"] == "" &&
      forall k :: k in s.errors && k != "email" && k != "candidates" ==> k in r.errors && r.errors[k] == s.errors[k]
  {
    match CandidateError(s.candidates, s.email)
    case Some(message) => s.(errors := s.errors["email" := message])
    case None =>
      s.(candidates := s.candidates + [s.email], email := "",
         errors := s.errors["email" := ""]["candidates" := ""])
  }

  /** `handleRemoveCandidate`: every entry equal to the address goes, the
      rest keep their order. */
  function RemoveCandidate(s: AlertState, emailToRemove: string): (r: AlertState)
    ensures emailToRemove !in r.candidates
    ensures Lists.IsSubseq(r.candidates, s.candidates)
    ensures forall i :: 0 <= i < |s.candidates| && s.candidates[i] != emailToRemove ==> s.candidates[i] in r.candidates
    ensures |r.candidates| == |s.candidates| - Lists.Count(s.candidates, emailToRemove)
    ensures r.email == s.email && r.form == s.form && r.errors == s.errors
  {
    Lists.RemoveAllIsFilter(s.candidates, emailToRemove);
    s.(candidates := Lists.RemoveAll(s.candidates, emailToRemove))
  }

  /** What the candidate list always satisfies: no address twice, and every
      address has passed `validateEmail`. */
  predicate Roster(candidates: seq<string>) {
    Lists.NoDup(candidates) && forall i :: 0 <= i < |candidates| ==> ValidateEmail(candidates[i])
  }

  /** Adding, removing and typing keep the roster property. */
  lemma RosterPreserved(s: AlertState, emailToRemove: string, name: string, value: string)
    requires Roster(s.candidates)
    ensures Roster(AddCandidate(s).candidates)
    ensures Roster(RemoveCandidate(s, emailToRemove).candidates)
    ensures Roster(HandleChange(s, name, value).candidates)
  {
    Lists.NoDupAppend(s.candidates, s.email);
    Lists.NoDupRemoveAll(s.candidates, emailToRemove);
  }

  /** Every listed address has no white space, exactly one '@' after a
      non-empty local part, and a '.' strictly inside its domain. */
  lemma RosterAddresses(candidates: seq<string>, i: int)
    requires Roster(candidates) && 0 <= i < |candidates|
    ensures EmailPatterns.SingleAtAddress(candidates[i])
  {
    EmailPatterns.StrictMatchIff(candidates[i]);
  }

  /** `!formData[k]` for a field that may be missing. */
  predicate Missing(form: map<string, string>, k: string) {
    k !in form || form[k] == ""
  }

  /** `validateForm`: one message per failing check, keyed by the field. */
  function ValidateForm(form: map<string, string>, candidates: seq<string>): (r: map<string, string>)
    requires "title" in form && "description" in form
    ensures r.Keys <= {"title", "description", "experienceLevel", "endDate", "candidates"}
    ensures "title" in r <==> Text.Blank(form["title"])
    ensures "description" in r <==> Text.Blank(form["description"])
    ensures "experienceLevel" in r <==> Missing(form, "experienceLevel")
    ensures "endDate" in r <==> Missing(form, "endDate")
    ensures "candidates" in r <==> candidates == []
    ensures "title" in r ==> r["title"] == "Title is required"
    ensures "description" in r ==> r["description"] == "Description is required"
    ensures "experienceLevel" in r ==> r["experienceLevel"] == "Experience level is required"
    ensures "endDate" in r ==> r["endDate"] == "End date is required"
    ensures "candidates" in r ==> r["candidates"] == "At least one candidate is required"
  {
    var e1 := Flag(map[], Text.Blank(form["title"]), "title", "Title is required");
    var e2 := Flag(e1, Text.Blank(form["description"]), "description", "Description is required");
    var e3 := Flag(e2, Missing(form, "experienceLevel"), "experienceLevel", "Experience level is required");
    var e4 := Flag(e3, Missing(form, "endDate"), "endDate", "End date is required");
    Flag(e4, candidates == [], "candidates", "At least one candidate is required")
  }

  /** `if (failing) newErrors[key] = message`: the entry is added when the
      check fails, and every other entry stays. */
  function Flag(errors: map<string, string>, failing: bool, key: string, message: string): (r: map<string, string>)
    ensures r.Keys == if failing then errors.Keys + {key} else errors.Keys
    ensures failing ==> r[key] == message
    ensures forall k :: k in errors && k != key ==> r[k] == errors[k]
  {
    if failing then errors[key := message] else errors
  }

  /** The form is complete: what `validateForm` demands, stated field by field. */
  predicate Complete(form: map<string, string>, candidates: seq<string>)
    requires "title" in form && "description" in form
  {
    !Text.Blank(form["title"]) && !Text.Blank(form["description"]) &&
    !Missing(form, "experienceLevel") && !Missing(form, "endDate") && |candidates| > 0
  }

  /** `validateForm` returns true exactly when the form is complete. */
  lemma ValidIffComplete(form: map<string, string>, candidates: seq<string>)
    requires "title" in form && "description" in form
    ensures |ValidateForm(form, candidates)| == 0 <==> Complete(form, candidates)
  {
    var r := ValidateForm(form, candidates);
    if !Complete(form, candidates) {
      if Text.Blank(form["title"]) { assert "title" in r; }
      else if Text.Blank(form["description"]) { assert "description" in r; }
      else if Missing(form, "experienceLevel") { assert "experienceLevel" in r; }
      else if Missing(form, "endDate") { assert "endDate" in r; }
      else { assert "candidates" in r; }
    }
  }

  /** The request body: the four fields and the list, as they stand. */
  datatype Payload = Payload(title: string, description: string, experienceLevel: string, endDate: string, candidates: seq<string>)

  /** How the send request ended. */
  datatype SendOutcome =
    | Sent
    | ServerError(errorField: Value)
    | NoResponse
    | SetupError(message: string)

  datatype Snackbar = Snackbar(message: string, severity: string)

  /** What one press of the submit button does. */
  datatype Submission = Submission(errors: map<string, string>, sent: Option<Payload>, snackbar: Option<Snackbar>)

  /** The snackbar the catch block opens: the server's `error` string when it
      sent one, a fixed text when no response came, else the thrown message. */
  function FailureText(outcome: SendOutcome): (r: string)
    requires !outcome.Sent?
    ensures outcome.ServerError? && outcome.errorField.Str? && outcome.errorField.s != "" ==> r == outcome.errorField.s
    ensures outcome.ServerError? && !Truthy(outcome.errorField) ==> r == "Failed to send job alert. Please try again."
    ensures outcome.NoResponse? ==> r == "No response from server. Please check your connection."
    ensures outcome.SetupError? ==> r == outcome.message
  {
    match outcome
    case ServerError(field) =>
      if field.Str? && field.s != "" then field.s
      else if !Truthy(field) then "Failed to send job alert. Please try again."
      else "[object]"
    case NoResponse => "No response from server. Please check your connection."
    case SetupError(message) => message
  }

  /** `handleSubmit`: an incomplete form records its errors and sends
      nothing; a complete one sends exactly its fields and list and reports
      the outcome. */
  function Submit(s: AlertState, outcome: SendOutcome): (r: Submission)
    requires "title" in s.form && "description" in s.form
    ensures r.errors == ValidateForm(s.form, s.candidates)
    ensures r.sent.Some? <==> Complete(s.form, s.candidates)
    ensures r.sent.Some? ==>
      r.sent.value == Payload(s.form["title"], s.form["description"], s.form["experienceLevel"], s.form["endDate"], s.candidates)
    ensures r.sent == None ==> r.snackbar == None
    ensures r.sent.Some? && outcome.Sent? ==> r.snackbar == Some(Snackbar("Job alert sent successfully!", "success"))
    ensures r.sent.Some? && !outcome.Sent? ==> r.snackbar == Some(Snackbar(FailureText(outcome), "error"))
  {
    var errors := ValidateForm(s.form, s.candidates);
    ValidIffComplete(s.form, s.candidates);
    if |errors| != 0 then Submission(errors, None, None)
    else
      var payload := Payload(s.form["title"], s.form["description"], s.form["experienceLevel"], s.form["endDate"], s.candidates);
      var note := if outcome.Sent? then Snackbar("Job alert sent successfully!", "success") else Snackbar(FailureText(outcome), "error");
      Submission(errors, Some(payload), Some(note))
  }
}
