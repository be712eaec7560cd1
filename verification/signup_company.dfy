/** The company registration form. */
module CompanySignup {
  import opened Js
  import Text
  import Signup

  /** The required profile fields, in the order `validateForm` checks them. */
  const Fields: seq<Signup.Required> := [
    Signup.Required("companyName", "Company name is required"),
    Signup.Required("industry", "Industry is required"),
    Signup.Required("location", "Location is required"),
    Signup.Required("website", "Website is required")]

  /** The names of the inputs the form renders. */
  const Inputs: set<string> := {"email", "companyName", "industry", "location", "website", "password"}

  function Initial(): (r: Props)
    ensures Signup.Shaped(r, Fields)
    ensures Get(r, "role") == Str("company")
    ensures forall i :: 0 <= i < |Fields| ==> Get(Signup.ProfileOf(r), Fields[i].field) == Str("")
  {
    map["email" := Str(""), "password" := Str(""), "role" := Str("company"),
        "profile" := Obj(map["companyName" := Str(""), "industry" := Str(""), "location" := Str(""), "website" := Str("")])]
  }

  lemma FieldsLayout()
    ensures Signup.Layout(Fields)
  {
  }

  /** `handleChange`: the value goes where the name routes it, and the
      field's error, when it has a non-empty one, is blanked. */
  function HandleChange(s: Signup.SignupState, name: string, value: string): (r: Signup.SignupState)
    ensures r.form == Signup.Change(s.form, name, value)
    ensures r.errors == Signup.ClearError(s.errors, name)
    ensures r.message == s.message && r.success == s.success
  {
    s.(form := Signup.Change(s.form, name, value), errors := Signup.ClearError(s.errors, name))
  }

  /** Typing into the rendered inputs keeps the form checkable and its role
      "company". */
  lemma InputsKeepShape(s: Signup.SignupState, name: string, value: string)
    requires Signup.Shaped(s.form, Fields) && Get(s.form, "role") == Str("company")
    requires name in Inputs
    ensures Signup.Shaped(HandleChange(s, name, value).form, Fields)
    ensures Get(HandleChange(s, name, value).form, "role") == Str("company")
  {
    Signup.ChangeKeepsShape(s.form, Fields, name, value);
  }

  /** A company name entered as white space only still fails validation. */
  lemma BlankCompanyNameRejected(s: Signup.SignupState, value: string)
    requires Signup.Shaped(s.form, Fields) && Text.AllSpace(value)
    ensures Signup.Layout(Fields) && Signup.Shaped(HandleChange(s, "companyName", value).form, Fields)
    ensures "companyName" in Signup.Validate(HandleChange(s, "companyName", value).form, Fields)
  {
    FieldsLayout();
    var f := HandleChange(s, "companyName", value).form;
    Signup.ChangeKeepsShape(s.form, Fields, "companyName", value);
    assert Get(Signup.ProfileOf(f), Fields[0].field) == Str(value);
  }

  /** `handleSubmit`, with the company's fields and initial state. */
  function Submit(s: Signup.SignupState, outcome: Signup.RegisterOutcome): (r: Signup.Submission)
    requires Signup.Shaped(s.form, Fields)
    ensures r.sent.Some? <==> Signup.Complete(s.form, Fields)
    ensures r.sent.Some? ==> r.sent.value == s.form
    ensures r.sent.Some? && outcome.Registered? ==> r.state.form == Initial() && r.state.success
    ensures r.sent.Some? && outcome.Refused? ==> r.state.form == s.form && !r.state.success
    ensures r.sent.None? ==> r.state.form == s.form
  {
    FieldsLayout();
    Signup.Submit(s, Fields, map[], Initial(), outcome)
  }

  /** The freshly reset form is not submittable: nothing is sent for it. */
  lemma InitialNotSent(s: Signup.SignupState, outcome: Signup.RegisterOutcome)
    requires s.form == Initial()
    ensures Submit(s, outcome).sent.None?
  {
    assert Text.Blank(Get(Signup.ProfileOf(s.form), Fields[0].field).s);
  }
}
