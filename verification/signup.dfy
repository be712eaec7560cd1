/** What the two registration forms share: the form state keeps `email`,
    `password` and `role` at the top level and everything else in `profile`;
    validation checks the e-mail, the password and a list of required
    profile text fields; a successful registration resets the form. */
module Signup {
  import opened Options
  import opened Js
  import Text
  import EmailPatterns

  /** The keys of the initial form state. `name in initialFormState` sends
      an input with one of these names to the top level and any other name
      into `profile`. */
  const TopKeys: set<string> := {"email", "password", "role", "profile"}

  /** A profile text field that must not be blank, and its error message. */
  datatype Required = Required(field: string, message: string)

  /** Distinct profile field names, none of them a top-level key. */
  predicate Layout(fields: seq<Required>) {
    (forall i :: 0 <= i < |fields| ==> fields[i].field !in TopKeys) &&
    forall i, j :: 0 <= i < j < |fields| ==> fields[i].field != fields[j].field
  }

  /** `k` is one of the required fields. */
  predicate Named(fields: seq<Required>, k: string) {
    exists i | 0 <= i < |fields| :: fields[i].field == k
  }

  /** `formData.profile`, as `{...formData.profile}` copies it. */
  function ProfileOf(form: Props): Props {
    SpreadOf(Get(form, "profile"))
  }

  predicate TextFields(profile: Props, fields: seq<Required>) {
    forall i :: 0 <= i < |fields| ==> Get(profile, fields[i].field).Str?
  }

  /** The shape validation relies on: `.trim()` is called on the e-mail and
      on every required field, so these must be strings. */
  predicate Shaped(form: Props, fields: seq<Required>) {
    Get(form, "email").Str? && Get(form, "password").Str? && Get(form, "role").Str? &&
    Get(form, "profile").Obj? && TextFields(ProfileOf(form), fields)
  }

  /** The unanchored pattern needs an '@', so a string it accepts is not blank. */
  lemma LooseNotBlank(email: string)
    ensures EmailPatterns.LooseMatch(email) ==> !Text.Blank(email)
  {
    if EmailPatterns.LooseMatch(email) {
      var a, i, j, e :| 0 <= a <= |email| && 0 <= i <= |email| && 0 <= j <= |email| && 0 <= e <= |email| &&
        EmailPatterns.LooseAt(email, a, i, j, e);
      assert !Text.IsSpace(email[i]);
    }
  }

  /** The e-mail check: blank first, then the unanchored pattern
      `/\S+@\S+\.\S+/`. */
  function EmailError(email: string): (r: Option<string>)
    ensures Text.Blank(email) ==> r == Some("Email is required")
    ensures !Text.Blank(email) && !EmailPatterns.LooseMatch(email) ==> r == Some("Please enter a valid email")
    ensures r == None <==> EmailPatterns.LooseMatch(email)
  {
    LooseNotBlank(email);
    if Text.Blank(email) then Some("Email is required")
    else if !EmailPatterns.LooseMatch(email) then Some("Please enter a valid email")
    else None
  }

  /** One message per blank required field, keyed by the field name. */
  function ProfileErrors(profile: Props, fields: seq<Required>): (r: map<string, string>)
    requires Layout(fields) && TextFields(profile, fields)
    ensures forall k :: k in r ==> Named(fields, k)
    ensures forall i :: 0 <= i < |fields| ==> (fields[i].field in r <==> Text.Blank(Get(profile, fields[i].field).s))
    ensures forall i :: 0 <= i < |fields| && fields[i].field in r ==> r[fields[i].field] == fields[i].message
    decreases |fields|
  {
    if fields == [] then map[]
    else
      var rest := ProfileErrors(profile, fields[1..]);
      assert forall k :: Named(fields[1..], k) ==> Named(fields, k) by {
        forall k | Named(fields[1..], k)
          ensures Named(fields, k)
        {
          var i :| 0 <= i < |fields[1..]| && fields[1..][i].field == k;
          assert fields[i + 1].field == k;
        }
      }
      assert Named(fields, fields[0].field);
      var f := fields[0];
      if Text.Blank(Get(profile, f.field).s) then rest[f.field := f.message] else rest
  }

  /** The form's `validateForm`: the e-mail, a non-empty password (it is not
      trimmed), and every required profile field. */
  function Validate(form: Props, fields: seq<Required>): (r: map<string, string>)
    requires Shaped(form, fields) && Layout(fields)
    ensures forall k :: k in r ==> k == "email" || k == "password" || Named(fields, k)
    ensures "email" in r <==> !EmailPatterns.LooseMatch(Get(form, "email").s)
    ensures "email" in r ==> Some(r["email"]) == EmailError(Get(form, "email").s)
    ensures "password" in r <==> Get(form, "password").s == ""
    ensures "password" in r ==> r["password"] == "Password is required"
    ensures forall i :: 0 <= i < |fields| ==> (fields[i].field in r <==> Text.Blank(Get(ProfileOf(form), fields[i].field).s))
    ensures forall i :: 0 <= i < |fields| && fields[i].field in r ==> r[fields[i].field] == fields[i].message
  {
    var email := Get(form, "email").s;
    var e0: map<string, string> := map[];
    var e1 := if EmailError(email).Some? then e0["email" := EmailError(email).value] else e0;
    var e2 := if Get(form, "password").s == "" then e1["password" := "Password is required"] else e1;
    var profile := ProfileErrors(ProfileOf(form), fields);
    assert "email" !in profile && "password" !in profile by {
      forall k | k in profile
        ensures k != "email" && k != "password"
      {
        var i :| 0 <= i < |fields| && fields[i].field == k;
      }
    }
    e2 + profile
  }

  /** What a valid form holds, stated without the error map. */
  predicate Complete(form: Props, fields: seq<Required>)
    requires Shaped(form, fields)
  {
    EmailPatterns.LooseMatch(Get(form, "email").s) && Get(form, "password").s != "" &&
    forall i :: 0 <= i < |fields| ==> !Text.Blank(Get(ProfileOf(form), fields[i].field).s)
  }

  /** `validateForm` returns true exactly for a complete form. */
  lemma ValidIffComplete(form: Props, fields: seq<Required>)
    requires Shaped(form, fields) && Layout(fields)
    ensures |Validate(form, fields)| == 0 <==> Complete(form, fields)
  {
    var r := Validate(form, fields);
    if !Complete(form, fields) {
      if !EmailPatterns.LooseMatch(Get(form, "email").s) {
        assert "email" in r;
      } else if Get(form, "password").s == "" {
        assert "password" in r;
      } else {
        var i :| 0 <= i < |fields| && Text.Blank(Get(ProfileOf(form), fields[i].field).s);
        assert fields[i].field in r;
      }
    }
  }

  /** `handleChange` on the form: a top-level name is set in place, any
      other name is set inside `profile`, and nothing else changes. */
  function Change(form: Props, name: string, value: string): (r: Props)
    ensures name in TopKeys ==> Get(r, name) == Str(value) && SameExcept(form, r, name)
    ensures name !in TopKeys ==>
      Get(r, "profile").Obj? && Get(ProfileOf(r), name) == Str(value) &&
      SameExcept(ProfileOf(form), ProfileOf(r), name) && SameExcept(form, r, "profile")
  {
    if name in TopKeys then Put(form, name, Str(value))
    else Put(form, "profile", Obj(Put(ProfileOf(form), name, Str(value))))
  }

  /** `if (errors[name]) setErrors(prev => ({...prev, [name]: ''}))`. */
  function ClearError(errors: map<string, string>, name: string): (r: map<string, string>)
    ensures name in errors && errors[name] != "" ==> name in r && r[name] == "" && SameExcept(errors, r, name)
    ensures !(name in errors && errors[name] != "") ==> r == errors
  {
    if name in errors && errors[name] != "" then errors[name := ""] else errors
  }

  /** Typing into any input other than a whole-`profile` one keeps the shape:
      the typed value is a string, and a profile field stays in `profile`. */
  lemma ChangeKeepsShape(form: Props, fields: seq<Required>, name: string, value: string)
    requires Shaped(form, fields) && name != "profile"
    ensures Shaped(Change(form, name, value), fields)
    ensures name != "role" ==> Get(Change(form, name, value), "role") == Get(form, "role")
  {
    var r := Change(form, name, value);
    if name !in TopKeys {
      forall i | 0 <= i < |fields|
        ensures Get(ProfileOf(r), fields[i].field).Str?
      {
        var k := fields[i].field;
        assert k in ProfileOf(form);
        if k != name {
          assert k in ProfileOf(r) && ProfileOf(r)[k] == ProfileOf(form)[k];
        }
      }
    }
  }

  /** The form, its errors and the message line under it. */
  datatype SignupState = SignupState(form: Props, errors: map<string, string>, message: Value, success: bool)

  /** How the registration request ended; a refusal carries
      `error.response?.data?.message`, `undefined` when there was none. */
  datatype RegisterOutcome = Registered | Refused(responseMessage: Value)

  datatype Submission = Submission(state: SignupState, sent: Option<Props>)

  /** `handleSubmit`: an invalid form records its errors and sends nothing;
      a valid one sends the form as it stands. Success resets the form to
      `initial` and announces the redirect; a refusal shows the server's
      message, or a fixed one when it sent none. `extra` holds the errors of
      checks beyond the shared ones. */
  function Submit(s: SignupState, fields: seq<Required>, extra: map<string, string>, initial: Props,
                  outcome: RegisterOutcome): (r: Submission)
    requires Shaped(s.form, fields) && Layout(fields)
    ensures r.state.errors == Validate(s.form, fields) + extra
    ensures r.sent.Some? <==> Complete(s.form, fields) && extra == map[]
    ensures r.sent.Some? ==> r.sent.value == s.form
    ensures r.sent.None? ==> r.state.form == s.form && r.state.message == s.message && r.state.success == s.success
    ensures r.sent.Some? && outcome.Registered? ==>
      r.state.form == initial && r.state.success &&
      r.state.message == Str("Registration successful! Redirecting to login...")
    ensures r.sent.Some? && outcome.Refused? ==>
      r.state.form == s.form && !r.state.success &&
      (Truthy(outcome.responseMessage) ==> r.state.message == outcome.responseMessage) &&
      (!Truthy(outcome.responseMessage) ==> r.state.message == Str("Registration failed. Please try again."))
  {
    var errors := Validate(s.form, fields) + extra;
    ValidIffComplete(s.form, fields);
    assert |errors| == 0 <==> |Validate(s.form, fields)| == 0 && extra == map[] by {
      if |errors| == 0 {
        assert forall k :: k !in errors;
      }
    }
    if |errors| != 0 then Submission(s.(errors := errors), None)
    else match outcome
      case Registered =>
        Submission(SignupState(initial, errors, Str("Registration successful! Redirecting to login..."), true), Some(s.form))
      case Refused(m) =>
        Submission(s.(errors := errors, message := Or(m, Str("Registration failed. Please try again.")), success := false), Some(s.form))
  }
}
