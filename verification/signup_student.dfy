/** The student registration form: the shared fields plus a list of
    skills entered one at a time. */
module StudentSignup {
  import opened Js
  import Text
  import Lists
  import Signup

  const Fields: seq<Signup.Required> := [
    Signup.Required("fullName", "Full name is required"),
    Signup.Required("resumeLink", "Resume link is required"),
    Signup.Required("portfolio", "Portfolio link is required")]

  /** The names of the inputs the form renders. */
  const Inputs: set<string> := {"email", "fullName", "resumeLink", "portfolio", "password"}

  lemma FieldsLayout()
    ensures Signup.Layout(Fields)
  {
  }

  /** `formData.profile.skills`. */
  function Skills(form: Props): Value {
    Get(Signup.ProfileOf(form), "skills")
  }

  /** The shared shape, and a skills array of strings. */
  predicate Shaped(form: Props) {
    Signup.Shaped(form, Fields) && Skills(form).Arr? &&
    forall i :: 0 <= i < |Skills(form).items| ==> Skills(form).items[i].Str?
  }

  function Initial(): (r: Props)
    ensures Shaped(r)
    ensures Get(r, "role") == Str("student") && Skills(r) == Arr([])
    ensures forall i :: 0 <= i < |Fields| ==> Get(Signup.ProfileOf(r), Fields[i].field) == Str("")
  {
    map["email" := Str(""), "password" := Str(""), "role" := Str("student"),
        "profile" := Obj(map["fullName" := Str(""), "resumeLink" := Str(""), "skills" := Arr([]), "portfolio" := Str("")])]
  }

  /** The skills check `validateForm` adds to the shared ones. */
  function SkillsError(form: Props): (r: map<string, string>)
    requires Shaped(form)
    ensures "skills" in r <==> Skills(form).items == []
    ensures r.Keys <= {"skills"} && forall k :: k in r ==> r[k] == "At least one skill is required"
  {
    if |Skills(form).items| == 0 then map["skills" := "At least one skill is required"] else map[]
  }

  /** `validateForm`: the shared checks and the skills check, no others. */
  function Validate(form: Props): (r: map<string, string>)
    requires Shaped(form)
    ensures "skills" in r <==> Skills(form).items == []
    ensures forall k :: k != "skills" ==> (k in r <==> k in Signup.Validate(form, Fields))
    ensures |r| == 0 <==> Signup.Complete(form, Fields) && |Skills(form).items| > 0
  {
    FieldsLayout();
    ValidateParts(form);
    Signup.Validate(form, Fields) + SkillsError(form)
  }

  /** The keys of the combined check: "skills" from the skills check only,
      every other key from the shared checks only. */
  lemma ValidateParts(form: Props)
    requires Shaped(form)
    ensures "skills" in Signup.Validate(form, Fields) + SkillsError(form) <==> Skills(form).items == []
    ensures forall k :: k != "skills" ==> (k in Signup.Validate(form, Fields) + SkillsError(form) <==> k in Signup.Validate(form, Fields))
    ensures |Signup.Validate(form, Fields) + SkillsError(form)| == 0 <==>
      Signup.Complete(form, Fields) && |Skills(form).items| > 0
  {
    SkillsNotShared(form);
    ValidateEmptyIff(form);
  }

  /** The combined check passes exactly when both parts do. */
  lemma ValidateEmptyIff(form: Props)
    requires Shaped(form)
    ensures |Signup.Validate(form, Fields) + SkillsError(form)| == 0 <==>
      Signup.Complete(form, Fields) && |Skills(form).items| > 0
  {
    FieldsLayout();
    Signup.ValidIffComplete(form, Fields);
    UnionEmpty(Signup.Validate(form, Fields), SkillsError(form));
  }

  /** No shared check is keyed "skills". */
  lemma SkillsNotShared(form: Props)
    requires Shaped(form)
    ensures "skills" !in Signup.Validate(form, Fields)
  {
    FieldsLayout();
  }

  lemma UnionEmpty(a: map<string, string>, b: map<string, string>)
    ensures |a + b| == 0 <==> |a| == 0 && |b| == 0
  {
    if |a + b| == 0 {
      assert forall k :: k !in a + b;
    }
  }

  /** The form, its errors and message, and the skill being typed. */
  datatype StudentState = StudentState(signup: Signup.SignupState, newSkill: string)

  function HandleChange(s: StudentState, name: string, value: string): (r: StudentState)
    ensures r.signup.form == Signup.Change(s.signup.form, name, value)
    ensures r.signup.errors == Signup.ClearError(s.signup.errors, name)
    ensures r.newSkill == s.newSkill
    ensures r.signup.message == s.signup.message && r.signup.success == s.signup.success
  {
    s.(signup := s.signup.(form := Signup.Change(s.signup.form, name, value),
                           errors := Signup.ClearError(s.signup.errors, name)))
  }

  /** `handleAddSkill`: a non-blank skill is appended trimmed, duplicates
      included, the box is emptied and a pending skills error is blanked; a
      blank one changes nothing. */
  function AddSkill(s: StudentState): (r: StudentState)
    requires Shaped(s.signup.form)
    ensures Shaped(r.signup.form)
    ensures Text.Blank(s.newSkill) ==> r == s
    ensures !Text.Blank(s.newSkill) ==>
      Skills(r.signup.form) == Arr(Skills(s.signup.form).items + [Str(Text.Trim(s.newSkill))]) &&
      SameExcept(Signup.ProfileOf(s.signup.form), Signup.ProfileOf(r.signup.form), "skills") &&
      SameExcept(s.signup.form, r.signup.form, "profile") &&
      r.newSkill == "" && r.signup.errors == Signup.ClearError(s.signup.errors, "skills")
  {
    if Text.Blank(s.newSkill) then s
    else
      var form' := WithSkills(s.signup.form, Skills(s.signup.form).items + [Str(Text.Trim(s.newSkill))]);
      StudentState(s.signup.(form := form', errors := Signup.ClearError(s.signup.errors, "skills")), "")
  }

  /** `{...prev, profile: {...prev.profile, skills}}`: the skill list is
      replaced and every other field of the form and of its profile stays. */
  function WithSkills(form: Props, skills: seq<Value>): (r: Props)
    requires Shaped(form)
    requires forall i :: 0 <= i < |skills| ==> skills[i].Str?
    ensures Shaped(r) && Skills(r) == Arr(skills)
    ensures SameExcept(Signup.ProfileOf(form), Signup.ProfileOf(r), "skills")
    ensures SameExcept(form, r, "profile")
  {
    var profile := Put(Signup.ProfileOf(form), "skills", Arr(skills));
    var form' := Put(form, "profile", Obj(profile));
    assert Signup.ProfileOf(form') == profile;
    assert forall i :: 0 <= i < |Fields| ==> Get(profile, Fields[i].field) == Get(Signup.ProfileOf(form), Fields[i].field);
    form'
  }

  /** `handleRemoveSkill`: every copy of the skill goes, the others stay in
      order. */
  function RemoveSkill(s: StudentState, skillToRemove: string): (r: StudentState)
    requires Shaped(s.signup.form)
    ensures Shaped(r.signup.form)
    ensures Str(skillToRemove) !in Skills(r.signup.form).items
    ensures Lists.IsSubseq(Skills(r.signup.form).items, Skills(s.signup.form).items)
    ensures forall i :: 0 <= i < |Skills(s.signup.form).items| && Skills(s.signup.form).items[i] != Str(skillToRemove) ==>
      Skills(s.signup.form).items[i] in Skills(r.signup.form).items
    ensures |Skills(r.signup.form).items| == |Skills(s.signup.form).items| - Lists.Count(Skills(s.signup.form).items, Str(skillToRemove))
    ensures SameExcept(Signup.ProfileOf(s.signup.form), Signup.ProfileOf(r.signup.form), "skills")
    ensures SameExcept(s.signup.form, r.signup.form, "profile")
    ensures r.newSkill == s.newSkill && r.signup.errors == s.signup.errors
  {
    var items := Skills(s.signup.form).items;
    Lists.RemoveAllIsFilter(items, Str(skillToRemove));
    s.(signup := s.signup.(form := WithSkills(s.signup.form, Lists.RemoveAll(items, Str(skillToRemove)))))
  }

  /** Adding a non-blank skill clears the skills check. */
  lemma AddSkillSatisfiesSkillsCheck(s: StudentState)
    requires Shaped(s.signup.form) && !Text.Blank(s.newSkill)
    ensures "skills" !in Validate(AddSkill(s).signup.form)
  {
  }

  /** `handleSubmit`, with the student's checks and initial state. */
  function Submit(s: StudentState, outcome: Signup.RegisterOutcome): (r: Signup.Submission)
    requires Shaped(s.signup.form)
    ensures r.state.errors == Validate(s.signup.form)
    ensures r.sent.Some? <==> Signup.Complete(s.signup.form, Fields) && |Skills(s.signup.form).items| > 0
    ensures r.sent.Some? ==> r.sent.value == s.signup.form
    ensures r.sent.Some? && outcome.Registered? ==> r.state.form == Initial() && r.state.success
    ensures r.sent.None? ==> r.state.form == s.signup.form
  {
    FieldsLayout();
    Signup.Submit(s.signup, Fields, SkillsError(s.signup.form), Initial(), outcome)
  }

  /** What a user can do on the form. */
  datatype Action =
    | Type(name: string, value: string)
    | TypeSkill(text: string)
    | Add
    | Remove(skill: string)

  /** Typing goes only to the rendered inputs. */
  predicate Wired(a: Action) {
    a.Type? ==> a.name in Inputs
  }

  function Step(s: StudentState, a: Action): (r: StudentState)
    requires Shaped(s.signup.form)
    ensures Shaped(r.signup.form) || (a.Type? && !Wired(a))
  {
    match a
    case Type(name, value) =>
      if name in Inputs then Signup.ChangeKeepsShape(s.signup.form, Fields, name, value); ChangeKeepsSkills(s.signup.form, name, value);
      HandleChange(s, name, value)
      else HandleChange(s, name, value)
    case TypeSkill(text) => s.(newSkill := text)
    case Add => AddSkill(s)
    case Remove(skill) => RemoveSkill(s, skill)
  }

  /** Typing into a rendered input leaves the skills alone. */
  lemma ChangeKeepsSkills(form: Props, name: string, value: string)
    requires name in Inputs
    ensures Skills(Signup.Change(form, name, value)) == Skills(form)
  {
  }

  /** A student's role and the form's shape survive any sequence of wired
      actions. */
  lemma {:induction false} RunKeepsRole(s: StudentState, actions: seq<Action>)
    requires Shaped(s.signup.form) && Get(s.signup.form, "role") == Str("student")
    requires forall i :: 0 <= i < |actions| ==> Wired(actions[i])
    ensures Shaped(Run(s, actions).signup.form)
    ensures Get(Run(s, actions).signup.form, "role") == Str("student")
    decreases |actions|
  {
    if actions != [] {
      var next := Step(s, actions[0]);
      if actions[0].Type? {
        Signup.ChangeKeepsShape(s.signup.form, Fields, actions[0].name, actions[0].value);
      }
      assert Get(next.signup.form, "role") == Str("student");
      RunKeepsRole(next, actions[1..]);
    }
  }

  /** The state after the actions, up to the first unwired one. */
  function Run(s: StudentState, actions: seq<Action>): StudentState
    requires Shaped(s.signup.form)
    decreases |actions|
  {
    if actions == [] || !Wired(actions[0]) then s
    else Run(Step(s, actions[0]), actions[1..])
  }

  /** The form as the page first shows it. */
  function Fresh(): (r: StudentState)
    ensures Shaped(r.signup.form) && Get(r.signup.form, "role") == Str("student")
  {
    StudentState(Signup.SignupState(Initial(), map[], Str(""), false), "")
  }

  /** Whatever the user does through the rendered inputs, a registration
      that is sent carries the role "student". */
  lemma SubmittedRoleIsStudent(actions: seq<Action>, outcome: Signup.RegisterOutcome)
    requires forall i :: 0 <= i < |actions| ==> Wired(actions[i])
    ensures var s := Run(Fresh(), actions);
      Shaped(s.signup.form) &&
      (Submit(s, outcome).sent.Some? ==> Get(Submit(s, outcome).sent.value, "role") == Str("student"))
  {
    RunKeepsRole(Fresh(), actions);
  }
}
