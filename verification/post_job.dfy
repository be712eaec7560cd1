/** The post-job form: scalar fields plus three duplicate-free string lists,
    each fed from its own text box. */
module PostJob {
  import opened Js
  import Text
  import Lists

  /** The list fields of `formData`. */
  const ListFields: set<string> := {"jobHighlights", "requirements", "keySkills"}

  /** The `tempInputs` key of the text box that feeds each list. */
  function BoxOf(field: string): (r: string)
    requires field in ListFields
    ensures r != field
  {
    if field == "jobHighlights" then "highlight"
    else if field == "requirements" then "requirement"
    else "skill"
  }

  /** `formData` and `tempInputs`. */
  datatype PostState = PostState(form: Props, temp: map<string, string>)

  /** Every list field holds an array. */
  predicate Ready(s: PostState) {
    forall f :: f in ListFields ==> f in s.form && s.form[f].Arr?
  }

  /** Every list is free of duplicates. */
  predicate DuplicateFree(s: PostState)
    requires Ready(s)
  {
    forall f :: f in ListFields ==> Lists.NoDup(s.form[f].items)
  }

  function Initial(): (r: PostState)
    ensures Ready(r) && DuplicateFree(r)
    ensures forall f :: f in ListFields ==> r.form[f] == Arr([])
    ensures r.temp.Keys == {"highlight", "requirement", "skill"} && r.temp.Values == {""}
  {
    PostState(
      map["title" := Str(""), "location" := Str(""), "openings" := Str(""),
          "employmentType" := Str(""), "experienceLevel" := Str(""), "salary" := Str(""),
          "deadlineDate" := Str(""), "description" := Str(""),
          "jobHighlights" := Arr([]), "requirements" := Arr([]), "keySkills" := Arr([])],
      map["highlight" := "", "requirement" := "", "skill" := ""])
  }

  /** `handleInputChange`: one field takes the new value, nothing else changes. */
  function InputChange(s: PostState, field: string, value: Value): (r: PostState)
    ensures field in r.form && r.form[field] == value
    ensures SameExcept(s.form, r.form, field)
    ensures r.temp == s.temp
  {
    s.(form := Put(s.form, field, value))
  }

  /** The condition under which `handleAddItem` adds anything. */
  predicate Adds(s: PostState, field: string, value: string)
    requires Ready(s) && field in ListFields
  {
    !Text.Blank(value) && Str(Text.Trim(value)) !in s.form[field].items
  }

  /** `handleAddItem`: the trimmed value is appended to the list exactly when
      it is non-empty and not already there; then the `tempInputs` entry named
      after the list (not the visible box) is cleared. Otherwise nothing
      changes. */
  function AddItem(s: PostState, field: string, value: string): (r: PostState)
    requires Ready(s) && field in ListFields
    ensures Ready(r)
    ensures Adds(s, field, value) ==>
      r.form[field] == Arr(s.form[field].items + [Str(Text.Trim(value))]) &&
      SameExcept(s.form, r.form, field) &&
      field in r.temp && r.temp[field] == "" && SameExcept(s.temp, r.temp, field)
    ensures !Adds(s, field, value) ==> r == s
    ensures BoxOf(field) in s.temp ==> BoxOf(field) in r.temp && r.temp[BoxOf(field)] == s.temp[BoxOf(field)]
    ensures DuplicateFree(s) ==> DuplicateFree(r)
  {
    var items := s.form[field].items;
    var text := Text.Trim(value);
    if text != "" && Str(text) !in items then
      Lists.NoDupAppend(items, Str(text));
      PostState(s.form[field := Arr(items + [Str(text)])], s.temp[field := ""])
    else s
  }

  /** `handleRemoveItem`: only the element at `index` goes, the rest keep
      their order; an index outside the list changes nothing. */
  function RemoveItem(s: PostState, field: string, index: int): (r: PostState)
    requires Ready(s) && field in ListFields
    ensures Ready(r) && r.temp == s.temp
    ensures var items := s.form[field].items;
      0 <= index < |items| ==>
        r.form[field] == Arr(items[..index] + items[index + 1..]) && SameExcept(s.form, r.form, field)
    ensures !(0 <= index < |s.form[field].items|) ==> r == s
    ensures DuplicateFree(s) ==> DuplicateFree(r)
  {
    var items := s.form[field].items;
    var kept := Lists.RemoveAt(items, index);
    if kept == items then s
    else
      Lists.NoDupRemoveAt(items, index);
      s.(form := s.form[field := Arr(kept)])
  }

  /** Adding the same value twice leaves the form as adding it once. */
  lemma AddItemIdempotent(s: PostState, field: string, value: string)
    requires Ready(s) && field in ListFields
    ensures AddItem(AddItem(s, field, value), field, value) == AddItem(s, field, value)
  {
    var once := AddItem(s, field, value);
    if Adds(s, field, value) {
      assert Str(Text.Trim(value)) in once.form[field].items;
    }
  }

  /** The user actions the form wires up: typing into a scalar field, and
      adding to or removing from a list. */
  datatype Action =
    | Change(field: string, value: Value)
    | Add(list: string, text: string)
    | Remove(list: string, index: int)

  /** The form only ever passes these field names. */
  predicate Wired(a: Action) {
    match a
    case Change(field, _) => field !in ListFields
    case Add(list, _) => list in ListFields
    case Remove(list, _) => list in ListFields
  }

  function Step(s: PostState, a: Action): (r: PostState)
    requires Ready(s) && Wired(a)
    ensures Ready(r)
  {
    match a
    case Change(field, value) => InputChange(s, field, value)
    case Add(list, value) => AddItem(s, list, value)
    case Remove(list, index) => RemoveItem(s, list, index)
  }

  function Run(s: PostState, actions: seq<Action>): (r: PostState)
    requires Ready(s)
    requires forall i :: 0 <= i < |actions| ==> Wired(actions[i])
    ensures Ready(r)
    decreases |actions|
  {
    if actions == [] then s else Run(Step(s, actions[0]), actions[1..])
  }

  /** From the empty initial lists, no mix of edits ever puts the same entry
      twice into a list. */
  lemma {:induction false} RunKeepsDuplicateFree(s: PostState, actions: seq<Action>)
    requires Ready(s) && DuplicateFree(s)
    requires forall i :: 0 <= i < |actions| ==> Wired(actions[i])
    ensures DuplicateFree(Run(s, actions))
    decreases |actions|
  {
    if actions != [] {
      var next := Step(s, actions[0]);
      assert DuplicateFree(next) by {
        match actions[0]
        case Change(field, value) =>
          forall f | f in ListFields
            ensures Lists.NoDup(next.form[f].items)
          {
            assert next.form[f] == s.form[f];
          }
        case Add(list, value) =>
        case Remove(list, index) =>
      }
      RunKeepsDuplicateFree(next, actions[1..]);
    }
  }

  lemma InitialStaysDuplicateFree(s: PostState, actions: seq<Action>)
    requires s == Initial()
    requires forall i :: 0 <= i < |actions| ==> Wired(actions[i])
    ensures DuplicateFree(Run(s, actions))
  {
    RunKeepsDuplicateFree(s, actions);
  }
}
