/** The student profile editor: the profile is loaded once and merged over
    the initial state, edited field by field, and sent back whole. */
module StudentProfile {
  import opened Js
  import Text

  /** The four properties the load overrides after spreading the server's
      profile. */
  const Merged: set<string> := {"education", "projects", "socialLinks", "languages"}

  function Initial(): (r: Props)
    ensures Get(r, "languages") == Arr([])
    ensures Get(r, "education").Arr? && |Get(r, "education").items| == 1
    ensures var e := Get(r, "education").items[0];
      e.Obj? && e.props.Keys == {"degree", "university", "year", "grade"} &&
      forall k | k in e.props :: e.props[k] == Str("")
    ensures Get(r, "projects").Arr? && |Get(r, "projects").items| == 1
    ensures var p := Get(r, "projects").items[0];
      p.Obj? && p.props.Keys == {"name", "description", "link", "technologies"} &&
      p.props["technologies"] == Arr([]) &&
      forall k | k in p.props && k != "technologies" :: p.props[k] == Str("")
    ensures Get(r, "socialLinks") == Obj(map["linkedin" := Str(""), "github" := Str(""), "twitter" := Str("")])
  {
    map["profileImage" := Str(""),
        "education" := Arr([Obj(map["degree" := Str(""), "university" := Str(""), "year" := Str(""), "grade" := Str("")])]),
        "projects" := Arr([Obj(map["name" := Str(""), "description" := Str(""), "link" := Str(""), "technologies" := Arr([])])]),
        "socialLinks" := Obj(map["linkedin" := Str(""), "github" := Str(""), "twitter" := Str("")]),
        "gender" := Str(""), "dob" := Str(""), "languages" := Arr([]), "location" := Str(""), "phoneNumber" := Str("")]
  }

  /** `v?.length` is truthy: a non-empty array or string, or an object with
      a truthy `length` property. */
  predicate HasLength(v: Value) {
    match v
    case Arr(items) => |items| > 0
    case Str(s) => s != ""
    case Obj(props) => Truthy(Get(props, "length"))
    case _ => false
  }

  /** `{...a, ...(b || {})}`: the links already there, overridden by the
      server's. */
  function MergeLinks(prev: Value, server: Value): (r: Value)
    ensures r.Obj? && r.props.Keys == SpreadOf(prev).Keys + SpreadOf(Or(server, Obj(map[]))).Keys
    ensures forall k :: k in SpreadOf(Or(server, Obj(map[]))) ==> r.props[k] == SpreadOf(server)[k]
    ensures forall k :: k in SpreadOf(prev) && k !in SpreadOf(server) ==> r.props[k] == SpreadOf(prev)[k]
  {
    Obj(SpreadOf(prev) + SpreadOf(Or(server, Obj(map[]))))
  }

  /** The state after the profile fetch returns `data`: no profile leaves it
      as it was; otherwise every property of the server's profile is
      copied over it, the education and project lists only when they are
      non-empty, the social links merged key by key, and the languages
      kept only when they are an array. Properties the server sends that
      the form does not show are kept too. */
  function Load(prev: Props, data: Value): (r: Props)
    ensures !Truthy(Prop(data, "profile")) ==> r == prev
    ensures Truthy(Prop(data, "profile")) ==>
      var p := Prop(data, "profile");
      r.Keys == prev.Keys + SpreadOf(p).Keys + Merged &&
      (forall k :: k in r && k !in Merged ==> r[k] == (if k in SpreadOf(p) then SpreadOf(p)[k] else prev[k])) &&
      (HasLength(Prop(p, "education")) ==> r["education"] == Prop(p, "education")) &&
      (!HasLength(Prop(p, "education")) ==> r["education"] == Get(prev, "education")) &&
      (HasLength(Prop(p, "projects")) ==> r["projects"] == Prop(p, "projects")) &&
      (!HasLength(Prop(p, "projects")) ==> r["projects"] == Get(prev, "projects")) &&
      r["socialLinks"] == MergeLinks(Get(prev, "socialLinks"), Prop(p, "socialLinks")) &&
      r["languages"].Arr? && (Prop(p, "languages").Arr? ==> r["languages"] == Prop(p, "languages")) &&
      (!Prop(p, "languages").Arr? ==> r["languages"] == Arr([]))
  {
    var p := Prop(data, "profile");
    if !Truthy(p) then prev
    else
      var education := if HasLength(Prop(p, "education")) then Prop(p, "education") else Get(prev, "education");
      var projects := if HasLength(Prop(p, "projects")) then Prop(p, "projects") else Get(prev, "projects");
      var languages := if Prop(p, "languages").Arr? then Prop(p, "languages") else Arr([]);
      (prev + SpreadOf(p))["education" := education]["projects" := projects]
        ["socialLinks" := MergeLinks(Get(prev, "socialLinks"), Prop(p, "socialLinks"))]["languages" := languages]
  }

  /** Loading the same answer twice is loading it once. */
  lemma LoadIdempotent(prev: Props, data: Value)
    ensures Load(Load(prev, data), data) == Load(prev, data)
  {
    var once := Load(prev, data);
    if Truthy(Prop(data, "profile")) {
      var p := Prop(data, "profile");
      MergeLinksIdempotent(Get(prev, "socialLinks"), Prop(p, "socialLinks"));
      var twice := Load(once, data);
      forall k | k in twice
        ensures k in once && twice[k] == once[k]
      {
      }
    }
  }

  /** Merging the same server links twice is merging them once. */
  lemma MergeLinksIdempotent(prev: Value, server: Value)
    ensures MergeLinks(MergeLinks(prev, server), server) == MergeLinks(prev, server)
  {
  }

  /** After a load the links are an object and the languages an array,
      whatever the server sent. */
  lemma LoadShapes(prev: Props, data: Value)
    requires Get(prev, "socialLinks").Obj? && Get(prev, "languages").Arr?
    ensures Get(Load(prev, data), "socialLinks").Obj? && Get(Load(prev, data), "languages").Arr?
  {
  }

  /** `handleInputChange`: one property takes the value. */
  function InputChange(prev: Props, field: string, value: Value): (r: Props)
    ensures Get(r, field) == value && SameExcept(prev, r, field)
  {
    Put(prev, field, value)
  }

  /** `handleNestedInputChange`: one property of one entry of a list
      changes; the list keeps its length and its other entries. */
  function NestedInputChange(prev: Props, key: string, index: int, field: string, value: Value): (r: Props)
    requires Get(prev, key).Arr? && 0 <= index < |Get(prev, key).items|
    ensures SameExcept(prev, r, key)
    ensures Get(r, key).Arr? && |Get(r, key).items| == |Get(prev, key).items|
    ensures forall i :: 0 <= i < |Get(prev, key).items| && i != index ==> Get(r, key).items[i] == Get(prev, key).items[i]
    ensures var entry := Get(r, key).items[index];
      entry.Obj? && Get(entry.props, field) == value &&
      SameExcept(SpreadOf(Get(prev, key).items[index]), entry.props, field)
  {
    var items := Get(prev, key).items;
    Put(prev, key, Arr(items[index := Obj(Put(SpreadOf(items[index]), field, value))]))
  }

  /** `handleSocialLinksChange`: one link changes, the others stay. */
  function SocialLinksChange(prev: Props, platform: string, value: string): (r: Props)
    ensures SameExcept(prev, r, "socialLinks")
    ensures Get(r, "socialLinks").Obj?
    ensures Get(Get(r, "socialLinks").props, platform) == Str(value)
    ensures SameExcept(SpreadOf(Get(prev, "socialLinks")), Get(r, "socialLinks").props, platform)
  {
    Put(prev, "socialLinks", Obj(Put(SpreadOf(Get(prev, "socialLinks")), platform, Str(value))))
  }

  /** The languages box: its text split at commas, each piece trimmed. */
  function LanguagesChange(prev: Props, text: string): (r: Props)
    ensures SameExcept(prev, r, "languages")
    ensures Get(r, "languages").Arr? && |Get(r, "languages").items| == |Text.SplitTrim(text)|
    ensures forall i :: 0 <= i < |Get(r, "languages").items| ==>
      Get(r, "languages").items[i] == Str(Text.SplitTrim(text)[i])
  {
    Put(prev, "languages", Arr(Strs(Text.SplitTrim(text))))
  }

  /** Editing the shown `languages.join(', ')` text without changing it
      keeps a list of trimmed, comma-free languages as it was. */
  lemma LanguagesRoundTrip(prev: Props, languages: seq<string>)
    requires |languages| >= 1 && forall i :: 0 <= i < |languages| ==> Text.Tidy(languages[i])
    ensures Get(LanguagesChange(prev, Text.JoinCommaSpace(languages)), "languages") == Arr(Strs(languages))
  {
    Text.SplitTrimJoin(languages);
  }

  /** Clearing the box leaves one empty language, not an empty list. */
  lemma ClearedLanguages(prev: Props)
    ensures Get(LanguagesChange(prev, ""), "languages") == Arr([Str("")])
  {
    Text.SplitTrimEmpty();
  }

  /** The PATCH body: the whole form under `profile`. */
  function SubmitBody(profile: Props): (r: Value)
    ensures r.Obj? && r.props.Keys == {"profile"} && Prop(r, "profile") == Obj(profile)
  {
    Obj(map["profile" := Obj(profile)])
  }

  /** The notice after the save: a toast on success, an alert otherwise. */
  function SaveNotice(ok: bool): (r: string)
    ensures ok <==> r == "student profile updated successfully!"
  {
    if ok then "student profile updated successfully!" else "Failed to update profile."
  }
}
