/** The company profile editor. Unlike the student editor, the loaded
    profile replaces the form state wholesale, and every handler rebuilds
    the state from the current value. */
module CompanyProfile {
  import opened Js
  import Text

  function Initial(): (r: Value)
    ensures Rendered(r)
  {
    Obj(map["logo" := Str(""), "description" := Str(""), "foundedYear" := Str(""), "employeeCount" := Str(""),
            "mainServices" := Arr([]),
            "headquarters" := Obj(map["address" := Str(""), "pinCode" := Str("")]),
            "socialLinks" := Obj(map["linkedin" := Str(""), "twitter" := Str("")]),
            "companyInfo" := Obj(map["type" := Str(""), "parentCompany" := Str(""),
                                     "stockSymbols" := Obj(map["bse" := Str(""), "nse" := Str("")])]),
            "contact" := Obj(map["phone" := Str(""), "hr" := Str("")])])
  }

  /** A value of the property `k` that the form can render: `mainServices`
      must have `join`, and the groups whose properties are read must not be
      nullish, down to `companyInfo.stockSymbols`. */
  predicate FitsKey(k: string, v: Value) {
    if k == "mainServices" then v.Arr?
    else if k == "companyInfo" then !Nullish(v) && !Nullish(Prop(v, "stockSymbols"))
    else if k in {"headquarters", "socialLinks", "contact"} then !Nullish(v)
    else true
  }

  /** Every rendered property that is present has a renderable value. */
  predicate Fits(m: Props) {
    forall k :: k in m ==> FitsKey(k, m[k])
  }

  /** The state renders without reading a property of `undefined`. */
  predicate Rendered(p: Value) {
    p.Obj? && Fits(p.props) &&
    "mainServices" in p.props && "headquarters" in p.props && "socialLinks" in p.props &&
    "companyInfo" in p.props && "contact" in p.props
  }

  /** How the profile fetch ended: the response body, or a thrown error. */
  datatype FetchOutcome = Fetched(data: Value) | FetchFailed

  /** `setProfileData(response.data.profile)`, as written: the server's
      profile, whatever it holds, replaces the state; a failed request or a
      nullish body (reading `.profile` throws) leaves it alone. */
  function Load(prev: Value, outcome: FetchOutcome): (r: Value)
    ensures outcome.FetchFailed? ==> r == prev
    ensures outcome.Fetched? && Nullish(outcome.data) ==> r == prev
    ensures outcome.Fetched? && !Nullish(outcome.data) ==> r == Prop(outcome.data, "profile")
  {
    match outcome
    case FetchFailed => prev
    case Fetched(data) => if Nullish(data) then prev else Prop(data, "profile")
  }

  /** The profile the company registration form creates. */
  function RegisteredProfile(): Value {
    Obj(map["companyName" := Str("Acme"), "industry" := Str("Tools"), "location" := Str("Pune"), "website" := Str("acme.example")])
  }

  /** Loading the profile of a freshly registered company leaves a state
      without `mainServices`, whose `join` the form then calls. */
  lemma LoadDropsDefaults()
    ensures !Rendered(Load(Initial(), Fetched(Obj(map["profile" := RegisteredProfile()]))))
  {
    var r := Load(Initial(), Fetched(Obj(map["profile" := RegisteredProfile()])));
    assert "mainServices" !in r.props;
  }

  /** The load the form evidently needs: the server's properties copied
      over the current state, as the student editor does. */
  function LoadMerged(prev: Value, outcome: FetchOutcome): (r: Value)
    requires prev.Obj?
    ensures r.Obj? && prev.props.Keys <= r.props.Keys
    ensures outcome.Fetched? && !Nullish(outcome.data) ==>
      forall k :: k in SpreadOf(Prop(outcome.data, "profile")) ==> k in r.props && r.props[k] == SpreadOf(Prop(outcome.data, "profile"))[k]
    ensures outcome.FetchFailed? || Nullish(outcome.data) ==> r == prev
  {
    match outcome
    case FetchFailed => prev
    case Fetched(data) => if Nullish(data) then prev else Obj(prev.props + SpreadOf(Prop(data, "profile")))
  }

  /** The merged load keeps the form renderable whenever the server's
      rendered properties, where present, are renderable. */
  lemma LoadMergedRendered(prev: Value, outcome: FetchOutcome)
    requires Rendered(prev)
    requires outcome.Fetched? ==> Fits(SpreadOf(Prop(outcome.data, "profile")))
    ensures Rendered(LoadMerged(prev, outcome))
  {
  }

  /** The merged load renders the freshly registered profile. */
  lemma LoadMergedRegistered()
    ensures Rendered(LoadMerged(Initial(), Fetched(Obj(map["profile" := RegisteredProfile()]))))
  {
    LoadMergedRendered(Initial(), Fetched(Obj(map["profile" := RegisteredProfile()])));
  }

  /** `handleInputChange`: `{...profileData, [field]: value}`. */
  function InputChange(p: Value, field: string, value: Value): (r: Value)
    ensures r.Obj? && Get(r.props, field) == value && SameExcept(SpreadOf(p), r.props, field)
  {
    Obj(Put(SpreadOf(p), field, value))
  }

  /** `handleNestedInputChange`: one property of one group changes. */
  function NestedInputChange(p: Value, key: string, field: string, value: string): (r: Value)
    requires p.Obj?
    ensures r.Obj? && SameExcept(p.props, r.props, key)
    ensures Get(r.props, key).Obj? && Get(Get(r.props, key).props, field) == Str(value)
    ensures SameExcept(SpreadOf(Get(p.props, key)), Get(r.props, key).props, field)
  {
    Obj(Put(p.props, key, Obj(Put(SpreadOf(Get(p.props, key)), field, Str(value)))))
  }

  /** The social-link inputs write one link and keep the others. */
  function SocialLinkChange(p: Value, platform: string, value: string): (r: Value)
    requires p.Obj?
    ensures r.Obj? && SameExcept(p.props, r.props, "socialLinks")
    ensures Get(r.props, "socialLinks").Obj? && Get(Get(r.props, "socialLinks").props, platform) == Str(value)
    ensures SameExcept(SpreadOf(Get(p.props, "socialLinks")), Get(r.props, "socialLinks").props, platform)
  {
    Obj(p.props["socialLinks" := Obj(SpreadOf(Get(p.props, "socialLinks"))[platform := Str(value)])])
  }

  /** The inline social-link handler is the nested handler on `socialLinks`. */
  lemma SocialLinkIsNested(p: Value, platform: string, value: string)
    requires p.Obj?
    ensures SocialLinkChange(p, platform, value) == NestedInputChange(p, "socialLinks", platform, value)
  {
  }

  /** A stock-symbol input writes one exchange's symbol two levels down;
      the other symbol, the rest of `companyInfo` and the rest of the
      profile stay. Reading `companyInfo.stockSymbols` needs `companyInfo`. */
  function StockSymbolChange(p: Value, exchange: string, value: string): (r: Value)
    requires p.Obj? && !Nullish(Get(p.props, "companyInfo"))
    ensures r.Obj? && SameExcept(p.props, r.props, "companyInfo")
    ensures var info := Get(r.props, "companyInfo");
      info.Obj? && SameExcept(SpreadOf(Get(p.props, "companyInfo")), info.props, "stockSymbols") &&
      Prop(info, "stockSymbols").Obj? && Get(Prop(info, "stockSymbols").props, exchange) == Str(value) &&
      SameExcept(SpreadOf(Prop(Get(p.props, "companyInfo"), "stockSymbols")), Prop(info, "stockSymbols").props, exchange)
  {
    var info := Get(p.props, "companyInfo");
    var symbols := Put(SpreadOf(Prop(info, "stockSymbols")), exchange, Str(value));
    Obj(Put(p.props, "companyInfo", Obj(Put(SpreadOf(info), "stockSymbols", Obj(symbols)))))
  }

  /** The main-services box: its text split at commas, each piece trimmed. */
  function ServicesChange(p: Value, text: string): (r: Value)
    ensures r.Obj? && SameExcept(SpreadOf(p), r.props, "mainServices")
    ensures Get(r.props, "mainServices").Arr? && |Get(r.props, "mainServices").items| == |Text.SplitTrim(text)|
    ensures forall i :: 0 <= i < |Get(r.props, "mainServices").items| ==>
      Get(r.props, "mainServices").items[i] == Str(Text.SplitTrim(text)[i])
  {
    InputChange(p, "mainServices", Arr(Strs(Text.SplitTrim(text))))
  }

  /** Leaving the shown `mainServices.join(', ')` text as it is keeps a list
      of trimmed, comma-free services. */
  lemma ServicesRoundTrip(p: Value, services: seq<string>)
    requires |services| >= 1 && forall i :: 0 <= i < |services| ==> Text.Tidy(services[i])
    ensures Get(ServicesChange(p, Text.JoinCommaSpace(services)).props, "mainServices") == Arr(Strs(services))
  {
    Text.SplitTrimJoin(services);
  }

  /** Clearing the box leaves one empty service, not an empty list. */
  lemma ClearedServices(p: Value)
    ensures Get(ServicesChange(p, "").props, "mainServices") == Arr([Str("")])
  {
    Text.SplitTrimEmpty();
  }

  /** Changing one property to a value that fits it keeps the form
      renderable. */
  lemma ReplaceKeepsRendered(p: Value, r: Value, key: string)
    requires Rendered(p) && r.Obj? && SameExcept(p.props, r.props, key)
    requires key in r.props && FitsKey(key, r.props[key])
    ensures Rendered(r)
  {
  }

  /** The plain text inputs keep the form renderable. */
  lemma InputKeepsRendered(p: Value, field: string, value: string)
    requires Rendered(p) && field in {"logo", "description", "foundedYear", "employeeCount"}
    ensures Rendered(InputChange(p, field, Str(value)))
  {
    ReplaceKeepsRendered(p, InputChange(p, field, Str(value)), field);
  }

  lemma ServicesKeepRendered(p: Value, text: string)
    requires Rendered(p)
    ensures Rendered(ServicesChange(p, text))
  {
    ReplaceKeepsRendered(p, ServicesChange(p, text), "mainServices");
  }

  /** The grouped inputs keep the form renderable; none of them writes
      `stockSymbols` itself. */
  lemma NestedKeepsRendered(p: Value, key: string, field: string, value: string)
    requires Rendered(p) && key in {"headquarters", "companyInfo", "contact"} && field != "stockSymbols"
    ensures Rendered(NestedInputChange(p, key, field, value))
  {
    var r := NestedInputChange(p, key, field, value);
    if key == "companyInfo" {
      assert Prop(Get(r.props, key), "stockSymbols") == Prop(Get(p.props, key), "stockSymbols");
    }
    ReplaceKeepsRendered(p, r, key);
  }

  lemma SocialKeepsRendered(p: Value, platform: string, value: string)
    requires Rendered(p)
    ensures Rendered(SocialLinkChange(p, platform, value))
  {
    ReplaceKeepsRendered(p, SocialLinkChange(p, platform, value), "socialLinks");
  }

  lemma StockKeepsRendered(p: Value, exchange: string, value: string)
    requires Rendered(p)
    ensures Rendered(StockSymbolChange(p, exchange, value))
  {
    ReplaceKeepsRendered(p, StockSymbolChange(p, exchange, value), "companyInfo");
  }

  /** The PATCH body: the whole state under `profile`. */
  function SubmitBody(p: Value): (r: Value)
    ensures r.Obj? && r.props.Keys == {"profile"} && Prop(r, "profile") == p
  {
    Obj(map["profile" := p])
  }

  function SaveNotice(ok: bool): (r: string)
    ensures ok <==> r == "Company profile updated successfully!"
  {
    if ok then "Company profile updated successfully!" else "Failed to update company profile."
  }
}
