/**
 * The profile page controller: which account properties a viewer may see,
 * the same-instance test, the profile-enabled gate, the parameter arrays the
 * page is built from, and the scope checks that gate contact actions.
 *
 * The collaborators the controller asks (user session, URL generator,
 * request, trusted-server registry, app manager) become plain inputs: `Env`
 * and `Request`.
 */
module ProfileController {
  import opened Wrappers
  import opened Accounts
  import opened PhpArrays

  // ------------------------------------------------------------------
  // Constants of the controller
  // ------------------------------------------------------------------

  /** The properties shown on the page, in display order. */
  const DisplayProperties: seq<PropertyName> :=
    [DisplayName, Address, Company, JobTitle, Headline, Biography]

  /** The JSON key each display property is stored under. */
  const DisplayJsonMap: map<PropertyName, string> := map[
    DisplayName := "displayName",
    Address := "address",
    Company := "company",
    JobTitle := "jobTitle",
    Headline := "headline",
    Biography := "biography"
  ]

  /** The properties that may carry a contact action, in order. */
  const ActionProperties: seq<PropertyName> := [Email, Phone, Website, Twitter]

  /** The JSON key of the `i`-th display property. */
  function DisplayKey(i: nat): string
    requires i < |DisplayProperties|
  {
    DisplayJsonMap[DisplayProperties[i]]
  }

  /**
   * The property lists: six display properties and four action properties,
   * none repeated and none in both lists; the JSON map covers exactly the
   * display properties.
   */
  lemma PropertyListsWellFormed()
    ensures |DisplayProperties| == 6 && |ActionProperties| == 4
    ensures forall i, j :: 0 <= i < j < |DisplayProperties| ==> DisplayProperties[i] != DisplayProperties[j]
    ensures forall i, j :: 0 <= i < j < |ActionProperties| ==> ActionProperties[i] != ActionProperties[j]
    ensures forall p :: p in ActionProperties ==> p !in DisplayProperties
    ensures forall p :: p in DisplayJsonMap <==> p in DisplayProperties
  {
  }

  /** Every display property has its own JSON key, distinct from the other keys of the array. */
  lemma DisplayKeysDistinct()
    ensures forall i, j :: 0 <= i < j < |DisplayProperties| ==> DisplayKey(i) != DisplayKey(j)
    ensures forall i :: 0 <= i < |DisplayProperties| ==>
      DisplayKey(i) != "userId" && DisplayKey(i) != "isAvatarDisplayed"
  {
  }

  // ------------------------------------------------------------------
  // The disclosure table
  // ------------------------------------------------------------------

  /** What the controller knows about whoever asks for the page. */
  datatype Viewer = Viewer(loggedIn: bool, sameInstance: bool, trustedServer: bool)

  /** May a property of this scope be shown to this viewer? One table for fields and the avatar. */
  function Disclose(scope: Scope, viewer: Viewer): (r: bool)
    ensures r ==> viewer.sameInstance || viewer.trustedServer
    ensures r ==> !scope.Other?
  {
    match scope
    case Private => viewer.loggedIn && viewer.sameInstance
    case Local => viewer.sameInstance
    case Federated => viewer.trustedServer
    case Published => viewer.trustedServer
    case Other(_) => false
  }

  /** Private needs both a login and the same instance; either alone is not enough. */
  lemma PrivateNeedsLoginAndSameInstance(viewer: Viewer)
    ensures Disclose(Private, viewer) <==> viewer.loggedIn && viewer.sameInstance
    ensures Disclose(Private, viewer) ==> Disclose(Local, viewer)
  {
  }

  /** Local depends on the instance alone: logging in changes nothing. */
  lemma LocalIgnoresLogin(viewer: Viewer)
    ensures Disclose(Local, viewer) == Disclose(Local, viewer.(loggedIn := !viewer.loggedIn))
    ensures Disclose(Local, viewer) <==> viewer.sameInstance
  {
  }

  /** Federated and Published are treated alike and depend on server trust alone. */
  lemma FederatedAsPublished(viewer: Viewer)
    ensures Disclose(Federated, viewer) == Disclose(Published, viewer) == viewer.trustedServer
  {
  }

  /** A scope outside the four is never disclosed, whoever asks. */
  lemma OtherScopesWithheld(name: string, viewer: Viewer)
    ensures !Disclose(Other(name), viewer)
  {
  }

  /** More credentials never hide a property that fewer credentials show. */
  lemma DiscloseMonotone(scope: Scope, v1: Viewer, v2: Viewer)
    requires v1.loggedIn ==> v2.loggedIn
    requires v1.sameInstance ==> v2.sameInstance
    requires v1.trustedServer ==> v2.trustedServer
    ensures Disclose(scope, v1) ==> Disclose(scope, v2)
  {
  }

  /**
   * The scopes are not nested as their comment describes: a logged-in viewer
   * on the same instance of an untrusted server sees Local and Private
   * properties but not Federated ones.
   */
  lemma FederatedNotWiderThanLocal()
    ensures var v := Viewer(true, true, false);
      Disclose(Private, v) && Disclose(Local, v) && !Disclose(Federated, v)
  {
  }

  // ------------------------------------------------------------------
  // Same server instance
  // ------------------------------------------------------------------

  datatype Request = Request(protocol: string, host: string, uri: string)

  /** `"$protocol://$host$uri"` */
  function RequestUrl(req: Request): string {
    req.protocol + "://" + req.host + req.uri
  }

  /** `substr($s, 0, $length)`: the first `length` characters, or all of `s` when it is shorter. */
  function Substr(s: string, length: nat): (r: string)
    ensures r <= s
    ensures |r| == if length <= |s| then length else |s|
  {
    if length <= |s| then s[..length] else s
  }

  /** The request URL cut to the length of the server base URL equals that base URL. */
  function IsSameServerInstance(serverBaseUrl: string, req: Request): (r: bool)
    ensures r ==> serverBaseUrl <= RequestUrl(req)
    ensures |RequestUrl(req)| < |serverBaseUrl| ==> !r
  {
    Substr(RequestUrl(req), |serverBaseUrl|) == serverBaseUrl
  }

  /** Same instance holds exactly when the base URL is a prefix of the request URL. */
  lemma SameInstanceIffPrefix(serverBaseUrl: string, req: Request)
    ensures IsSameServerInstance(serverBaseUrl, req) <==> serverBaseUrl <= RequestUrl(req)
  {
    var url := RequestUrl(req);
    if serverBaseUrl <= url {
      assert url[..|serverBaseUrl|] == serverBaseUrl;
    }
  }

  /** A request URL shorter than the base URL is never on the same instance. */
  lemma ShortRequestNotSameInstance(serverBaseUrl: string, req: Request)
    requires |RequestUrl(req)| < |serverBaseUrl|
    ensures !IsSameServerInstance(serverBaseUrl, req)
  {
  }

  /**
   * What the controller obtains from its collaborators: the session's login
   * state, the server base URL, the trusted-server registry's answer for that
   * base URL, and whether the Talk app is enabled for the profile's owner.
   */
  datatype Env = Env(loggedIn: bool, serverBaseUrl: string, baseUrlTrusted: bool, talkEnabled: bool)

  function ViewerOf(env: Env, req: Request): Viewer {
    Viewer(env.loggedIn, IsSameServerInstance(env.serverBaseUrl, req), env.baseUrlTrusted)
  }

  // ------------------------------------------------------------------
  // Profile parameters
  // ------------------------------------------------------------------

  /** A display property's entry: its value when disclosed, null when withheld. */
  function FieldEntry(account: Account, viewer: Viewer, i: nat): (string, Json)
    requires account.Complete()
    requires i < |DisplayProperties|
  {
    var p := DisplayProperties[i];
    (DisplayKey(i), if Disclose(account.ScopeOf(p), viewer) then JString(account.Value(p)) else JNull)
  }

  /** The entries of the first `n` display properties. */
  function ScopedFields(account: Account, viewer: Viewer, n: nat): Params
    requires account.Complete()
    requires n <= |DisplayProperties|
  {
    seq(n, i requires 0 <= i < n => FieldEntry(account, viewer, i))
  }

  /** The scope-filtered array the controller builds before it is overwritten. */
  function ScopedProjection(account: Account, viewer: Viewer): (r: Params)
    requires account.Complete()
    ensures |r| == |DisplayProperties| + 2
    ensures r[0] == ("userId", JString(account.uid))
    ensures r[|r| - 1].0 == "isAvatarDisplayed"
  {
    [("userId", JString(account.uid))]
    + ScopedFields(account, viewer, |DisplayProperties|)
    + [("isAvatarDisplayed", JBool(Disclose(account.ScopeOf(Avatar), viewer)))]
  }

  /** The array the controller actually returns: raw values, no scope applied. */
  function ReturnedParams(account: Account, talkEnabled: bool): (r: Params)
    requires account.Complete()
    ensures Keys(r) == ["userId", "displayName", "address", "actionParameters"]
  {
    [
      ("userId", JString(account.uid)),
      ("displayName", JString(account.Value(DisplayName))),
      ("address", JString(account.Value(Address))),
      ("actionParameters", JObject([
        ("talkEnabled", JBool(talkEnabled)),
        ("email", JString(account.Value(Email))),
        ("phoneNumber", JString(account.Value(Phone))),
        ("website", JString(account.Value(Website))),
        ("twitterUsername", JString(account.Value(Twitter)))
      ]))
    ]
  }

  lemma ScopedFieldsKeys(account: Account, viewer: Viewer, n: nat)
    requires account.Complete()
    requires n <= |DisplayProperties|
    ensures forall i :: 0 <= i < n ==> ScopedFields(account, viewer, n)[i].0 == DisplayKey(i)
  {
  }

  /**
   * The scoped array holds `userId`, then one entry per display property in
   * display order under its own key, then `isAvatarDisplayed`; no key repeats.
   */
  lemma ScopedProjectionShape(account: Account, viewer: Viewer)
    requires account.Complete()
    ensures Keys(ScopedProjection(account, viewer)) ==
      ["userId", "displayName", "address", "company", "jobTitle", "headline", "biography", "isAvatarDisplayed"]
    ensures DistinctKeys(ScopedProjection(account, viewer))
  {
    var proj := ScopedProjection(account, viewer);
    DisplayKeysDistinct();
    assert forall i :: 1 <= i < 7 ==> proj[i].0 == DisplayKey(i - 1);
  }

  /** A display property's entry is its raw value when the table discloses it, and null otherwise. */
  lemma ScopedFieldFollowsTable(account: Account, viewer: Viewer, i: nat)
    requires account.Complete()
    requires i < |DisplayProperties|
    ensures var p := DisplayProperties[i];
      Lookup(ScopedProjection(account, viewer), DisplayJsonMap[p]) ==
        Some(if Disclose(account.ScopeOf(p), viewer) then JString(account.Value(p)) else JNull)
  {
    var proj := ScopedProjection(account, viewer);
    ScopedProjectionShape(account, viewer);
    assert proj[i + 1] == FieldEntry(account, viewer, i);
    LookupAt(proj, i + 1);
  }

  /** The avatar flag follows the same table as the fields. */
  lemma ScopedAvatarFollowsTable(account: Account, viewer: Viewer)
    requires account.Complete()
    ensures Lookup(ScopedProjection(account, viewer), "isAvatarDisplayed") ==
      Some(JBool(Disclose(account.ScopeOf(Avatar), viewer)))
  {
    var proj := ScopedProjection(account, viewer);
    ScopedProjectionShape(account, viewer);
    LookupAt(proj, 7);
  }

  /**
   * The returned array shows the raw display name and address whatever
   * their scopes, and has no avatar flag.
   */
  lemma ReturnedParamsIgnoreScopes(account: Account, talkEnabled: bool)
    requires account.Complete()
    ensures Lookup(ReturnedParams(account, talkEnabled), "displayName") == Some(JString(account.Value(DisplayName)))
    ensures Lookup(ReturnedParams(account, talkEnabled), "address") == Some(JString(account.Value(Address)))
    ensures "isAvatarDisplayed" !in Keys(ReturnedParams(account, talkEnabled))
  {
    var r := ReturnedParams(account, talkEnabled);
    assert Keys(r) == ["userId", "displayName", "address", "actionParameters"];
    LookupAt(r, 1);
    LookupAt(r, 2);
  }

  /** Two accounts with the same user id and values give the same returned array, whatever their scopes. */
  lemma ReturnedParamsScopeBlind(a1: Account, a2: Account, talkEnabled: bool)
    requires a1.Complete() && a2.Complete()
    requires a1.uid == a2.uid
    requires forall p: PropertyName :: a1.Value(p) == a2.Value(p)
    ensures ReturnedParams(a1, talkEnabled) == ReturnedParams(a2, talkEnabled)
  {
  }

  /**
   * The overwrite discloses what the scope check withheld: a Private display
   * name is null in the scoped array for a logged-out viewer, yet present in
   * the returned one.
   */
  lemma OverwriteRevealsWithheldName(account: Account, viewer: Viewer, talkEnabled: bool)
    requires account.Complete()
    requires account.ScopeOf(DisplayName) == Private && !viewer.loggedIn
    ensures Lookup(ScopedProjection(account, viewer), "displayName") == Some(JNull)
    ensures Lookup(ReturnedParams(account, talkEnabled), "displayName") == Some(JString(account.Value(DisplayName)))
  {
    ScopedFieldFollowsTable(account, viewer, 0);
    ReturnedParamsIgnoreScopes(account, talkEnabled);
  }

  /** Writing the next field's entry into the array built so far appends it. */
  lemma AssignNextField(account: Account, viewer: Viewer, i: nat)
    requires account.Complete()
    requires i < |DisplayProperties|
    ensures var head := [("userId", JString(account.uid))];
      Assign(head + ScopedFields(account, viewer, i), DisplayKey(i), FieldEntry(account, viewer, i).1)
        == head + ScopedFields(account, viewer, i + 1)
  {
    var head := [("userId", JString(account.uid))];
    var arr := head + ScopedFields(account, viewer, i);
    DisplayKeysDistinct();
    ScopedFieldsKeys(account, viewer, i);
    assert forall j :: 1 <= j < |arr| ==> arr[j].0 == DisplayKey(j - 1);
    assert DisplayKey(i) !in Keys(arr);
    assert ScopedFields(account, viewer, i + 1) == ScopedFields(account, viewer, i) + [FieldEntry(account, viewer, i)];
  }

  /** Writing the avatar flag after all fields appends it. */
  lemma AssignAvatarFlag(account: Account, viewer: Viewer, shown: bool)
    requires account.Complete()
    ensures var arr := [("userId", JString(account.uid))] + ScopedFields(account, viewer, |DisplayProperties|);
      Assign(arr, "isAvatarDisplayed", JBool(shown)) == arr + [("isAvatarDisplayed", JBool(shown))]
  {
    var arr := [("userId", JString(account.uid))] + ScopedFields(account, viewer, |DisplayProperties|);
    DisplayKeysDistinct();
    ScopedFieldsKeys(account, viewer, |DisplayProperties|);
    assert forall j :: 1 <= j < |arr| ==> arr[j].0 == DisplayKey(j - 1);
    assert "isAvatarDisplayed" !in Keys(arr);
  }

  /**
   * getProfileParams: builds the scope-filtered array field by field, adds
   * the avatar flag, then replaces the whole array by the raw one and
   * returns that.  Both arrays are results here.
   */
  method ProfileParams(account: Account, env: Env, req: Request) returns (scoped: Params, params: Params)
    requires account.Complete()
    ensures scoped == ScopedProjection(account, ViewerOf(env, req))
    ensures params == ReturnedParams(account, env.talkEnabled)
  {
    var isLoggedIn := env.loggedIn;
    var serverBaseUrl := env.serverBaseUrl;
    var reqBaseUrl := Substr(req.protocol + "://" + req.host + req.uri, |serverBaseUrl|);
    var isSameServerInstance := serverBaseUrl == reqBaseUrl;
    var isTrusted := env.baseUrlTrusted;
    ghost var viewer := ViewerOf(env, req);
    assert viewer == Viewer(isLoggedIn, isSameServerInstance, isTrusted);

    ghost var head := [("userId", JString(account.uid))];
    scoped := [("userId", JString(account.uid))];
    for i := 0 to |DisplayProperties|
      invariant scoped == head + ScopedFields(account, viewer, i)
    {
      var property := DisplayProperties[i];
      var key := DisplayJsonMap[property];
      var value := account.Value(property);
      var entry: Json;
      match account.ScopeOf(property) {
        case Private => entry := if isLoggedIn && isSameServerInstance then JString(value) else JNull;
        case Local => entry := if isSameServerInstance then JString(value) else JNull;
        case Federated => entry := if isTrusted then JString(value) else JNull;
        case Published => entry := if isTrusted then JString(value) else JNull;
        case Other(_) => entry := JNull;
      }
      assert entry == FieldEntry(account, viewer, i).1;
      AssignNextField(account, viewer, i);
      scoped := Assign(scoped, key, entry);
    }

    var avatarDisplayed: bool;
    match account.ScopeOf(Avatar) {
      case Private => avatarDisplayed := isLoggedIn && isSameServerInstance;
      case Local => avatarDisplayed := isSameServerInstance;
      case Federated => avatarDisplayed := isTrusted;
      case Published => avatarDisplayed := isTrusted;
      case Other(_) => avatarDisplayed := false;
    }
    AssignAvatarFlag(account, viewer, avatarDisplayed);
    scoped := Assign(scoped, "isAvatarDisplayed", JBool(avatarDisplayed));

    params := ReturnedParams(account, env.talkEnabled);
  }

  // ------------------------------------------------------------------
  // The page
  // ------------------------------------------------------------------

  /**
   * The strings `filter_var(..., FILTER_VALIDATE_BOOLEAN, FILTER_NULL_ON_FAILURE)`
   * reads as true and as false; which strings these are is PHP's business.
   */
  datatype BoolWords = BoolWords(trueWords: set<string>, falseWords: set<string>)

  /** The boolean filter: true, false, or null when the string is neither. */
  function FilterBool(raw: string, words: BoolWords): (r: Option<bool>)
    ensures r == Some(true) <==> raw in words.trueWords
    ensures r == None <==> raw !in words.trueWords && raw !in words.falseWords
  {
    if raw in words.trueWords then Some(true)
    else if raw in words.falseWords then Some(false)
    else None
  }

  datatype Response = NotFound | ProfilePage(parameters: Params)

  /**
   * index: renders the guest 404 page unless the profile-enabled property
   * parses to true; otherwise computes the profile parameters for the page.
   */
  method Index(account: Account, env: Env, req: Request, words: BoolWords) returns (resp: Response)
    requires account.Complete()
    ensures resp.NotFound? <==> account.Value(ProfileEnabled) !in words.trueWords
    ensures resp == NotFound || resp == ProfilePage(ReturnedParams(account, env.talkEnabled))
  {
    var profileEnabled := FilterBool(account.Value(ProfileEnabled), words);
    if profileEnabled != Some(true) {
      return NotFound;
    }
    var _, params := ProfileParams(account, env, req);
    resp := ProfilePage(params);
  }

  // ------------------------------------------------------------------
  // Actions
  // ------------------------------------------------------------------

  /**
   * Does a property of this scope end the action loop? Private always does,
   * Local does for a logged-out viewer; the federation check is not
   * implemented and never does.
   */
  function StopsActions(scope: Scope, loggedIn: bool): (r: bool)
    ensures r ==> scope == Private || scope == Local
    ensures scope == Private ==> r
  {
    scope == Private || (scope == Local && !loggedIn) || (scope == Federated && false)
  }

  /** Only Private, and Local for a logged-out viewer, stop the loop. */
  lemma OnlyPrivateAndAnonymousLocalStop(scope: Scope, loggedIn: bool)
    ensures StopsActions(Federated, loggedIn) == false
    ensures StopsActions(Published, loggedIn) == false
    ensures scope.Other? ==> !StopsActions(scope, loggedIn)
    ensures StopsActions(Local, loggedIn) <==> !loggedIn
  {
  }

  /**
   * Actions are stricter than disclosure for Local: an anonymous viewer on the
   * same instance sees a Local value but gets no action for it.
   */
  lemma LocalActionStricterThanDisclosure(viewer: Viewer)
    requires viewer.sameInstance && !viewer.loggedIn
    ensures Disclose(Local, viewer) && StopsActions(Local, viewer.loggedIn)
  {
  }

  /**
   * initActions: walks the action properties in order and returns at the
   * first one whose scope stops it.  The result is the properties that got
   * past the checks to the registration switch, whose email branch does
   * nothing.
   */
  method InitActions(account: Account, loggedIn: bool) returns (reached: seq<PropertyName>)
    requires account.Complete()
    ensures reached <= ActionProperties
    ensures forall p :: p in reached ==> !StopsActions(account.ScopeOf(p), loggedIn)
    ensures |reached| < |ActionProperties| ==>
      StopsActions(account.ScopeOf(ActionProperties[|reached|]), loggedIn)
  {
    reached := [];
    for i := 0 to |ActionProperties|
      invariant reached == ActionProperties[..i]
      invariant forall p :: p in reached ==> !StopsActions(account.ScopeOf(p), loggedIn)
    {
      var property := ActionProperties[i];
      var scope := account.ScopeOf(property);
      var value := account.Value(property);

      if scope == Private {
        return;
      }
      if scope == Local && !loggedIn {
        return;
      }
      if scope == Federated && false {
        return;
      }

      match property {
        case Email =>
          // registering an email action for `value` is disabled
        case _ =>
      }
      reached := reached + [property];
    }
  }
}
