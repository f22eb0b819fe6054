/**
 * The `OAuthApp` resource (package `v1`): it is aliased by its integration
 * name, exposes that name as its one indexed field, and builds the URLs of its
 * OAuth endpoints. A nil `*OAuthApp` receiver is `None` where the code
 * handles it.
 */
module OAuthApps {
  import opened Wrappers
  import opened System

  /** The part of `types.OAuthAppManifest` the model reads. */
  datatype OAuthAppManifest = OAuthAppManifest(integration: string)

  datatype OAuthAppSpec = OAuthAppSpec(manifest: OAuthAppManifest)

  datatype OAuthApp = OAuthApp(spec: OAuthAppSpec)

  /** The one field name the field index knows. */
  const IntegrationField := "spec.manifest.integration"

  /** An app is aliased by its integration, the value of its indexed field. */
  function GetAliasName(r: OAuthApp): (alias: string)
    ensures alias == Get(Some(r), IntegrationField)
  {
    r.spec.manifest.integration
  }

  /** Every app counts as having its alias assigned. */
  function IsAssigned(r: OAuthApp): (flag: bool)
    ensures flag
  {
    true
  }

  /** Assigning an alias leaves the app as it was, and it stays assigned. */
  function SetAssigned(r: OAuthApp): (after: OAuthApp)
    ensures after == r && IsAssigned(after)
  {
    r
  }

  /** The value of a named field: only the integration is known, and a nil app has none. */
  function Get(r: Option<OAuthApp>, field: string): (value: string)
    ensures r.Some? && field == IntegrationField ==> value == r.value.spec.manifest.integration
    ensures value != "" ==> r.Some? && field in FieldNames()
  {
    if r.Some? then
      if field == IntegrationField then r.value.spec.manifest.integration else ""
    else ""
  }

  /** A field is present when it is the integration and the integration is set. */
  function Has(r: Option<OAuthApp>, field: string): (has: bool)
    ensures has <==> r.Some? && field == IntegrationField && GetAliasName(r.value) != ""
  {
    Get(r, field) != ""
  }

  /** The fields the index is built from. */
  function FieldNames(): (names: seq<string>)
    ensures names == [IntegrationField]
  {
    [IntegrationField]
  }

  /** The names in `FieldNames` are exactly those some app has a value for. */
  lemma FieldNamesAreRecognised(field: string)
    ensures field in FieldNames() <==> exists app: OAuthApp :: Get(Some(app), field) != ""
  {
    if field in FieldNames() {
      var app := OAuthApp(OAuthAppSpec(OAuthAppManifest("x")));
      assert Get(Some(app), field) != "";
    }
  }

  /** The path each endpoint URL puts between the base URL and the integration. */
  const CallbackPath := "/api/app-oauth/callback/"
  const AuthorizePath := "/api/app-oauth/authorize/"
  const RefreshPath := "/api/app-oauth/refresh/"
  const GetTokenPath := "/api/app-oauth/get-token"

  function RedirectURL(r: OAuthApp, baseURL: string): (url: string)
    ensures url == baseURL + CallbackPath + r.spec.manifest.integration
  {
    baseURL + CallbackPath + r.spec.manifest.integration
  }

  function OAuthAppGetTokenURL(baseURL: string): (url: string)
    ensures url == baseURL + GetTokenPath
  {
    baseURL + GetTokenPath
  }

  function AuthorizeURL(r: OAuthApp, baseURL: string): (url: string)
    ensures url == baseURL + AuthorizePath + r.spec.manifest.integration
  {
    baseURL + AuthorizePath + r.spec.manifest.integration
  }

  function RefreshURL(r: OAuthApp, baseURL: string): (url: string)
    ensures url == baseURL + RefreshPath + r.spec.manifest.integration
  {
    baseURL + RefreshPath + r.spec.manifest.integration
  }

  /**
   * Under one base URL, each endpoint URL identifies its app's integration, and
   * the callback, authorize and refresh URLs of one app are three different URLs.
   */
  lemma {:induction false} EndpointURLsIdentifyIntegration(a: OAuthApp, b: OAuthApp, baseURL: string)
    ensures RedirectURL(a, baseURL) == RedirectURL(b, baseURL) ==> a.spec.manifest.integration == b.spec.manifest.integration
    ensures AuthorizeURL(a, baseURL) == AuthorizeURL(b, baseURL) ==> a.spec.manifest.integration == b.spec.manifest.integration
    ensures RefreshURL(a, baseURL) == RefreshURL(b, baseURL) ==> a.spec.manifest.integration == b.spec.manifest.integration
    ensures RedirectURL(a, baseURL) != AuthorizeURL(a, baseURL)
    ensures RedirectURL(a, baseURL) != RefreshURL(a, baseURL)
    ensures AuthorizeURL(a, baseURL) != RefreshURL(a, baseURL)
  {
    var n := |baseURL|;
    IntegrationAfter(baseURL, CallbackPath, a.spec.manifest.integration);
    IntegrationAfter(baseURL, CallbackPath, b.spec.manifest.integration);
    IntegrationAfter(baseURL, AuthorizePath, a.spec.manifest.integration);
    IntegrationAfter(baseURL, AuthorizePath, b.spec.manifest.integration);
    IntegrationAfter(baseURL, RefreshPath, a.spec.manifest.integration);
    IntegrationAfter(baseURL, RefreshPath, b.spec.manifest.integration);
    // the three paths part at their 16th character: 'c', 'a' and 'r'
    assert RedirectURL(a, baseURL)[n + 15] == 'c';
    assert AuthorizeURL(a, baseURL)[n + 15] == 'a';
    assert RefreshURL(a, baseURL)[n + 15] == 'r';
  }

  /** What follows the base URL and the path of an endpoint URL is the integration. */
  lemma IntegrationAfter(baseURL: string, path: string, integration: string)
    ensures (baseURL + path + integration)[|baseURL| + |path|..] == integration
    ensures forall i :: 0 <= i < |path| ==> (baseURL + path + integration)[|baseURL| + i] == path[i]
  {
  }

  /** An app declares no cascading-delete reference. */
  function DeleteRefs(r: Option<OAuthApp>): (refs: seq<Ref>)
    ensures refs == []
  {
    []
  }
}

/**
 * The `OAuthAppLogin` resource (package `v1`): indexed by its credential
 * context, and deleted with the agent or workflow that context names.
 */
module OAuthAppLogins {
  import opened Wrappers
  import opened System

  datatype OAuthAppLoginSpec = OAuthAppLoginSpec(credentialContext: string, toolReference: string, oauthApps: seq<string>)

  datatype OAuthAppLogin = OAuthAppLogin(spec: OAuthAppLoginSpec)

  /** The one field name the field index knows. */
  const CredentialContextField := "spec.credentialContext"

  /** The value of a named field: only the credential context is known, and a nil login has none. */
  function Get(o: Option<OAuthAppLogin>, field: string): (value: string)
    ensures o.Some? && field == CredentialContextField ==> value == o.value.spec.credentialContext
    ensures value != "" ==> o.Some? && field in FieldNames()
  {
    if o.Some? then
      if field == CredentialContextField then o.value.spec.credentialContext else ""
    else ""
  }

  /** A field is present when it is the credential context and that context is set. */
  function Has(o: Option<OAuthAppLogin>, field: string): (has: bool)
    ensures has <==> o.Some? && field == CredentialContextField && o.value.spec.credentialContext != ""
  {
    Get(o, field) != ""
  }

  /** The fields the index is built from. */
  function FieldNames(): (names: seq<string>)
    ensures names == [CredentialContextField]
  {
    [CredentialContextField]
  }

  /** The names in `FieldNames` are exactly those some login has a value for. */
  lemma FieldNamesAreRecognised(field: string)
    ensures field in FieldNames() <==> exists login: OAuthAppLogin :: Get(Some(login), field) != ""
  {
    if field in FieldNames() {
      var login := OAuthAppLogin(OAuthAppLoginSpec("x", "", []));
      assert Get(Some(login), field) != "";
    }
  }

  /**
   * A login is deleted with the agent its credential context names, else with
   * the workflow it names, else with nothing; never with more than one object.
   */
  function DeleteRefs(o: OAuthAppLogin, ids: Ids): (refs: seq<Ref>)
    ensures |refs| <= 1
    ensures |refs| == 1 <==> ids.isAgentID(o.spec.credentialContext) || ids.isWorkflowID(o.spec.credentialContext)
    ensures forall i :: 0 <= i < |refs| ==> refs[i].name == o.spec.credentialContext
    ensures forall i :: 0 <= i < |refs| ==> (refs[i].objType == Agent <==> ids.isAgentID(o.spec.credentialContext))
  {
    var context := o.spec.credentialContext;
    if ids.isAgentID(context) then [Ref(Agent, context)]
    else if ids.isWorkflowID(context) then [Ref(Workflow, context)]
    else []
  }
}
