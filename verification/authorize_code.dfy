/** `authorize_code.py`: the `MSALAuthenticator` that builds the Azure AD
    authority from a tenant id and obtains a refresh token by the
    authorization-code flow.

    The MSAL library and the console are collaborators the model cannot see.
    They are the fields of `Msal`: total functions from the requests the code
    makes to what comes back, where a failure stands for a raised exception.
    The result records the requests made, so that the properties of those
    requests can be stated. */
module AuthorizeCode {
  import opened Results

  const AuthorityBase: string := "https://login.microsoftonline.com/"
  const DefaultScopeSuffix: string := "/.default"
  const RefreshTokenKey: string := "refresh_token"
  const ErrorDescriptionKey: string := "error_description"

  /** The state `MSALAuthenticator.__init__` sets up. */
  datatype Authenticator = Authenticator(clientId: string, tenantId: string, redirectUri: string, authority: string)

  /** What `PublicClientApplication(client_id=..., authority=...)` is built from. */
  datatype ClientApp = ClientApp(clientId: string, authority: string)

  /** The arguments of `get_authorization_request_url`. */
  datatype AuthorizationRequest = AuthorizationRequest(scopes: seq<string>, redirectUri: string)

  /** The arguments of `acquire_token_by_authorization_code`. */
  datatype CodeRedemption = CodeRedemption(code: string, scopes: seq<string>, redirectUri: string)

  /** The token response: a JSON object with text values. */
  type TokenResponse = map<string, string>

  /** The external collaborators, each returning its result or the text of
      the exception it raised. */
  datatype Msal = Msal(
    createApp: ClientApp -> Result<(), string>,
    authorizationUrl: (ClientApp, AuthorizationRequest) -> Result<string, string>,
    readCode: string -> Result<string, string>,       // input(), after the URL was printed
    redeemCode: (ClientApp, CodeRedemption) -> Result<TokenResponse, string>)

  /** Why `get_refresh_token` raised. */
  datatype AuthError =
    | AppCreationFailed(reason: string)
    | AuthorizationUrlFailed(reason: string)
    | CodeEntryFailed(reason: string)
    | RedemptionFailed(reason: string)
    | NoRefreshToken(description: Option<string>)   // fixed message; records the logged `error_description`

  /** The requests `get_refresh_token` made, and its outcome. */
  datatype Attempt = Attempt(
    app: ClientApp,
    authorizationRequest: Option<AuthorizationRequest>,
    redemption: Option<CodeRedemption>,
    result: Result<string, AuthError>)

  /** The text after `AuthorityBase` in an authority URL, if it has that prefix. */
  function TenantOf(authority: string): (r: Option<string>)
    ensures r.Some? <==> |AuthorityBase| <= |authority| && authority[..|AuthorityBase|] == AuthorityBase
    ensures r.Some? ==> authority == AuthorityBase + r.value
  {
    if |AuthorityBase| <= |authority| && authority[..|AuthorityBase|] == AuthorityBase then
      assert authority == authority[..|AuthorityBase|] + authority[|AuthorityBase|..];
      Some(authority[|AuthorityBase|..])
    else None
  }

  /** `MSALAuthenticator.__init__`: keeps the three settings as given, and
      the authority is the login host followed by the tenant id, from which
      the tenant id can be read back. */
  function NewAuthenticator(clientId: string, tenantId: string, redirectUri: string): (a: Authenticator)
    ensures a.clientId == clientId && a.tenantId == tenantId && a.redirectUri == redirectUri
    ensures TenantOf(a.authority) == Some(tenantId)
  {
    var authority := AuthorityBase + tenantId;
    assert authority[..|AuthorityBase|] == AuthorityBase;
    assert authority[|AuthorityBase|..] == tenantId;
    Authenticator(clientId, tenantId, redirectUri, authority)
  }

  /** Different tenants get different authorities. */
  lemma AuthorityIdentifiesTenant(clientId: string, t1: string, t2: string, redirectUri: string)
    ensures NewAuthenticator(clientId, t1, redirectUri).authority
         == NewAuthenticator(clientId, t2, redirectUri).authority
        <==> t1 == t2
  {
  }

  /** The single scope both requests ask for: `f"{client_id}/.default"`. */
  function DefaultScope(clientId: string): (s: string)
    ensures |s| == |clientId| + |DefaultScopeSuffix|
    ensures s[..|clientId|] == clientId && s[|clientId|..] == DefaultScopeSuffix
  {
    clientId + DefaultScopeSuffix
  }

  /** The scope determines the client id it was built from. */
  lemma DefaultScopeIdentifiesClient(c1: string, c2: string)
    ensures DefaultScope(c1) == DefaultScope(c2) <==> c1 == c2
  {
    if DefaultScope(c1) == DefaultScope(c2) {
      assert |c1| == |c2|;
      assert c1 == DefaultScope(c1)[..|c1|];
    }
  }

  /** `token_response.get("error_description")`. */
  function ErrorDescription(response: TokenResponse): Option<string> {
    if ErrorDescriptionKey in response then Some(response[ErrorDescriptionKey]) else None
  }

  /** `get_refresh_token()`: creates the client application, asks it for the
      authorization URL, reads the code the user pastes back, redeems it, and
      returns the response's `refresh_token`. Every exception propagates; the
      code is redeemed exactly when the three earlier calls all return. */
  function GetRefreshToken(a: Authenticator, msal: Msal): (t: Attempt)
    ensures t.app == ClientApp(a.clientId, a.authority)
    ensures t.authorizationRequest.Some? <==> msal.createApp(t.app).Success?
    ensures t.authorizationRequest.Some? ==>
      t.authorizationRequest.value == AuthorizationRequest([DefaultScope(a.clientId)], a.redirectUri)
    ensures t.redemption.Some? <==>
      (var request := AuthorizationRequest([DefaultScope(a.clientId)], a.redirectUri);
       var url := msal.authorizationUrl(t.app, request);
       msal.createApp(t.app).Success? && url.Success? && msal.readCode(url.value).Success?)
    ensures t.redemption.Some? ==> t.authorizationRequest.Some?
    ensures t.redemption.Some? ==>
      && t.redemption.value.scopes == t.authorizationRequest.value.scopes
      && t.redemption.value.redirectUri == t.authorizationRequest.value.redirectUri
    ensures t.redemption.Some? ==>
      var url := msal.authorizationUrl(t.app, t.authorizationRequest.value);
      url.Success? && msal.readCode(url.value) == Success(t.redemption.value.code)
    ensures msal.createApp(t.app).Failure? ==>
      t.result == Failure(AppCreationFailed(msal.createApp(t.app).error))
    ensures && t.authorizationRequest.Some?
            && msal.authorizationUrl(t.app, t.authorizationRequest.value).Failure? ==>
      t.result == Failure(AuthorizationUrlFailed(
        msal.authorizationUrl(t.app, t.authorizationRequest.value).error))
    ensures && t.authorizationRequest.Some?
            && msal.authorizationUrl(t.app, t.authorizationRequest.value).Success? ==>
      var code := msal.readCode(msal.authorizationUrl(t.app, t.authorizationRequest.value).value);
      code.Failure? ==> t.result == Failure(CodeEntryFailed(code.error))
    ensures t.redemption.Some? && msal.redeemCode(t.app, t.redemption.value).Failure? ==>
      t.result == Failure(RedemptionFailed(msal.redeemCode(t.app, t.redemption.value).error))
    ensures t.result.Success? ==> t.redemption.Some?
    ensures t.result.Success? ==>
      var response := msal.redeemCode(t.app, t.redemption.value);
      response.Success? && RefreshTokenKey in response.value
      && t.result.value == response.value[RefreshTokenKey]
  {
    var app := ClientApp(a.clientId, a.authority);
    match msal.createApp(app)
    case Failure(e) => Attempt(app, None, None, Failure(AppCreationFailed(e)))
    case Success(_) =>
      var request := AuthorizationRequest([DefaultScope(a.clientId)], a.redirectUri);
      match msal.authorizationUrl(app, request)
      case Failure(e) => Attempt(app, Some(request), None, Failure(AuthorizationUrlFailed(e)))
      case Success(url) =>
        match msal.readCode(url)
        case Failure(e) => Attempt(app, Some(request), None, Failure(CodeEntryFailed(e)))
        case Success(code) =>
          var redemption := CodeRedemption(code, [DefaultScope(a.clientId)], a.redirectUri);
          var outcome :=
            match msal.redeemCode(app, redemption)
            case Failure(e) => Failure(RedemptionFailed(e))
            case Success(response) =>
              if RefreshTokenKey !in response then Failure(NoRefreshToken(ErrorDescription(response)))
              else Success(response[RefreshTokenKey]);
          Attempt(app, Some(request), Some(redemption), outcome)
  }

  /** Once the code has been redeemed, the attempt succeeds exactly when the
      response carries a `refresh_token`; without one it raises, and the
      error description it logs is the response's, and no token is returned. */
  lemma RefreshTokenDecides(a: Authenticator, msal: Msal)
    requires GetRefreshToken(a, msal).redemption.Some?
    ensures var t := GetRefreshToken(a, msal);
      var response := msal.redeemCode(t.app, t.redemption.value);
      && (t.result.Success? <==> response.Success? && RefreshTokenKey in response.value)
      && (response.Success? && RefreshTokenKey !in response.value ==>
            t.result == Failure(NoRefreshToken(ErrorDescription(response.value))))
  {
  }

  /** The token comes from an authenticator built from the settings:
      the request goes to the tenant's authority, for the client's default
      scope, with the configured redirect URI. */
  lemma RequestsFollowSettings(clientId: string, tenantId: string, redirectUri: string, msal: Msal)
    ensures var t := GetRefreshToken(NewAuthenticator(clientId, tenantId, redirectUri), msal);
      && TenantOf(t.app.authority) == Some(tenantId) && t.app.clientId == clientId
      && (t.redemption.Some? ==>
            t.redemption.value.scopes == [DefaultScope(clientId)] && t.redemption.value.redirectUri == redirectUri)
  {
  }
}
