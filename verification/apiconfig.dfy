/**
 * The older configuration endpoint of the api package
 * (pkg/http/api/config.go): the same Host-based redirect URI, a payload
 * without the endpoint URLs, and always status 200.
 */
module Api {
  import opened Outcomes
  import Config
  import opened HttpWrappers
  import Auth

  datatype ApiConfig = ApiConfig(issuer: string, clientId: string, redirectUri: string, scope: string)

  /** The payload for a request that came to `host`. */
  function PublicConfig(oauth2: Config.OAuth2Config, scopes: string, host: string): (c: ApiConfig)
    ensures c.redirectUri == Auth.RedirectUri(host)
    ensures c.issuer == oauth2.issuer && c.clientId == oauth2.clientId && c.scope == scopes
  {
    ApiConfig(oauth2.issuer, oauth2.clientId, Auth.RedirectUri(host), scopes)
  }

  /**
   * configHandler: writes the payload in a success envelope with status 200.
   * The OAuth2 settings and the scope are the package state it reads.
   */
  method ConfigHandler(oauth2: Config.OAuth2Config, scopes: string, w: ResponseWriter, r: Request,
                       marshal: Response<ApiConfig> -> Result<string, string>)
    modifies w
    ensures w.events == old(w.events) + JsonEvents(Success(PublicConfig(oauth2, scopes, r.host)), StatusOK, marshal)
  {
    var host := if Auth.IsLoopbackHost(r.host) then Auth.Http + r.host else Auth.Https + r.host;
    var resp := Success(ApiConfig(oauth2.issuer, oauth2.clientId, host + Auth.CallbackPath, scopes));
    var _ := ReturnJson(resp, StatusOK, w, marshal);
  }

  /** Whatever the request, a fresh writer ends up holding status 200 and the payload, unless marshalling fails. */
  lemma AlwaysOk(oauth2: Config.OAuth2Config, scopes: string, r: Request,
                 marshal: Response<ApiConfig> -> Result<string, string>)
    ensures var resp := Success(PublicConfig(oauth2, scopes, r.host));
      marshal(resp).Ok? ==> Sent(JsonEvents(resp, StatusOK, marshal)) == Some(Reply(StatusOK, JsonHeader, marshal(resp).value))
  {
    var resp := Success(PublicConfig(oauth2, scopes, r.host));
    JsonReply(resp, StatusOK, marshal);
  }

  /** Both configuration endpoints hand out the same redirect URI for a Host. */
  lemma SameRedirectAsAuth(oauth2: Config.OAuth2Config, scopes: string, r: Request)
    ensures PublicConfig(oauth2, scopes, r.host).redirectUri == Auth.ConfigHandler(oauth2, scopes, r).data.redirectUri
  {
  }
}
