/**
 * The OAuth2 client configuration endpoint of the auth API
 * (pkg/http/api/auth/config.go): the browser learns the issuer, client id,
 * endpoints and scope, and the redirect URI built from the Host the request
 * came to, over plain http only for a loopback host.
 */
module Auth {
  import opened Outcomes
  import opened Text
  import Config
  import opened HttpWrappers

  /** The scope the auth package is initialised with (pkg/http/api/auth/auth.go). */
  const Scopes := "auth"
  const CallbackPath := "/api/auth/callback"
  const Http := "http://"
  const Https := "https://"

  datatype AuthConfig = AuthConfig(issuer: string, clientId: string, redirectUri: string,
                                   authUrl: string, tokenUrl: string, scope: string)

  /** The host name of a Host value: everything before the first ':', which starts the port. */
  function HostName(host: string): (name: string)
    ensures ':' !in name
    decreases |host|
  {
    if |host| == 0 || host[0] == ':' then "" else [host[0]] + HostName(host[1..])
  }

  /** A colon-free name is the host name exactly when the Host is that name, bare or followed by a port. */
  lemma {:induction false} HostNameIs(host: string, w: string)
    requires ':' !in w
    ensures HostName(host) == w <==> host == w || HasPrefix(host, w + ":")
    decreases |w|
  {
    if |w| == 0 {
      assert w + ":" == ":";
    } else if |host| == 0 {
      assert !HasPrefix(host, w + ":");
    } else {
      var h, t := host[0], host[1..];
      HostNameIs(t, w[1..]);
      assert w[0] != ':' by { assert w[0] in w; }
      assert host == [h] + t;
      assert w == [w[0]] + w[1..];
      assert w + ":" == [w[0]] + (w[1..] + ":");
      assert HasPrefix(host, w + ":") <==> h == w[0] && HasPrefix(t, w[1..] + ":") by {
        if HasPrefix(host, w + ":") {
          assert host[..|w + ":"|][0] == h;
          assert t[..|w[1..] + ":"|] == host[1..|w + ":"|];
        }
        if h == w[0] && HasPrefix(t, w[1..] + ":") {
          assert host[..|w + ":"|] == [h] + t[..|w[1..] + ":"|];
        }
      }
      if h == ':' {
        assert HostName(host) == "";
      } else {
        assert HostName(host) == [h] + HostName(t);
      }
    }
  }

  /** A Host naming this machine: localhost or 127.0.0.1, with or without a port. */
  predicate IsLoopbackHost(host: string)
    ensures IsLoopbackHost(host) <==> HostName(host) == "localhost" || HostName(host) == "127.0.0.1"
  {
    assert ':' !in "localhost" by { forall i | 0 <= i < |"localhost"| ensures "localhost"[i] != ':' { } }
    assert ':' !in "127.0.0.1" by { forall i | 0 <= i < |"127.0.0.1"| ensures "127.0.0.1"[i] != ':' { } }
    HostNameIs(host, "localhost");
    HostNameIs(host, "127.0.0.1");
    host == "localhost" || host == "127.0.0.1" || HasPrefix(host, "localhost:") || HasPrefix(host, "127.0.0.1:")
  }

  function Scheme(host: string): (s: string)
    ensures s == Http || s == Https
    ensures s == Http <==> IsLoopbackHost(host)
  {
    if IsLoopbackHost(host) then Http else Https
  }

  /** Where the identity provider sends the browser back to: plain http only for a loopback Host. */
  function RedirectUri(host: string): (u: string)
    ensures HasPrefix(u, Http) <==> IsLoopbackHost(host)
    ensures !IsLoopbackHost(host) ==> HasPrefix(u, Https)
  {
    var s := Scheme(host);
    assert (s + host + CallbackPath)[..|s|] == s;
    assert s == Https ==> (s + host + CallbackPath)[4] == 's';
    s + host + CallbackPath
  }

  /** Reads the host back out of a redirect URI; None for a string of another shape. */
  function HostOf(uri: string): (host: Option<string>)
    ensures host.Some? ==> |host.value| + |CallbackPath| <= |uri|
  {
    var scheme := if HasPrefix(uri, Http) then Http else Https;
    if HasPrefix(uri, scheme) && |uri| >= |scheme| + |CallbackPath| && uri[|uri| - |CallbackPath|..] == CallbackPath
    then Some(uri[|scheme|..|uri| - |CallbackPath|])
    else None
  }

  /** The redirect URI determines the Host: HostOf undoes RedirectUri. */
  lemma RedirectUriRoundTrip(host: string)
    ensures HostOf(RedirectUri(host)) == Some(host)
  {
    var uri := RedirectUri(host);
    var s := Scheme(host);
    assert uri[..|s|] == s;
    assert uri[|uri| - |CallbackPath|..] == CallbackPath;
    assert uri[|s|..|uri| - |CallbackPath|] == host;
  }

  /** So two Hosts never share a redirect URI. */
  lemma RedirectUriInjective(h1: string, h2: string)
    requires RedirectUri(h1) == RedirectUri(h2)
    ensures h1 == h2
  {
    RedirectUriRoundTrip(h1);
    RedirectUriRoundTrip(h2);
  }

  /** The loopback Hosts, with and without a port, get http. */
  lemma LoopbackExamples()
    ensures IsLoopbackHost("localhost") && IsLoopbackHost("127.0.0.1")
    ensures IsLoopbackHost("localhost:4200") && IsLoopbackHost("127.0.0.1:8080")
  {
    assert "localhost:4200"[..10] == "localhost:";
    assert "127.0.0.1:8080"[..10] == "127.0.0.1:";
  }

  /** Hosts that only look like loopback ones get https. */
  lemma LookalikeExamples()
    ensures !IsLoopbackHost("localhost.example.com")
    ensures !IsLoopbackHost("127.0.0.10")
  {
    LookalikeName();
    LookalikeAddress();
  }

  lemma LookalikeName()
    ensures !IsLoopbackHost("localhost.example.com")
  {
    var h := "localhost.example.com";
    assert h[9] == '.';
    assert h != "localhost" && h != "127.0.0.1";
    assert !HasPrefix(h, "localhost:") && !HasPrefix(h, "127.0.0.1:");
  }

  lemma LookalikeAddress()
    ensures !IsLoopbackHost("127.0.0.10")
  {
    var h := "127.0.0.10";
    assert h[9] == '0';
    assert h != "localhost" && h != "127.0.0.1";
    assert !HasPrefix(h, "localhost:") && !HasPrefix(h, "127.0.0.1:");
  }

  /**
   * configHandler. The OAuth2 settings and the scope are the package state
   * the handler reads; it never returns an error.
   */
  function ConfigHandler(oauth2: Config.OAuth2Config, scopes: string, r: Request): (h: Handled<AuthConfig>)
    ensures h.err.None?
    ensures h.data.redirectUri == RedirectUri(r.host)
    ensures h.data.issuer == oauth2.issuer && h.data.clientId == oauth2.clientId
    ensures h.data.authUrl == oauth2.authorizeUrl && h.data.tokenUrl == oauth2.tokenUrl && h.data.scope == scopes
  {
    Handled(AuthConfig(oauth2.issuer, oauth2.clientId, RedirectUri(r.host), oauth2.authorizeUrl, oauth2.tokenUrl, scopes), None)
  }

  /** Served through Wrap, the endpoint answers 200 with the configuration in a success envelope, unless marshalling fails. */
  lemma WrappedConfigAnswersOk(oauth2: Config.OAuth2Config, r: Request,
                               marshal: Response<AuthConfig> -> Result<string, string>)
    ensures var h := ConfigHandler(oauth2, Scopes, r);
      var resp := Success(h.data);
      && Envelope(h) == (resp, StatusOK)
      && (marshal(resp).Ok? ==> Sent(JsonEvents(resp, StatusOK, marshal)) == Some(Reply(StatusOK, JsonHeader, marshal(resp).value)))
  {
    var h := ConfigHandler(oauth2, Scopes, r);
    WrapReply(h, marshal);
  }
}
