/**
 * Service configuration (pkg/config/config.go): built-in defaults, values
 * from the configuration file laid over them, and the OAuth2 endpoint URLs
 * derived from the issuer when the file leaves them empty.
 */
module Config {
  import opened Outcomes

  newtype uint16 = x: int | 0 <= x < 0x1_0000
  newtype int32 = x: int | -0x8000_0000 <= x < 0x8000_0000

  datatype DBConfig = DBConfig(host: string, port: Option<uint16>, database: string, user: string,
                               password: string, maxConns: int32, minConns: int32)
  datatype HTTPConfig = HTTPConfig(port: uint16)
  datatype OAuth2Config = OAuth2Config(clientId: string, clientSecret: string, issuer: string,
                                       authorizeUrl: string, tokenUrl: string)
  datatype Config = Config(db: DBConfig, http: HTTPConfig, oauth2: OAuth2Config)

  /** The keys the configuration file sets; an absent key leaves the field as it was. */
  datatype FileValues = FileValues(
    dbHost: Option<string>, dbPort: Option<uint16>, dbName: Option<string>, dbUser: Option<string>,
    dbPassword: Option<string>, dbMaxConns: Option<int32>, dbMinConns: Option<int32>,
    httpPort: Option<uint16>,
    clientId: Option<string>, clientSecret: Option<string>, issuer: Option<string>,
    authorizeUrl: Option<string>, tokenUrl: Option<string>)

  const DefaultIssuer := "https://auth.frontierstore.net"

  /** The configuration before the file is applied. */
  const Defaults := Config(
    DBConfig("", None, "", "", "", 8, 1),
    HTTPConfig(80),
    OAuth2Config("", "", DefaultIssuer, "", ""))

  function Or<T>(o: Option<T>, d: T): T {
    match o
    case Some(v) => v
    case None => d
  }

  /** A file that sets no key. */
  const NoValues := FileValues(None, None, None, None, None, None, None, None, None, None, None, None, None)

  /** koanf's Unmarshal onto an existing value: a present key overrides, an absent one keeps the field. */
  function Overlay(c: Config, f: FileValues): (r: Config)
    ensures f == NoValues ==> r == c
    ensures f.issuer.Some? ==> r.oauth2.issuer == f.issuer.value
    ensures f.issuer.None? ==> r.oauth2.issuer == c.oauth2.issuer
  {
    Config(
      DBConfig(Or(f.dbHost, c.db.host), if f.dbPort.Some? then f.dbPort else c.db.port, Or(f.dbName, c.db.database),
               Or(f.dbUser, c.db.user), Or(f.dbPassword, c.db.password),
               Or(f.dbMaxConns, c.db.maxConns), Or(f.dbMinConns, c.db.minConns)),
      HTTPConfig(Or(f.httpPort, c.http.port)),
      OAuth2Config(Or(f.clientId, c.oauth2.clientId), Or(f.clientSecret, c.oauth2.clientSecret),
                   Or(f.issuer, c.oauth2.issuer), Or(f.authorizeUrl, c.oauth2.authorizeUrl),
                   Or(f.tokenUrl, c.oauth2.tokenUrl)))
  }

  /** Fills an empty authorize URL with issuer + "/auth" and an empty token URL with issuer + "/token". */
  function DeriveEndpoints(o: OAuth2Config): (r: OAuth2Config)
    ensures |r.authorizeUrl| > 0 && |r.tokenUrl| > 0
    ensures r.authorizeUrl == (if |o.authorizeUrl| == 0 then o.issuer + "/auth" else o.authorizeUrl)
    ensures r.tokenUrl == (if |o.tokenUrl| == 0 then o.issuer + "/token" else o.tokenUrl)
    ensures r.clientId == o.clientId && r.clientSecret == o.clientSecret && r.issuer == o.issuer
  {
    var o1 := if |o.authorizeUrl| == 0 then o.(authorizeUrl := o.issuer + "/auth") else o;
    if |o1.tokenUrl| == 0 then o1.(tokenUrl := o1.issuer + "/token") else o1
  }

  /** The configuration a successfully loaded file yields: the file over the defaults, then the endpoints derived. */
  function Configured(f: FileValues): (c: Config)
    ensures |c.oauth2.authorizeUrl| > 0 && |c.oauth2.tokenUrl| > 0
  {
    var cfg := Overlay(Defaults, f);
    cfg.(oauth2 := DeriveEndpoints(cfg.oauth2))
  }

  /**
   * ParseConfig. `loadError` is the outcome of loading the file and `file`
   * that of unmarshalling it onto the defaults; either failure returns no
   * configuration and that error. The endpoint URLs are then filled in place.
   */
  method ParseConfig(loadError: Option<string>, file: Result<FileValues, string>) returns (r: Result<Config, string>)
    ensures loadError.Some? ==> r == Err(loadError.value)
    ensures loadError.None? && file.Err? ==> r == Err(file.error)
    ensures loadError.None? && file.Ok? ==> r == Ok(Configured(file.value))
  {
    if loadError.Some? {
      return Err(loadError.value);
    }
    var cfg := Defaults;
    if file.Err? {
      return Err(file.error);
    }
    cfg := Overlay(cfg, file.value);
    if |cfg.oauth2.authorizeUrl| == 0 {
      cfg := cfg.(oauth2 := cfg.oauth2.(authorizeUrl := cfg.oauth2.issuer + "/auth"));
    }
    if |cfg.oauth2.tokenUrl| == 0 {
      cfg := cfg.(oauth2 := cfg.oauth2.(tokenUrl := cfg.oauth2.issuer + "/token"));
    }
    return Ok(cfg);
  }

  /** A file that sets nothing gives the defaults, with both URLs derived from the default issuer. */
  lemma EmptyFileGivesDefaults()
    ensures var c := Configured(NoValues);
      && c.db.maxConns == 8 && c.db.minConns == 1 && c.db.port == None
      && c.http.port == 80
      && c.oauth2.issuer == "https://auth.frontierstore.net"
      && c.oauth2.authorizeUrl == "https://auth.frontierstore.net/auth"
      && c.oauth2.tokenUrl == "https://auth.frontierstore.net/token"
  {
  }

  /** The URLs are derived from the final issuer: the file's if it sets one, the default otherwise. */
  lemma EndpointsFollowFinalIssuer(f: FileValues)
    ensures var c := Configured(f);
      var issuer := Or(f.issuer, DefaultIssuer);
      && c.oauth2.issuer == issuer
      && c.oauth2.authorizeUrl == (if f.authorizeUrl.Some? && |f.authorizeUrl.value| > 0 then f.authorizeUrl.value else issuer + "/auth")
      && c.oauth2.tokenUrl == (if f.tokenUrl.Some? && |f.tokenUrl.value| > 0 then f.tokenUrl.value else issuer + "/token")
  {
  }

  /** Every other field is the file's value when it has one and the default otherwise. */
  lemma FileOverridesDefaults(f: FileValues)
    ensures var c := Configured(f);
      && c.db.maxConns == Or(f.dbMaxConns, 8) && c.db.minConns == Or(f.dbMinConns, 1)
      && c.db.port == f.dbPort && c.db.host == Or(f.dbHost, "") && c.db.database == Or(f.dbName, "")
      && c.db.user == Or(f.dbUser, "") && c.db.password == Or(f.dbPassword, "")
      && c.http.port == Or(f.httpPort, 80)
      && c.oauth2.clientId == Or(f.clientId, "") && c.oauth2.clientSecret == Or(f.clientSecret, "")
  {
  }

  /** Deriving the endpoints a second time changes nothing. */
  lemma DeriveEndpointsIdempotent(o: OAuth2Config)
    ensures DeriveEndpoints(DeriveEndpoints(o)) == DeriveEndpoints(o)
  {
  }
}
