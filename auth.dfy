/** Authentication for the kintone REST API (auth.py): the two schemes, the
    base URL of a tenant, the headers each scheme sends, and the factory that
    builds a scheme from an authentication dictionary. */
module Auth {

  import opened Common
  import opened Encoding
  import Config

  /** AuthConfig's default domain. */
  const DefaultDomain: string := "cybozu.com"

  const ContentType: string := "application/json"

  /** AuthConfig: the tenant's subdomain and the service domain. */
  datatype AuthConfig = AuthConfig(subdomain: string, domain: string)

  /** The two KintoneAuth subclasses. Neither changes its fields after construction. */
  datatype KintoneAuth =
    | APITokenAuth(config: AuthConfig, apiToken: string)
    | PasswordAuth(config: AuthConfig, username: string, password: string)

  // ---------------------------------------------------------------------
  // Base URL

  /** get_base_url: https, then the subdomain and the domain joined by a dot. */
  function BaseUrl(a: KintoneAuth): (url: string)
    ensures |url| > |"https://"| && url[..8] == "https://"
    ensures |url| == 9 + |a.config.subdomain| + |a.config.domain|
  {
    "https://" + a.config.subdomain + "." + a.config.domain
  }

  /** The index of the first occurrence of c in s. */
  function FirstIndex(s: string, c: char): (r: Option<nat>)
    ensures r.Some? ==> r.value < |s| && s[r.value] == c && c !in s[..r.value]
    ensures r.None? ==> c !in s
  {
    if s == [] then None
    else if s[0] == c then Some(0)
    else
      match FirstIndex(s[1..], c)
      case None => None
      case Some(i) =>
        assert s[..i + 1] == [s[0]] + s[1..][..i];
        Some(i + 1)
  }

  /** Reads a base URL back into its host parts: after "https://", up to the
      first dot is the subdomain and the rest is the domain. */
  function ParseBaseUrl(url: string): (r: Option<AuthConfig>)
    ensures r.Some? ==> url == "https://" + r.value.subdomain + "." + r.value.domain
  {
    if |url| < 8 || url[..8] != "https://" then None
    else
      var host := url[8..];
      match FirstIndex(host, '.')
      case None => None
      case Some(i) =>
        assert host == host[..i] + "." + host[i + 1..];
        assert url == url[..8] + host;
        Some(AuthConfig(host[..i], host[i + 1..]))
  }

  /** The subdomain and domain can be read back from the base URL whenever the
      subdomain holds no dot (a dotted subdomain and domain are ambiguous). */
  lemma {:induction false} BaseUrlRoundTrip(a: KintoneAuth)
    requires '.' !in a.config.subdomain
    ensures ParseBaseUrl(BaseUrl(a)) == Some(a.config)
  {
    var url := BaseUrl(a);
    var sub := a.config.subdomain;
    var host := url[8..];
    assert host == sub + "." + a.config.domain;
    assert host[|sub|] == '.';
    assert host[..|sub|] == sub;
    var i := FirstIndex(host, '.');
    assert i.Some? && i.value <= |sub|;
    assert host[|sub| + 1..] == a.config.domain;
  }

  // ---------------------------------------------------------------------
  // Headers

  /** The "user:password" text that password authentication encodes. */
  function Credentials(username: string, password: string): string {
    username + ":" + password
  }

  /** get_headers of either scheme: the scheme's credential header plus the
      JSON content type. The password header is Base64 (section 4 of RFC 4648)
      of the UTF-8 bytes of "user:password", so it decodes back to them. */
  function Headers(a: KintoneAuth): (h: map<string, string>)
    ensures "Content-Type" in h && h["Content-Type"] == ContentType
    ensures a.APITokenAuth? ==>
              h.Keys == {"X-Cybozu-API-Token", "Content-Type"} && h["X-Cybozu-API-Token"] == a.apiToken
    ensures a.PasswordAuth? ==> h.Keys == {"X-Cybozu-Authorization", "Content-Type"}
    ensures a.PasswordAuth? ==>
              h["X-Cybozu-Authorization"] == Base64Encode(Utf8Encode(Credentials(a.username, a.password)))
    ensures a.PasswordAuth? ==>
              var d := Base64Decode(h["X-Cybozu-Authorization"]);
              d.Some? && Utf8Decode(d.value) == Some(Credentials(a.username, a.password))
  {
    match a
    case APITokenAuth(_, token) =>
      map["X-Cybozu-API-Token" := token, "Content-Type" := ContentType]
    case PasswordAuth(_, u, p) =>
      var bytes := Utf8Encode(Credentials(u, p));
      Base64RoundTrip(bytes);
      Utf8RoundTrip(Credentials(u, p));
      map["X-Cybozu-Authorization" := Base64Encode(bytes), "Content-Type" := ContentType]
  }

  /** Splitting the credentials at their first colon gives back the username
      and the password whenever the username holds no colon. */
  lemma {:induction false} CredentialsSplit(username: string, password: string)
    requires ':' !in username
    ensures var c := Credentials(username, password);
      FirstIndex(c, ':') == Some(|username|)
      && c[..|username|] == username && c[|username| + 1..] == password
  {
    var c := Credentials(username, password);
    assert c[|username|] == ':';
    assert c[..|username|] == username;
    var i := FirstIndex(c, ':');
  }

  // ---------------------------------------------------------------------
  // Factory

  /** Python's d.get(k, default). */
  function Get(m: map<string, string>, k: string, default: string): string {
    if k in m then m[k] else default
  }

  /** Python's `not d.get(k)`: the key is missing or holds the empty string. */
  predicate Blank(m: map<string, string>, k: string) {
    k !in m || m[k] == []
  }

  /** create_auth: the type defaults to token authentication and the domain to
      cybozu.com; a missing subdomain raises KeyError before the type is
      looked at; each scheme needs its credentials to be non-empty; any other
      type name is refused. */
  function CreateAuth(m: map<string, string>): (r: Result<KintoneAuth>)
    ensures "subdomain" !in m ==> r == Err(PythonError("KeyError", "'subdomain'"))
    ensures r.Ok? ==> r.value.config == AuthConfig(m["subdomain"], Get(m, "domain", DefaultDomain))
    ensures r.Ok? && r.value.APITokenAuth? <==>
              "subdomain" in m && Get(m, "type", "api_token") == "api_token" && !Blank(m, "api_token")
    ensures r.Ok? && r.value.APITokenAuth? ==> r.value.apiToken == m["api_token"]
    ensures r.Ok? && r.value.PasswordAuth? <==>
              "subdomain" in m && Get(m, "type", "api_token") == "password"
              && !Blank(m, "username") && !Blank(m, "password")
    ensures r.Ok? && r.value.PasswordAuth? ==>
              r.value.username == m["username"] && r.value.password == m["password"]
    ensures "subdomain" in m && Get(m, "type", "api_token") == "api_token" && Blank(m, "api_token") ==>
              r == Err(ValueError("api_token is required for API Token authentication"))
    ensures "subdomain" in m && Get(m, "type", "api_token") == "password"
            && (Blank(m, "username") || Blank(m, "password")) ==>
              r == Err(ValueError("username and password are required for Password authentication"))
    ensures "subdomain" in m && Get(m, "type", "api_token") !in {"api_token", "password"} ==>
              r == Err(ValueError("Unknown authentication type: " + Get(m, "type", "api_token")))
  {
    var authType := Get(m, "type", "api_token");
    if "subdomain" !in m then
      Err(PythonError("KeyError", "'subdomain'"))
    else
      var config := AuthConfig(m["subdomain"], Get(m, "domain", DefaultDomain));
      if authType == "api_token" then
        if Blank(m, "api_token") then
          Err(ValueError("api_token is required for API Token authentication"))
        else
          Ok(APITokenAuth(config, m["api_token"]))
      else if authType == "password" then
        if Blank(m, "username") || Blank(m, "password") then
          Err(ValueError("username and password are required for Password authentication"))
        else
          Ok(PasswordAuth(config, m["username"], m["password"]))
      else
        Err(ValueError("Unknown authentication type: " + authType))
  }

  /** The dictionary KintoneConfig.to_auth_config builds has no subdomain, so
      create_auth refuses it as it stands. */
  lemma ToAuthConfigLacksSubdomain(c: Config.KintoneConfig)
    requires Config.ToAuthConfig(c).Ok?
    ensures CreateAuth(Config.ToAuthConfig(c).value) == Err(PythonError("KeyError", "'subdomain'"))
  {
  }

  /** Once a subdomain is added, the dictionary to_auth_config builds from a
      configuration that selects a scheme creates exactly that scheme, with
      the configuration's credentials and domain. */
  lemma {:induction false} ToAuthConfigCreatesScheme(c: Config.KintoneConfig, subdomain: string)
    requires Config.GetAuthType(c).Ok?
    ensures var r := CreateAuth(Config.ToAuthConfig(c).value["subdomain" := subdomain]);
      && r.Ok?
      && r.value.config == AuthConfig(subdomain, c.domain)
      && (Config.GetAuthType(c).value == Config.ApiTokenType ==>
            r.value == APITokenAuth(AuthConfig(subdomain, c.domain), c.apiToken.value))
      && (Config.GetAuthType(c).value == Config.PasswordType ==>
            r.value == PasswordAuth(AuthConfig(subdomain, c.domain), c.username.value, c.password.value))
  {
    var m := Config.ToAuthConfig(c).value["subdomain" := subdomain];
    assert m["type"] == Config.AuthTypeName(Config.GetAuthType(c).value);
    assert m["domain"] == c.domain;
  }
}
