/** KintoneConfig (config.py): the field validators, the choice of
    authentication scheme and the authentication dictionary it produces. */
module Config {

  import opened Common
  import opened Strings

  datatype AuthType = ApiTokenType | PasswordType

  /** AUTH_TYPE_API_TOKEN and AUTH_TYPE_PASSWORD: the strings create_auth dispatches on. */
  function AuthTypeName(t: AuthType): string {
    match t
    case ApiTokenType => "api_token"
    case PasswordType => "password"
  }

  /** The authentication fields of a loaded configuration. */
  datatype KintoneConfig = KintoneConfig(
    domain: string,
    apiToken: Option<string>,
    username: Option<string>,
    password: Option<string>)

  /** validate_domain: rejects blank input, then strips it, keeps only the text
      after the last "://" and drops trailing slashes. */
  function ValidateDomain(v: string): (r: Result<string>)
    ensures r.Err? <==> AllSpace(v)
    ensures r.Err? ==> r.error == ValueError("domain cannot be empty")
    ensures r.Ok? ==> !Contains(r.value, "://")
    ensures r.Ok? ==> r.value == [] || r.value[|r.value| - 1] != '/'
  {
    StripEmptyIffAllSpace(v);
    if v == [] || Strip(v) == [] then
      Err(ValueError("domain cannot be empty"))
    else
      var s := Strip(v);
      var host := AfterLastScheme(s);
      var r := if |host| > 0 && host[|host| - 1] == '/' then RStripChar(host, '/') else host;
      PrefixKeepsNoScheme(host, |r|);
      Ok(r)
  }

  /** `s.split("://")[-1]`: the text after the last "://", or all of s when there is none. */
  function AfterLastScheme(s: string): (t: string)
    ensures !Contains(t, "://")
    ensures |t| <= |s| && t == s[|s| - |t|..]
    ensures (t == s && !Contains(s, "://")) || (|t| + 3 <= |s| && s[|s| - |t| - 3..|s| - |t|] == "://")
  {
    match LastOccurrence(s, "://", |s| + 1)
    case None =>
      NoOccurrenceNoContains(s, "://");
      s
    case Some(i) =>
      TailAfterLast(s, "://", i);
      s[i + 3..]
  }

  lemma NoOccurrenceNoContains(s: string, pat: string)
    requires forall j :: 0 <= j < |s| + 1 ==> !OccursAt(s, pat, j)
    ensures !Contains(s, pat)
  {
  }

  /** Past the last occurrence of pat there is no further occurrence. */
  lemma TailAfterLast(s: string, pat: string, i: nat)
    requires |pat| > 0 && OccursAt(s, pat, i)
    requires forall j :: i < j < |s| + 1 ==> !OccursAt(s, pat, j)
    ensures !Contains(s[i + |pat|..], pat)
  {
    if Contains(s[i + |pat|..], pat) {
      ContainsSliceAt(s, i + |pat|, pat);
    }
  }

  /** An occurrence in s[lo..] is an occurrence in s at or after lo. */
  lemma ContainsSliceAt(s: string, lo: nat, pat: string)
    requires lo <= |s| && Contains(s[lo..], pat)
    ensures exists j :: lo <= j <= |s| && OccursAt(s, pat, j)
  {
    var j :| 0 <= j <= |s[lo..]| && OccursAt(s[lo..], pat, j);
    assert s[lo..][j..j + |pat|] == s[lo + j..lo + j + |pat|];
    assert OccursAt(s, pat, lo + j);
  }

  /** A prefix of a string free of "://" is free of it too. */
  lemma PrefixKeepsNoScheme(t: string, n: nat)
    requires n <= |t| && !Contains(t, "://")
    ensures !Contains(t[..n], "://")
  {
    if Contains(t[..n], "://") {
      ContainsSlice(t, 0, n, "://");
    }
  }

  /** What validate_domain keeps: the stripped input is a cut (its start or
      just after a "://"), then the result, then only slashes, and no "://"
      follows the cut. */
  lemma {:induction false} ValidateDomainKeepsHost(v: string) returns (i: nat)
    requires ValidateDomain(v).Ok?
    ensures var s, r := Strip(v), ValidateDomain(v).value;
      && i + |r| <= |s|
      && s[i..i + |r|] == r
      && (forall k :: i + |r| <= k < |s| ==> s[k] == '/')
      && !Contains(s[i..], "://")
      && ((i == 0 && !Contains(s, "://")) || (i >= 3 && s[i - 3..i] == "://"))
  {
    var s := Strip(v);
    var host := AfterLastScheme(s);
    var r := ValidateDomain(v).value;
    assert r == RStripChar(host, '/');
    i := |s| - |host|;
    assert s[i..i + |r|] == host[..|r|];
  }

  /** validate_api_token: a token with some non-blank text comes back stripped;
      a missing or blank token comes back as it was. */
  function ValidateApiToken(v: Option<string>): (r: Option<string>)
    ensures r.None? <==> v.None?
    ensures v.Some? && !AllSpace(v.value) ==> r == Some(Strip(v.value))
    ensures v.Some? && AllSpace(v.value) ==> r == v
  {
    if v.None? then v
    else
      StripEmptyIffAllSpace(v.value);
      if v.value != [] && Strip(v.value) != [] then Some(Strip(v.value)) else v
  }

  /** Validating a token twice is validating it once. */
  lemma {:induction false} ValidateApiTokenIdempotent(v: Option<string>)
    ensures ValidateApiToken(ValidateApiToken(v)) == ValidateApiToken(v)
  {
    if v.Some? && !AllSpace(v.value) {
      var t := Strip(v.value);
      StripIdempotent(v.value);
      StripEmptyIffAllSpace(v.value);
      StripEmptyIffAllSpace(t);
    }
  }

  /** validate_auth_credentials: some credential must be present, and a
      username needs a password. */
  function ValidateAuthCredentials(username: Option<string>, password: Option<string>, apiToken: Option<string>)
    : (r: Result<Option<string>>)
    ensures r.Ok? ==> r.value == password
    ensures r.Err? <==> (!Truthy(username) && !Truthy(password) && !Truthy(apiToken))
                        || (Truthy(username) && !Truthy(password))
    ensures !Truthy(username) && !Truthy(password) && !Truthy(apiToken) ==>
              r == Err(ValueError("Either username and password, or api_token must be provided"))
    ensures Truthy(username) && !Truthy(password) ==>
              r == Err(ValueError("Password is required when username is provided"))
  {
    if !Truthy(username) && !Truthy(password) && !Truthy(apiToken) then
      Err(ValueError("Either username and password, or api_token must be provided"))
    else if Truthy(username) && !Truthy(password) then
      Err(ValueError("Password is required when username is provided"))
    else
      Ok(password)
  }

  /** get_auth_type: username and password together win over a token; a
      token alone selects token authentication; otherwise a config error. */
  function GetAuthType(c: KintoneConfig): (r: Result<AuthType>)
    ensures r == Ok(PasswordType) <==> Truthy(c.username) && Truthy(c.password)
    ensures r == Ok(ApiTokenType) <==> !(Truthy(c.username) && Truthy(c.password)) && Truthy(c.apiToken)
    ensures r.Err? ==> r.error.KintoneError? && r.error.kind == ConfigFailure
    ensures r.Err? ==> r == Err(ConfigError("No valid authentication credentials provided. "
                                            + "Please provide either username and password, or api_token."))
  {
    if Truthy(c.username) && Truthy(c.password) then Ok(PasswordType)
    else if Truthy(c.apiToken) then Ok(ApiTokenType)
    else Err(ConfigError("No valid authentication credentials provided. "
                         + "Please provide either username and password, or api_token."))
  }

  /** Credentials that pass validation always select a scheme, except a
      password given with neither a username nor a token. */
  lemma CredentialsSelectScheme(c: KintoneConfig)
    requires ValidateAuthCredentials(c.username, c.password, c.apiToken).Ok?
    ensures GetAuthType(c).Err? <==> !Truthy(c.username) && !Truthy(c.apiToken)
  {
  }

  /** to_auth_config: the scheme name and domain, then only the credentials of
      the chosen scheme that are present. */
  function ToAuthConfig(c: KintoneConfig): (r: Result<map<string, string>>)
    ensures r.Err? <==> GetAuthType(c).Err?
    ensures r.Err? ==> r.error == GetAuthType(c).error
    ensures r.Ok? ==> "type" in r.value && r.value["type"] == AuthTypeName(GetAuthType(c).value)
    ensures r.Ok? ==> "domain" in r.value && r.value["domain"] == c.domain
    ensures r.Ok? ==> (r.value.Keys ==
      {"type", "domain"}
      + (if GetAuthType(c).value == ApiTokenType then {"api_token"} else {"username", "password"}))
    ensures r.Ok? && "api_token" in r.value ==> Truthy(c.apiToken) && r.value["api_token"] == c.apiToken.value
    ensures r.Ok? && "username" in r.value ==> Truthy(c.username) && r.value["username"] == c.username.value
    ensures r.Ok? && "password" in r.value ==> Truthy(c.password) && r.value["password"] == c.password.value
  {
    match GetAuthType(c)
    case Err(e) => Err(e)
    case Ok(t) =>
      var base := map["type" := AuthTypeName(t), "domain" := c.domain];
      if t == ApiTokenType then
        Ok(if Truthy(c.apiToken) then base["api_token" := c.apiToken.value] else base)
      else
        var withUser := if Truthy(c.username) then base["username" := c.username.value] else base;
        Ok(if Truthy(c.password) then withUser["password" := c.password.value] else withUser)
  }
}
