/** Input validation and error formatting (utils.py): identifier and limit
    checks, query sanitising, file path checks and the error dictionaries the
    server returns. */
module Utils {

  import opened Common
  import opened Strings

  // ---------------------------------------------------------------------
  // Identifiers and limits

  /** validate_app_id: an app ID is accepted exactly when it is positive. */
  function ValidateAppId(appId: int): (r: Result<int>)
    ensures r.Ok? <==> appId > 0
    ensures r.Ok? ==> r.value == appId
    ensures r.Err? ==> r.error == ValidationError("Invalid app ID: App ID must be positive")
  {
    if appId <= 0 then Err(ValidationError("Invalid app ID: App ID must be positive")) else Ok(appId)
  }

  /** validate_record_id: a record ID is accepted exactly when it is positive. */
  function ValidateRecordId(recordId: int): (r: Result<int>)
    ensures r.Ok? <==> recordId > 0
    ensures r.Ok? ==> r.value == recordId
    ensures r.Err? ==> r.error == ValidationError("Invalid record ID: Record ID must be positive")
  {
    if recordId <= 0 then Err(ValidationError("Invalid record ID: Record ID must be positive")) else Ok(recordId)
  }

  /** validate_limit: a limit is accepted unchanged exactly when it lies in
      1..maxLimit; a non-positive limit is reported before an excessive one. */
  function ValidateLimit(limit: int, maxLimit: int): (r: Result<int>)
    ensures r.Ok? <==> 1 <= limit <= maxLimit
    ensures r.Ok? ==> r.value == limit
    ensures limit <= 0 ==> r == Err(ValidationError("Invalid limit: Limit must be positive"))
    ensures 0 < limit && maxLimit < limit ==>
              r == Err(ValidationError("Invalid limit: Limit exceeds maximum of " + IntToString(maxLimit)))
  {
    if limit <= 0 then Err(ValidationError("Invalid limit: Limit must be positive"))
    else if limit > maxLimit then Err(ValidationError("Invalid limit: Limit exceeds maximum of " + IntToString(maxLimit)))
    else Ok(limit)
  }

  /** A limit that passes validation is accepted again with any larger maximum. */
  lemma ValidateLimitMonotone(limit: int, maxLimit: int, larger: int)
    requires ValidateLimit(limit, maxLimit).Ok? && maxLimit <= larger
    ensures ValidateLimit(limit, larger) == ValidateLimit(limit, maxLimit)
  {
  }

  // ---------------------------------------------------------------------
  // Query sanitising

  /** The substrings sanitize_query deletes, in the order it deletes them. */
  const DangerousTokens: seq<string> := [";", "--", "/*", "*/", "xp_", "sp_"]

  predicate NonEmptyTokens(ts: seq<string>) {
    forall i :: 0 <= i < |ts| ==> |ts[i]| > 0
  }

  /** One pass of deletions: s.replace(t, "") for each token t in order. */
  function RemoveTokens(s: string, ts: seq<string>): (r: string)
    requires NonEmptyTokens(ts)
    ensures |r| <= |s|
  {
    if ts == [] then s else RemoveAll(RemoveTokens(s, ts[..|ts| - 1]), ts[|ts| - 1])
  }

  /** A pass over the first k + 1 tokens is the pass over the first k followed by token k. */
  lemma RemoveTokensStep(s: string, ts: seq<string>, k: nat)
    requires NonEmptyTokens(ts) && k < |ts|
    ensures RemoveTokens(s, ts[..k + 1]) == RemoveAll(RemoveTokens(s, ts[..k]), ts[k])
  {
    assert ts[..k + 1][..k] == ts[..k];
  }

  /** Replacing a substring that does not occur changes nothing, so the
      `if char in sanitized` guard does not affect the result. */
  lemma {:induction false} RemoveAllAbsent(s: string, pat: string)
    requires |pat| > 0 && !Contains(s, pat)
    ensures RemoveAll(s, pat) == s
    decreases |s|
  {
    if |s| >= |pat| {
      assert !OccursAt(s, pat, 0);
      if Contains(s[1..], pat) {
        assert s[1..] == s[1..|s|];
        ContainsSlice(s, 1, |s|, pat);
      }
      RemoveAllAbsent(s[1..], pat);
    }
  }

  /** Removing a substring keeps the length only when it does not occur, and then changes nothing. */
  lemma RemoveAllSameLength(s: string, pat: string)
    requires |pat| > 0 && |RemoveAll(s, pat)| == |s|
    ensures !Contains(s, pat) && RemoveAll(s, pat) == s
  {
    if Contains(s, pat) {
      RemoveAllShrinks(s, pat);
    }
    RemoveAllAbsent(s, pat);
  }

  /** A pass that keeps the length found no token at all and changed nothing. */
  lemma {:induction false} RemoveTokensSameLength(s: string, ts: seq<string>)
    requires NonEmptyTokens(ts) && |RemoveTokens(s, ts)| == |s|
    ensures RemoveTokens(s, ts) == s
    ensures forall i :: 0 <= i < |ts| ==> !Contains(s, ts[i])
  {
    if ts != [] {
      var init := ts[..|ts| - 1];
      var x := RemoveTokens(s, init);
      assert |RemoveAll(x, ts[|ts| - 1])| <= |x| <= |s|;
      RemoveTokensSameLength(s, init);
      RemoveAllSameLength(s, ts[|ts| - 1]);
      forall i | 0 <= i < |ts| ensures !Contains(s, ts[i]) {
        if i < |ts| - 1 {
          assert ts[i] == init[i];
        }
      }
    }
  }

  /** A pass over a string that holds none of the tokens changes nothing. */
  lemma {:induction false} RemoveTokensAbsent(s: string, ts: seq<string>)
    requires NonEmptyTokens(ts)
    requires forall i :: 0 <= i < |ts| ==> !Contains(s, ts[i])
    ensures RemoveTokens(s, ts) == s
  {
    if ts != [] {
      RemoveTokensAbsent(s, ts[..|ts| - 1]);
      RemoveAllAbsent(s, ts[|ts| - 1]);
    }
  }

  /** What sanitize_query returns: nothing for a missing or empty query,
      otherwise the stripped result of one pass of deletions. */
  function SanitizeSpec(query: Option<string>): (r: Option<string>)
    ensures r.None? <==> !Truthy(query)
    ensures r.Some? ==> |r.value| <= |query.value|
  {
    if !Truthy(query) then None
    else Some(Strip(RemoveTokens(query.value, DangerousTokens)))
  }

  /** sanitize_query as written: a loop over the tokens, each deleted with
      replace when it occurs, then a strip. */
  method SanitizeQuery(query: Option<string>) returns (r: Option<string>)
    ensures r == SanitizeSpec(query)
  {
    if query.None? || query.value == [] {
      return None;
    }
    var sanitized := query.value;
    for k := 0 to |DangerousTokens|
      invariant sanitized == RemoveTokens(query.value, DangerousTokens[..k])
    {
      var token := DangerousTokens[k];
      assert DangerousTokens[..k + 1][..k] == DangerousTokens[..k];
      if Contains(sanitized, token) {
        sanitized := RemoveAll(sanitized, token);
      } else {
        RemoveAllAbsent(sanitized, token);
      }
    }
    assert DangerousTokens[..|DangerousTokens|] == DangerousTokens;
    return Some(Strip(sanitized));
  }

  /** A character absent from a string is absent from its strip. */
  lemma StripKeepsAbsent(s: string, c: char)
    requires c !in s
    ensures c !in Strip(s)
  {
    var i := StripSlice(s);
  }

  /** The sanitised query never holds a semicolon: it is deleted first, and
      later deletions and the strip only drop characters. */
  lemma {:induction false} SanitizeDropsSemicolon(query: Option<string>)
    requires Truthy(query)
    ensures ';' !in SanitizeSpec(query).value
  {
    var s := query.value;
    var ts := DangerousTokens;
    var first := RemoveTokens(s, ts[..1]);
    assert ts[..0] == [];
    RemoveTokensStep(s, ts, 0);
    RemoveAllDropsChar(s, ";");
    var x := first;
    for k := 1 to |ts|
      invariant x == RemoveTokens(s, ts[..k])
      invariant multiset(x) <= multiset(first)
    {
      RemoveTokensStep(s, ts, k);
      RemoveAllKeepsMultiset(x, ts[k]);
      x := RemoveAll(x, ts[k]);
    }
    assert ts[..|ts|] == ts;
    assert multiset(first)[';'] == 0;
    StripKeepsAbsent(x, ';');
  }

  /** A query free of every token only loses its surrounding whitespace. */
  lemma CleanQueryOnlyStripped(q: string)
    requires q != []
    requires forall i :: 0 <= i < |DangerousTokens| ==> !Contains(q, DangerousTokens[i])
    ensures SanitizeSpec(Some(q)) == Some(Strip(q))
  {
    RemoveTokensAbsent(q, DangerousTokens);
  }

  /** Deleting a token whose first two characters never stand next to each
      other in s changes nothing. */
  lemma AbsentByPair(s: string, pat: string)
    requires |pat| >= 2
    requires forall i :: 0 <= i < |s| - 1 ==> s[i] != pat[0] || s[i + 1] != pat[1]
    ensures RemoveAll(s, pat) == s
  {
    forall i | 0 <= i <= |s| ensures !OccursAt(s, pat, i) {
      if i + |pat| <= |s| {
        assert s[i..i + |pat|][0] == s[i] && s[i..i + |pat|][1] == s[i + 1];
      }
    }
    RemoveAllAbsent(s, pat);
  }

  /** Deleting a one-character token that does not occur changes nothing. */
  lemma AbsentByChar(s: string, pat: string)
    requires |pat| == 1 && pat[0] !in s
    ensures RemoveAll(s, pat) == s
  {
    forall i | 0 <= i <= |s| ensures !OccursAt(s, pat, i) {
      if i + 1 <= |s| {
        assert s[i..i + 1][0] == s[i];
      }
    }
    RemoveAllAbsent(s, pat);
  }

  // The single pass can build a token out of the pieces around a deleted
  // one. Dash, slash, star, dash loses its slash-star pair after the double
  // dash was searched for, and leaves a double dash.
  lemma SanitizeRecreatesDashes()
    ensures SanitizeSpec(Some("-/*-")) == Some("--") && Contains("--", "--")
  {
    assert OccursAt("--", "--", 0);
    PassRecreatesDashes();
    StripTrimmed("--");
  }

  /** The pass over all six tokens, one replace call per token. */
  lemma PassPrefixUnfolded(s: string)
    ensures RemoveTokens(s, DangerousTokens[..6])
         == RemoveAll(RemoveAll(RemoveAll(RemoveAll(RemoveAll(RemoveAll(s, ";"), "--"), "/*"), "*/"), "xp_"), "sp_")
  {
    var ts := DangerousTokens;
    assert ts[..0] == [];
    RemoveTokensStep(s, ts, 0);
    RemoveTokensStep(s, ts, 1);
    RemoveTokensStep(s, ts, 2);
    RemoveTokensStep(s, ts, 3);
    RemoveTokensStep(s, ts, 4);
    RemoveTokensStep(s, ts, 5);
  }

  /** sanitize_query's pass is six replace calls in a row. */
  lemma PassUnfolded(s: string)
    ensures RemoveTokens(s, DangerousTokens)
         == RemoveAll(RemoveAll(RemoveAll(RemoveAll(RemoveAll(RemoveAll(s, ";"), "--"), "/*"), "*/"), "xp_"), "sp_")
  {
    calc {
      RemoveTokens(s, DangerousTokens);
      { assert DangerousTokens[..6] == DangerousTokens; }
      RemoveTokens(s, DangerousTokens[..6]);
      { PassPrefixUnfolded(s); }
      RemoveAll(RemoveAll(RemoveAll(RemoveAll(RemoveAll(RemoveAll(s, ";"), "--"), "/*"), "*/"), "xp_"), "sp_");
    }
  }

  lemma PassRecreatesDashes()
    ensures RemoveTokens("-/*-", DangerousTokens) == "--"
  {
    calc {
      RemoveTokens("-/*-", DangerousTokens);
      { PassUnfolded("-/*-"); }
      RemoveAll(RemoveAll(RemoveAll(RemoveAll(RemoveAll(RemoveAll("-/*-", ";"), "--"), "/*"), "*/"), "xp_"), "sp_");
      { AbsentByChar("-/*-", ";"); AbsentByPair("-/*-", "--"); }
      RemoveAll(RemoveAll(RemoveAll(RemoveAll("-/*-", "/*"), "*/"), "xp_"), "sp_");
      { SlashStarRemoved(); }
      RemoveAll(RemoveAll(RemoveAll("--", "*/"), "xp_"), "sp_");
      { AbsentByPair("--", "*/"); AbsentByPair("--", "xp_"); AbsentByPair("--", "sp_"); }
      "--";
    }
  }

  lemma SlashStarRemoved()
    ensures RemoveAll("-/*-", "/*") == "--"
  {
    var a := "-/*-";
    assert a[..2][0] == '-';
    var b := a[1..];
    assert b == "/*-";
    assert b[..2] == "/*";
    assert b[2..] == "-";
  }

  /** The same happens to "ssp_p_": its inner "sp_" goes and "sp_" is left. */
  lemma SanitizeRecreatesStoredProcedure()
    ensures SanitizeSpec(Some("ssp_p_")) == Some("sp_") && Contains("sp_", "sp_")
  {
    assert OccursAt("sp_", "sp_", 0);
    PassRecreatesStoredProcedure();
    StripTrimmed("sp_");
  }

  lemma PassRecreatesStoredProcedure()
    ensures RemoveTokens("ssp_p_", DangerousTokens) == "sp_"
  {
    calc {
      RemoveTokens("ssp_p_", DangerousTokens);
      { PassUnfolded("ssp_p_"); }
      RemoveAll(RemoveAll(RemoveAll(RemoveAll(RemoveAll(RemoveAll("ssp_p_", ";"), "--"), "/*"), "*/"), "xp_"), "sp_");
      { AbsentByChar("ssp_p_", ";"); AbsentByPair("ssp_p_", "--"); AbsentByPair("ssp_p_", "/*"); }
      RemoveAll(RemoveAll(RemoveAll("ssp_p_", "*/"), "xp_"), "sp_");
      { AbsentByPair("ssp_p_", "*/"); AbsentByPair("ssp_p_", "xp_"); }
      RemoveAll("ssp_p_", "sp_");
      { InnerStoredProcedureRemoved(); }
      "sp_";
    }
  }

  lemma InnerStoredProcedureRemoved()
    ensures RemoveAll("ssp_p_", "sp_") == "sp_"
  {
    var a := "ssp_p_";
    assert a[..3][1] == 's';
    var b := a[1..];
    assert b == "sp_p_";
    assert b[..3] == "sp_";
    assert b[3..] == "p_";
  }

  predicate HasToken(s: string) {
    exists i :: 0 <= i < |DangerousTokens| && Contains(s, DangerousTokens[i])
  }

  /** sanitize_query as intended: the pass of deletions is repeated until no
      token is left, then the result is stripped. No token survives, and the
      result is never longer than the query. */
  method SanitizeQueryToFixpoint(query: Option<string>) returns (r: Option<string>)
    ensures r.None? <==> !Truthy(query)
    ensures r.Some? ==> |r.value| <= |query.value|
    ensures r.Some? ==> !HasToken(r.value)
    ensures Truthy(query) && !HasToken(query.value) ==> r == SanitizeSpec(query)
  {
    if query.None? || query.value == [] {
      return None;
    }
    var s := query.value;
    if !HasToken(s) {
      CleanQueryOnlyStripped(s);
    }
    while HasToken(s)
      invariant |s| <= |query.value|
      invariant !HasToken(query.value) ==> s == query.value
      decreases |s|
    {
      PassShrinks(s);
      s := RemoveTokens(s, DangerousTokens);
    }
    var t := Strip(s);
    StripKeepsNoToken(s);
    return Some(t);
  }

  /** A pass over a string that holds a token makes it strictly shorter. */
  lemma PassShrinks(s: string)
    requires HasToken(s)
    ensures |RemoveTokens(s, DangerousTokens)| < |s|
  {
    if |RemoveTokens(s, DangerousTokens)| == |s| {
      RemoveTokensSameLength(s, DangerousTokens);
    }
  }

  /** Stripping a string without tokens leaves none. */
  lemma StripKeepsNoToken(s: string)
    requires !HasToken(s)
    ensures !HasToken(Strip(s))
  {
    var t := Strip(s);
    var lo := StripSlice(s);
    if HasToken(t) {
      var i :| 0 <= i < |DangerousTokens| && Contains(t, DangerousTokens[i]);
      ContainsSlice(s, lo, lo + |t|, DangerousTokens[i]);
    }
  }

  // ---------------------------------------------------------------------
  // File paths

  /** str.split(c): the pieces between the separators, at least one. */
  function SplitOn(s: string, c: char): (parts: seq<string>)
    ensures |parts| >= 1
    ensures forall i :: 0 <= i < |parts| ==> c !in parts[i]
  {
    if s == [] then [[]]
    else
      var rest := SplitOn(s[1..], c);
      if s[0] == c then [[]] + rest
      else [[s[0]] + rest[0]] + rest[1..]
  }

  /** c.join(parts). */
  function Join(parts: seq<string>, c: char): string
    requires |parts| >= 1
  {
    if |parts| == 1 then parts[0] else parts[0] + [c] + Join(parts[1..], c)
  }

  /** Joining the pieces of a split gives back the original text. */
  lemma {:induction false} JoinSplit(s: string, c: char)
    ensures Join(SplitOn(s, c), c) == s
  {
    if s != [] {
      var rest := SplitOn(s[1..], c);
      JoinSplit(s[1..], c);
      if s[0] == c {
        assert SplitOn(s, c)[1..] == rest;
      } else {
        var parts := SplitOn(s, c);
        if |rest| == 1 {
          assert parts == [[s[0]] + rest[0]];
        } else {
          assert parts[1..] == rest[1..];
          assert Join(rest, c) == rest[0] + [c] + Join(rest[1..], c);
        }
      }
    }
  }

  /** PurePosixPath's parts below the root: the pieces between slashes
      without the empty ones and the "." ones. */
  function PathComponents(pieces: seq<string>): (r: seq<string>)
    ensures forall x :: x in r <==> x in pieces && x != [] && x != "."
  {
    if pieces == [] then []
    else
      var rest := PathComponents(pieces[1..]);
      assert pieces == [pieces[0]] + pieces[1..];
      if pieces[0] == [] || pieces[0] == "." then rest else [pieces[0]] + rest
  }

  /** A parsed POSIX path: whether it starts at the root, and its components. */
  datatype PosixPath = PosixPath(absolute: bool, parts: seq<string>)

  function ParsePath(path: string): PosixPath {
    PosixPath(|path| > 0 && path[0] == '/', PathComponents(SplitOn(path, '/')))
  }

  /** validate_file_path over its component checks: a ".." component is
      refused before a relative path is, and the existence test (a parameter
      standing for the filesystem) is consulted only when asked for. */
  function ValidateFilePath(path: string, mustExist: bool, fileExists: bool): (r: Result<PosixPath>)
    ensures r.Ok? <==> ".." !in SplitOn(path, '/') && |path| > 0 && path[0] == '/' && (mustExist ==> fileExists)
    ensures ".." in SplitOn(path, '/') ==> r == Err(ValidationError("Path traversal not allowed"))
    ensures ".." !in SplitOn(path, '/') && (path == [] || path[0] != '/') ==>
              r == Err(ValidationError("Must use absolute paths"))
    ensures ".." !in SplitOn(path, '/') && |path| > 0 && path[0] == '/' && mustExist && !fileExists ==>
              r == Err(ValidationError("File not found: " + path))
    ensures r.Ok? ==> r.value.absolute && r.value == ParsePath(path)
    ensures r.Ok? ==> forall x :: x in r.value.parts ==> x != [] && x != "." && x != ".."
  {
    var p := ParsePath(path);
    if ".." in p.parts then Err(ValidationError("Path traversal not allowed"))
    else if !p.absolute then Err(ValidationError("Must use absolute paths"))
    else if mustExist && !fileExists then Err(ValidationError("File not found: " + path))
    else Ok(p)
  }

  // ---------------------------------------------------------------------
  // Error responses

  /** str(error): the exception's message. */
  function Message(e: Error): string {
    match e
    case KintoneError(_, m, _) => m
    case KintoneAPIError(m, _, _, _) => m
    case PythonError(_, m) => m
  }

  function OptStr(s: Option<string>): Json {
    if s.None? then JNull else JStr(s.value)
  }

  function OptObj(o: Option<map<string, Json>>): Json {
    if o.None? then JNull else JObj(o.value)
  }

  /** format_error_response: an API error reports its code, its error details
      and a status code when that is set and non-zero; any other kintone error
      reports its details; any other exception reports its class name. */
  function FormatErrorResponse(e: Error): (r: map<string, Json>)
    ensures "error" in r && r["error"] == JStr(Message(e))
    ensures e.KintoneAPIError? ==>
              r.Keys == {"error", "code", "details"} + (if e.statusCode.Some? && e.statusCode.value != 0 then {"status_code"} else {})
    ensures e.KintoneAPIError? ==> r["code"] == OptStr(e.code) && r["details"] == OptObj(e.errors)
    ensures "status_code" in r <==> e.KintoneAPIError? && e.statusCode.Some? && e.statusCode.value != 0
    ensures "status_code" in r ==> r["status_code"] == JInt(e.statusCode.value)
    ensures e.KintoneError? ==> r == map["error" := JStr(e.message), "details" := JObj(e.details)]
    ensures e.PythonError? ==> r == map["error" := JStr(e.message), "type" := JStr(e.typeName)]
  {
    match e
    case KintoneAPIError(m, code, errors, status) =>
      var response := map["error" := JStr(m), "code" := OptStr(code), "details" := OptObj(errors)];
      if status.Some? && status.value != 0 then response["status_code" := JInt(status.value)] else response
    case KintoneError(_, m, details) =>
      map["error" := JStr(m), "details" := JObj(details)]
    case PythonError(name, m) =>
      map["error" := JStr(m), "type" := JStr(name)]
  }
}
