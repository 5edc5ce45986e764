# kintone MCP server core, modelled in Dafny

The kintone MCP server exposes a kintone tenant (apps, records, comments and
process-management statuses) to MCP clients. Its core, modelled here:

- **Client** (`client.dfy`): the request `KintoneClient` builds for each operation.
  - Every call is a POST carrying the intended verb in `X-HTTP-Method-Override`, with URL parameters moved into the JSON body.
  - Page sizes and batch sizes are capped at the per-request maxima.
  - `get_all_records` reads every page of a query from an abstract record store.
- **Utils** (`utils.dfy`): the validators, query sanitising, file path checks and the error dictionaries the server returns.
- **Config** (`config.dfy`): the field validators of `KintoneConfig`, its choice of authentication scheme and the authentication dictionary it produces.
- **Auth** (`auth.dfy`): the two schemes, the base URL of a tenant, the headers each scheme sends and the `create_auth` factory.
  - The password header is Base64 (section 4 of RFC 4648) of the UTF-8 bytes of `user:password`. `encoding.dfy` defines both encodings and proves their round trips.
- **QueryParser** (`query_parser.dfy`): `parse_kintone_query`.
  - It splits a kintone filter query into its base predicate, its `order by` clause and its `limit` and `offset`, merged with the caller's defaults.
  - The parser is reconstructed from its documented cases in `tests/test_query_parser.py`.
  - The queries `get_records` builds are proved to read back through it (`QueryParser.ParseRecordsQuery`).
- **Common** (`common.dfy`) and **Strings** (`strings.dfy`) hold the shared types and the parts of Python's `str` the core uses.

The modules follow the source files. Python dictionaries become `map`s, JSON
values the `Json` datatype, and raised exceptions `Err` values of `Result`.
The parts of Python's `str` the core uses are written out where they are needed:

- `str.strip`, `str.rstrip` of one character and `str()` of an integer are in `Strings`.
- `replace(token, "")` is `Strings.RemoveAll`. Only deletion is modelled, not replacement by other text.
- `split("://")[-1]` is `Config.AfterLastScheme`.
- Splitting a path at `/`, and joining it back, is `Utils.SplitOn` and `Utils.Join`.

## Model

| member | source | states |
|---|---|---|
| Client.NewClient | src/kintone_mcp_server_python3/client.py:40-43 | the client keeps the scheme and takes its base URL and headers from it; the headers always carry the JSON content type |
| Client.PrepareRequest | src/kintone_mcp_server_python3/client.py:45-65 | the verb is POST, the URL is the base URL + `/k/v1` + endpoint, and the caller's headers override the client's. The override header holds the intended verb. The JSON body is the union of body and parameters, parameters winning; there is no body only when neither is given |
| Client.GetRecordsParamsShape | src/kintone_mcp_server_python3/client.py:118-132 | the parameters hold app, size and query, plus fields and totalCount exactly when given. The size is the smaller of the limit and the cap, and the query text carries that size and the offset |
| Client.GetRecordsParams | src/kintone_mcp_server_python3/client.py:118-121 | the size sent is min(limit, cap) |
| Client.Page | src/kintone_mcp_server_python3/client.py:163-167 | a page is the store's slice at the offset, at most size long; it is empty exactly when the size is not positive or the offset is past the end |
| Client.PageRequestsOffsets | src/kintone_mcp_server_python3/client.py:162-165 | request i of the read asks for the page at offset i × batch size |
| Client.PageRequestsStep | src/kintone_mcp_server_python3/client.py:162-177 | each further request is the next page's |
| Client.FullPageContinues | src/kintone_mcp_server_python3/client.py:171-177 | a full page extends the records read so far by exactly the store's next batch and stays within the store |
| Client.EmptyPageFinishes | src/kintone_mcp_server_python3/client.py:168-169 | an empty page after n full pages ends the read, with n + 1 requests, and every record is read |
| Client.ShortPageFinishes | src/kintone_mcp_server_python3/client.py:171-175 | a short page ends the read with that page appended |
| Client.GetAllRecords | src/kintone_mcp_server_python3/client.py:159-179 | with 0 < batch size ≤ cap, every record of the store is returned in order, after \|store\| / batch size + 1 requests. With a non-positive batch size nothing is returned. With a batch size above the cap only the first page is returned. Request i is get_records' request at offset i × batch size |
| Client.LargeBatchStopsEarly | src/kintone_mcp_server_python3/client.py:174-175 | with a batch size above the cap and more records than the cap, the read returns only the first cap-many records, after one request |
| Client.GetAllRecordsCapped | src/kintone_mcp_server_python3/client.py:159-179 | the corrected read returns every record of the store for any positive batch size |
| Client.GetAppsParams | src/kintone_mcp_server_python3/client.py:204-219 | each filter is sent only when non-empty, under its own key (space IDs under spaceIds); the limit is min(limit, cap); the offset is always sent |
| Client.GetCommentsParams | src/kintone_mcp_server_python3/client.py:389-395 | all five keys are sent, with the limit min(limit, cap) |
| Client.BatchBody | src/kintone_mcp_server_python3/client.py:278-283 | more entries than the batch cap is an error carrying the given message; otherwise the body is exactly the app and the entries |
| Client.AddRecordsBody | src/kintone_mcp_server_python3/client.py:278-283 | more records than the batch cap is an error with the source's message; otherwise the body is exactly the app and the records |
| Client.UpdateRecordBody | src/kintone_mcp_server_python3/client.py:311-323 | it is an error exactly when neither ID nor update key is given; otherwise the body holds app and record, plus id, updateKey and revision exactly when each is given |
| Client.UpdateEntry | src/kintone_mcp_server_python3/client.py:350-358 | one record's entry holds the record, plus id, updateKey and revision exactly when each is set |
| Client.UpdateRecordsBody | src/kintone_mcp_server_python3/client.py:343-361 | more records than the cap is an error; otherwise entry i of the body is record i's entry, for every i, and there are as many entries as records |
| Client.UpdateStatusBody | src/kintone_mcp_server_python3/client.py:448-454 | the body holds app, id and action, plus assignee and revision exactly when each is given |
| Client.UpdateStatusesBody | src/kintone_mcp_server_python3/client.py:474-479 | more entries than the cap is an error; otherwise the body is the app and the entries |
| Utils.ValidateAppId | src/kintone_mcp_server_python3/utils.py:56-62 | an app ID is accepted, unchanged, exactly when positive; otherwise the source's error |
| Utils.ValidateRecordId | src/kintone_mcp_server_python3/utils.py:77-83 | a record ID is accepted, unchanged, exactly when positive; otherwise the source's error |
| Utils.ValidateLimit | src/kintone_mcp_server_python3/utils.py:99-107 | a limit is accepted, unchanged, exactly when in 1..max. A non-positive limit gets its error before an excessive one, which names the maximum |
| Utils.ValidateLimitMonotone | src/kintone_mcp_server_python3/utils.py:99-107 | a limit accepted under one maximum is accepted under any larger one |
| Utils.SanitizeSpec | src/kintone_mcp_server_python3/utils.py:119-131 | no result exactly for a missing or empty query; the result is never longer than the query |
| Utils.SanitizeQuery | src/kintone_mcp_server_python3/utils.py:119-131 | the loop over the tokens, with its `in` guard, computes one pass of deletions followed by a strip |
| Utils.RemoveAllAbsent | src/kintone_mcp_server_python3/utils.py:128-129 | replacing a substring that does not occur changes nothing, so the guard does not affect the result |
| Utils.RemoveTokensSameLength | src/kintone_mcp_server_python3/utils.py:127-129 | a pass that keeps the length found no token at all and changed nothing |
| Utils.RemoveTokensAbsent | src/kintone_mcp_server_python3/utils.py:127-129 | a pass over text holding no token changes nothing |
| Utils.SanitizeDropsSemicolon | src/kintone_mcp_server_python3/utils.py:124-131 | the sanitised query never holds a semicolon |
| Utils.CleanQueryOnlyStripped | src/kintone_mcp_server_python3/utils.py:124-131 | a query free of every token is only stripped |
| Utils.SanitizeRecreatesDashes | src/kintone_mcp_server_python3/utils.py:124-131 | `-/*-` sanitises to `--`, which holds a dangerous token |
| Utils.SanitizeRecreatesStoredProcedure | src/kintone_mcp_server_python3/utils.py:124-131 | `ssp_p_` sanitises to `sp_`, which holds a dangerous token |
| Utils.PassUnfolded | src/kintone_mcp_server_python3/utils.py:124-129 | the pass is the six replace calls in the source's order |
| Utils.SanitizeQueryToFixpoint | src/kintone_mcp_server_python3/utils.py:119-131 | the corrected sanitiser: no result exactly for a missing or empty query, and no token survives. It is never longer than the query, and it agrees with the source whenever the query holds no token |
| Utils.PassShrinks | src/kintone_mcp_server_python3/utils.py:127-129 | a pass over text holding a token strictly shortens it, so repeating the pass ends |
| Utils.JoinSplit | src/kintone_mcp_server_python3/utils.py:23 | joining the pieces of a split at `/` gives back the path |
| Utils.PathComponents | src/kintone_mcp_server_python3/utils.py:23-26 | a path's parts are the same names as its non-empty pieces other than `.` (as a set; order and repeats are not stated) |
| Utils.ValidateFilePath | src/kintone_mcp_server_python3/utils.py:22-37 | a path is accepted exactly when it has no `..` component, is absolute and (if asked) exists. `..` is reported before a relative path, and a relative path before a missing file, each with the source's message. An accepted path's parts are all proper names |
| Utils.FormatErrorResponse | src/kintone_mcp_server_python3/utils.py:145-163 | the error message is always present. An API error adds code and details, plus status_code exactly when set and non-zero. Other kintone errors add their details; any other exception adds its type name |
| Config.ValidateDomain | src/kintone_mcp_server_python3/config.py:38-50 | it fails, with the source's message, exactly when the input is blank; an accepted domain holds no `://` and does not end in `/` |
| Config.ValidateDomainKeepsHost | src/kintone_mcp_server_python3/config.py:44-50 | the accepted domain is the stripped input's text after its last `://` (or all of it), less trailing slashes only |
| Config.ValidateApiToken | src/kintone_mcp_server_python3/config.py:52-59 | a token with non-blank text comes back stripped; a missing or blank one comes back unchanged |
| Config.ValidateApiTokenIdempotent | src/kintone_mcp_server_python3/config.py:56-59 | validating a token twice is validating it once |
| Config.ValidateAuthCredentials | src/kintone_mcp_server_python3/config.py:61-80 | it fails exactly when no credential is given, or a username comes without a password, each with the source's message; otherwise it returns the password |
| Config.GetAuthType | src/kintone_mcp_server_python3/config.py:82-94 | the password scheme exactly when username and password are both given. The token scheme exactly when they are not but a token is. Otherwise a configuration error with the source's message |
| Config.CredentialsSelectScheme | src/kintone_mcp_server_python3/config.py:61-94 | validated credentials select a scheme, except a password given with neither username nor token |
| Config.ToAuthConfig | src/kintone_mcp_server_python3/config.py:96-113 | it fails exactly when the scheme cannot be chosen. Otherwise its keys are type, domain and exactly the chosen scheme's credentials, with the configuration's values |
| Auth.BaseUrl | src/kintone_mcp_server_python3/auth.py:27-29 | the URL starts with `https://` and is exactly as long as subdomain, dot and domain after it |
| Auth.ParseBaseUrl | src/kintone_mcp_server_python3/auth.py:27-29 | a URL read back gives parts that rebuild that URL |
| Auth.BaseUrlRoundTrip | src/kintone_mcp_server_python3/auth.py:27-29 | the subdomain and domain are read back from the base URL whenever the subdomain has no dot |
| Auth.Headers | src/kintone_mcp_server_python3/auth.py:39-62 | the token scheme sends exactly its token and the content type. The password scheme sends exactly the authorization header and the content type. That header is the Base64 of the UTF-8 bytes of `user:password`, and it decodes back to that text |
| Auth.CredentialsSplit | src/kintone_mcp_server_python3/auth.py:57 | `user:password` splits at its first colon back into username and password when the username has no colon |
| Auth.CreateAuth | src/kintone_mcp_server_python3/auth.py:65-85 | a missing subdomain raises KeyError before the type is looked at. The type defaults to the token scheme and the domain to cybozu.com. Each scheme is built exactly when its credentials are non-empty, from the dictionary's values; each other case gives the source's error |
| Auth.ToAuthConfigLacksSubdomain | src/kintone_mcp_server_python3/config.py:96-113 | the dictionary to_auth_config builds has no subdomain, so create_auth refuses it |
| Auth.ToAuthConfigCreatesScheme | src/kintone_mcp_server_python3/auth.py:65-85 | with a subdomain added, to_auth_config's dictionary creates exactly the configuration's scheme, credentials and domain |
| Encoding.Utf8RoundTrip | src/kintone_mcp_server_python3/auth.py:58 | decoding the UTF-8 encoding of a string gives the string back |
| Encoding.Base64RoundTrip | src/kintone_mcp_server_python3/auth.py:58 | decoding the Base64 encoding of bytes gives the bytes back |
| Encoding.Base64EncodeAlphabet | src/kintone_mcp_server_python3/auth.py:58 | the encoding uses only the Base64 alphabet and `=` |
| Encoding.Base64Encode | src/kintone_mcp_server_python3/auth.py:58 | the encoding's length is a multiple of four, and it is empty exactly for empty input |
| Strings.StripEmptyIffAllSpace | src/kintone_mcp_server_python3/config.py:41 | a string strips to nothing exactly when it is all whitespace |
| Strings.StripIdempotent | src/kintone_mcp_server_python3/config.py:58 | stripping twice is stripping once |
| Strings.DigitsValueOfNatToString | src/kintone_mcp_server_python3/client.py:124 | the decimal text of a number reads back as that number |
| QueryParser.ParseKintoneQuery | tests/test_query_parser.py:10-16 | an absent or empty query gives the defaults. Otherwise the base query is never longer than the query and has no whitespace at either end |
| QueryParser.ParsedPieces | tests/test_query_parser.py:27-34 | the reported order-by text is a piece of the query that starts with the keyword `order`. A limit in the query can only narrow the caller's default limit. Without a default, a limit or an offset is reported only for a non-empty query |
| QueryParser.MergeLimit | tests/test_query_parser.py:45-61 | the query's limit can only narrow the default; without a default it stands; without one in the query the default stands |
| QueryParser.SearchFindsFirst | tests/test_query_parser.py:72-79 | a property of the left-to-right scan the parser searches with, as a regular-expression search does: it reports the first position where a clause starts |
| QueryParser.SearchFindsNothing | tests/test_query_parser.py:18-25 | a property of the same scan: it finds nothing only when no clause starts anywhere |
| QueryParser.ParseWithOrderBy | tests/test_query_parser.py:72-79 | a clause-free base followed by an order-by clause and optional limit and offset clauses parses into exactly those parts. The order-by text comes back as written, the limit is the smaller of the two, and the query's offset replaces the default |
| QueryParser.ParseWithoutOrderBy | tests/test_query_parser.py:45-70 | the same for a base followed by optional limit and offset clauses only |
| QueryParser.ParseNoClause | tests/test_query_parser.py:18-25 | a query in which no order-by, limit or offset clause starts anywhere (such as `a = 1 and order_no > 5`) comes back stripped, with the defaults |
| QueryParser.ParseClauseFree | tests/test_query_parser.py:18-25 | a corollary: a query holding no clause keyword after whitespace comes back stripped, with the defaults |
| QueryParser.ParseRecordsQuery | src/kintone_mcp_server_python3/client.py:123-124 | the query text get_records sends reads back as the caller's query, the smaller of the page size and the default limit, and the page's offset |
| QueryParser.ParseSimpleCase | tests/test_query_parser.py:18-25 | the simple condition passes through with the defaults |
| QueryParser.ParseOrderByCase | tests/test_query_parser.py:27-34 | `order by field2 desc` is split off |
| QueryParser.ParseTwoFieldOrderByCase | tests/test_query_parser.py:36-43 | an order-by with two fields is split off whole |
| QueryParser.ParseLimitCase | tests/test_query_parser.py:45-52 | limit 50 under a default of 100 gives 50 |
| QueryParser.ParseLargerLimitCase | tests/test_query_parser.py:54-61 | limit 200 under a default of 100 gives 100 |
| QueryParser.ParseOffsetCase | tests/test_query_parser.py:63-70 | offset 50 replaces the default 0 |
| QueryParser.ParseAllClausesCase | tests/test_query_parser.py:72-79 | all three clauses are split off at once |
| QueryParser.ParseUpperCaseCase | tests/test_query_parser.py:81-88 | upper-case keywords are recognised, and the order-by text keeps its case |
| QueryParser.ParseNoDefaultLimitCase | tests/test_query_parser.py:90-97 | without a default limit the query's limit stands |
| QueryParser.ParseComplexCase | tests/test_query_parser.py:99-106 | a condition with parentheses, a list and quoted values is kept as written before the order-by clause |

## Left out

- HTTP transport, response decoding and `_handle_response`'s error mapping: the network is not modelled. `get_all_records` reads pages from an abstract record store (`Client.Page`).
- File upload and download, and the tool, server and entry-point layers (`tools.py`, `server.py`, `__main__.py`): I/O and protocol glue outside the core.
- `get_record`, `add_record`, `add_comment` and the other thin wrappers: each only forwards its arguments to `_make_request`, whose request building `Client.PrepareRequest` models.
- Loading the configuration from the environment and `.env` files, and pydantic's rules for when a validator runs. Each validator is modelled as the function itself.
- The `int()` coercion the validators apply first: the validators take integers.
- Utils.ValidateFilePath: whether the file exists is a parameter standing for the filesystem, and the "Invalid file path" wrapping of unexpected exceptions is not modelled.
- Client.PrepareRequest: the source mutates the caller's dictionaries in place, and the model returns new values, so aliasing is not captured.
- The caps of `constants.py` are not part of this model. They are a `Limits` parameter with the documented values in `Client.DocumentedLimits`. The override header name is taken from the comment at client.py:54, and the scheme names from the strings create_auth compares against.
- Client.Page: the server's answer to a non-positive page size is taken to be an empty page.
- QueryParser.ParseKintoneQuery: the function's body is not part of this model, and the parser is reconstructed from its documented cases.
  - Keywords match in ASCII case only, and numbers are ASCII digits.
  - Each clause must follow whitespace, and the whitespace before a clause is removed with it.
- QueryParser.ParseWithOrderBy and QueryParser.ParseWithoutOrderBy cover only the order of the documented cases: base, then order by, then limit, then offset. No lemma covers other orders, such as `limit` before `order by`.
- QueryParser.ParseRecordsQuery: the read-back is proved for a caller query that is non-empty, ends in a non-space character and holds no clause keyword of its own.
- Encoding.Base64Encode: its length is stated as a multiple of four, not as four times the rounded-up third of the input.
- Encoding.Utf8Encode: characters are Unicode scalar values, so lone surrogates, which Python's encode refuses, cannot occur.
- Encoding.Base64Decode and Encoding.Utf8Decode are lenient: they ignore the padding bits before `=` and accept overlong UTF-8 forms. The round trips therefore do not by themselves fix the header text, and `Auth.Headers` states the encoded header directly.
- Utils.FormatErrorResponse: the status code's truthiness is modelled for integers only.

## Findings

| source | as written | input that shows it | evidently intended | confidence | as-written member | corrected member |
|---|---|---|---|---|---|---|
| src/kintone_mcp_server_python3/utils.py:124-131 | one pass of deletions, each token once, can join the pieces around a deleted token into a new token | `-/*-` gives `--`; `ssp_p_` gives `sp_` | no dangerous token in the sanitised query | medium, not executed | Utils.SanitizeRecreatesDashes | Utils.SanitizeQueryToFixpoint |
| src/kintone_mcp_server_python3/client.py:159-179 | a batch size above the per-request cap is silently reduced to the cap by get_records, so the first page is shorter than the batch size and the loop stops | 501 records, batch size 600, cap 500: 500 records come back | every record is read | medium, not executed | Client.LargeBatchStopsEarly | Client.GetAllRecordsCapped |
