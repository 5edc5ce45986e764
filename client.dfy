/** The kintone REST client (client.py): the request each operation sends,
    the merge of URL parameters into the JSON body, and the pagination loop
    of get_all_records over an abstract record store. */
module Client {

  import opened Common
  import opened Strings
  import Auth

  /** The caps of constants.py: records per request, apps per request,
      comments per request and records per batch. */
  datatype Limits = Limits(
    maxRecordsPerRequest: int,
    maxAppsPerRequest: int,
    maxCommentsPerRequest: int,
    maxBatchRecords: int)

  /** The documented values of the caps. */
  const DocumentedLimits: Limits := Limits(500, 100, 10, 100)

  /** The header that carries the intended HTTP verb of every POST. */
  const MethodOverrideHeader: string := "X-HTTP-Method-Override"

  /** KintoneClient: the authentication, and the base URL and headers it
      takes from it once, at construction. */
  datatype KintoneClient = KintoneClient(
    auth: Auth.KintoneAuth,
    baseUrl: string,
    headers: map<string, string>,
    limits: Limits)

  /** KintoneClient.__init__. */
  function NewClient(auth: Auth.KintoneAuth, limits: Limits): (c: KintoneClient)
    ensures c.auth == auth && c.limits == limits
    ensures c.baseUrl == Auth.BaseUrl(auth) && c.headers == Auth.Headers(auth)
    ensures "Content-Type" in c.headers && c.headers["Content-Type"] == Auth.ContentType
  {
    KintoneClient(auth, Auth.BaseUrl(auth), Auth.Headers(auth), limits)
  }

  function Min(a: int, b: int): (m: int)
    ensures m <= a && m <= b && (m == a || m == b)
  {
    if a <= b then a else b
  }

  function IntList(xs: seq<int>): (j: Json)
    ensures j.JList? && |j.items| == |xs|
    ensures forall i :: 0 <= i < |xs| ==> j.items[i] == JInt(xs[i])
  {
    JList(seq(|xs|, i requires 0 <= i < |xs| => JInt(xs[i])))
  }

  function StrList(xs: seq<string>): (j: Json)
    ensures j.JList? && |j.items| == |xs|
    ensures forall i :: 0 <= i < |xs| ==> j.items[i] == JStr(xs[i])
  {
    JList(seq(|xs|, i requires 0 <= i < |xs| => JStr(xs[i])))
  }

  function ObjList(xs: seq<map<string, Json>>): (j: Json)
    ensures j.JList? && |j.items| == |xs|
    ensures forall i :: 0 <= i < |xs| ==> j.items[i] == JObj(xs[i])
  {
    JList(seq(|xs|, i requires 0 <= i < |xs| => JObj(xs[i])))
  }

  /** Python truthiness of an optional list: neither None nor empty. */
  predicate NonEmpty<T>(xs: Option<seq<T>>) {
    xs.Some? && xs.value != []
  }

  // ---------------------------------------------------------------------
  // _make_request

  /** What goes over the wire: always a POST, to the API path under the base
      URL, with the merged headers and the JSON body. */
  datatype HttpRequest = HttpRequest(
    verb: string,
    url: string,
    headers: map<string, string>,
    json: Option<map<string, Json>>)

  /** _make_request up to the network call: the client's headers updated by
      the caller's, the intended verb in the override header, and URL
      parameters moved into the JSON body, where they win over keys the body
      already has. */
  method PrepareRequest(client: KintoneClient, httpMethod: string, endpoint: string,
                        extraHeaders: Option<map<string, string>>,
                        params: Option<map<string, Json>>,
                        json: Option<map<string, Json>>)
    returns (req: HttpRequest)
    ensures req.verb == "POST"
    ensures req.url == client.baseUrl + "/k/v1" + endpoint
    ensures req.headers.Keys
         == client.headers.Keys + (if extraHeaders.Some? then extraHeaders.value.Keys else {}) + {MethodOverrideHeader}
    ensures req.headers[MethodOverrideHeader] == httpMethod
    ensures forall k :: k in req.headers && k != MethodOverrideHeader ==>
              req.headers[k] == (if extraHeaders.Some? && k in extraHeaders.value then extraHeaders.value[k]
                                 else client.headers[k])
    ensures req.json.None? <==> params.None? && json.None?
    ensures params.None? ==> req.json == json
    ensures params.Some? && json.None? ==> req.json == params
    ensures params.Some? && json.Some? ==>
              req.json.value.Keys == json.value.Keys + params.value.Keys
              && forall k :: k in req.json.value ==>
                   req.json.value[k] == (if k in params.value then params.value[k] else json.value[k])
  {
    var url := client.baseUrl + "/k/v1" + endpoint;
    var headers := client.headers;
    if extraHeaders.Some? {
      headers := headers + extraHeaders.value;
    }
    headers := headers[MethodOverrideHeader := httpMethod];
    var body := json;
    if params.Some? {
      if body.None? {
        body := params;
      } else {
        body := Some(body.value + params.value);
      }
    }
    req := HttpRequest("POST", url, headers, body);
  }

  // ---------------------------------------------------------------------
  // get_records and get_all_records

  /** The query text get_records sends: the caller's query, if any, followed
      by the page's limit and offset. */
  function RecordsQuery(query: Option<string>, size: int, offset: int): string {
    (if Truthy(query) then query.value + " " else "") + "limit " + IntToString(size) + " offset " + IntToString(offset)
  }

  /** get_records' parameters: the app, the page size capped at the
      per-request maximum, the query text with its limit and offset, and the
      fields and total-count flag only when given (GetRecordsParamsShape). */
  function GetRecordsParams(app: int, query: Option<string>, fields: Option<seq<string>>,
                            totalCount: Option<bool>, limit: int, offset: int, maxRecords: int)
    : (p: map<string, Json>)
    ensures "size" in p && p["size"] == JInt(Min(limit, maxRecords))
  {
    var size := Min(limit, maxRecords);
    var p := map["app" := JInt(app), "size" := JInt(size), "query" := JStr(RecordsQuery(query, size, offset))];
    var p := if NonEmpty(fields) then p["fields" := StrList(fields.value)] else p;
    if totalCount.Some? then p["totalCount" := JBool(totalCount.value)] else p
  }

  /** The keys get_records sends and what each holds: the size is the
      smaller of the limit and the cap, and the query text carries it. */
  lemma GetRecordsParamsShape(app: int, query: Option<string>, fields: Option<seq<string>>,
                              totalCount: Option<bool>, limit: int, offset: int, maxRecords: int)
    ensures var p := GetRecordsParams(app, query, fields, totalCount, limit, offset, maxRecords);
      && p.Keys == {"app", "size", "query"}
                   + (if NonEmpty(fields) then {"fields"} else {})
                   + (if totalCount.Some? then {"totalCount"} else {})
      && p["app"] == JInt(app)
      && p["size"].JInt? && p["size"].i <= maxRecords && p["size"].i <= limit
      && (p["size"].i == limit || p["size"].i == maxRecords)
      && p["query"] == JStr(RecordsQuery(query, p["size"].i, offset))
      && (NonEmpty(fields) ==> p["fields"] == StrList(fields.value))
      && (totalCount.Some? ==> p["totalCount"] == JBool(totalCount.value))
  {
  }


  /** The records the server holds for a query, and the page it answers a
      request with: at most size records starting at offset. */
  function Page(store: seq<Json>, offset: nat, size: int): (page: seq<Json>)
    ensures |page| <= |store| && (size > 0 ==> |page| <= size)
    ensures page == [] <==> size <= 0 || offset >= |store|
    ensures page != [] ==> offset + |page| <= |store| && page == store[offset..offset + |page|]
    ensures page != [] ==> |page| == Min(size, |store| - offset)
  {
    if size <= 0 || offset >= |store| then [] else store[offset..Min(offset + size, |store|)]
  }

  /** Multiplying by a positive b keeps a gap of at least b between distinct multiples. */
  lemma {:induction false} MulGap(x: nat, y: nat, b: nat)
    requires x > y
    ensures x * b >= y * b + b
  {
    if x > y + 1 {
      MulGap(x - 1, y, b);
    }
    assert x * b == (x - 1) * b + b;
  }

  /** n lies in the k-th block of b exactly when n / b is k. */
  lemma DivInBlock(n: nat, b: nat, k: nat)
    requires b > 0 && k * b <= n < k * b + b
    ensures n / b == k
  {
    var q := n / b;
    assert q * b <= n < q * b + b;
    if q > k {
      MulGap(q, k, b);
    } else if q < k {
      MulGap(k, q, b);
    }
  }

  /** f(0), ..., f(n - 1), built by appending one element at a time. */
  function Tabulate<T>(n: nat, f: nat -> T): (xs: seq<T>)
    ensures |xs| == n
  {
    if n == 0 then [] else Tabulate(n - 1, f) + [f(n - 1)]
  }

  /** Element i of Tabulate(n, f) is f(i). */
  lemma {:induction false} TabulateAt<T>(n: nat, f: nat -> T)
    ensures forall i :: 0 <= i < n ==> Tabulate(n, f)[i] == f(i)
  {
    if n > 0 {
      TabulateAt(n - 1, f);
    }
  }

  /** The request get_all_records sends for page i: offset i * b with b the
      batch size, and no total count. */
  function PageRequest(app: int, query: Option<string>, fields: Option<seq<string>>,
                       batchSize: int, maxRecords: int): nat -> map<string, Json>
  {
    (i: nat) => GetRecordsParams(app, query, fields, None, batchSize, i * batchSize, maxRecords)
  }

  /** The first n requests of get_all_records. */
  function PageRequests(n: nat, app: int, query: Option<string>, fields: Option<seq<string>>,
                        batchSize: int, maxRecords: int): (rs: seq<map<string, Json>>)
    ensures |rs| == n
  {
    Tabulate(n, PageRequest(app, query, fields, batchSize, maxRecords))
  }

  /** The i-th of those requests asks for the page at offset i * b. */
  lemma PageRequestsOffsets(n: nat, app: int, query: Option<string>, fields: Option<seq<string>>,
                            batchSize: int, maxRecords: int)
    ensures forall i :: 0 <= i < n ==>
              PageRequests(n, app, query, fields, batchSize, maxRecords)[i]
              == GetRecordsParams(app, query, fields, None, batchSize, i * batchSize, maxRecords)
  {
    TabulateAt(n, PageRequest(app, query, fields, batchSize, maxRecords));
  }

  /** One more request is the next page's. */
  lemma PageRequestsStep(n: nat, app: int, query: Option<string>, fields: Option<seq<string>>,
                         batchSize: int, maxRecords: int)
    ensures PageRequests(n + 1, app, query, fields, batchSize, maxRecords)
            == PageRequests(n, app, query, fields, batchSize, maxRecords)
               + [GetRecordsParams(app, query, fields, None, batchSize, n * batchSize, maxRecords)]
  {
  }

  /** What get_all_records has returned once it stops after n requests: with
      0 < b <= the cap every record, in order, after |store| / b + 1
      requests; with b above the cap only the first page; with b <= 0 nothing. */
  predicate Finished(store: seq<Json>, all: seq<Json>, n: nat, batchSize: int, maxRecords: int) {
    && n >= 1
    && (0 < batchSize <= maxRecords ==> all == store && n == |store| / batchSize + 1)
    && (batchSize <= 0 ==> all == [] && n == 1)
    && (0 < maxRecords < batchSize ==> all == store[..Min(maxRecords, |store|)] && n == 1)
  }

  /** get_all_records' state after n full pages: the next offset is n * b,
      within the store, and the records so far are the store up to it. More
      than zero full pages means the batch size is positive and within the cap. */
  predicate ReadSoFar(store: seq<Json>, all: seq<Json>, offset: nat, n: nat, batchSize: int, maxRecords: int) {
    && maxRecords > 0
    && offset <= |store|
    && (n > 0 ==> 0 < batchSize <= maxRecords)
    && offset == n * batchSize
    && all == store[..offset]
  }

  /** A full page moves the read on by one batch. */
  lemma FullPageContinues(store: seq<Json>, all: seq<Json>, offset: nat, n: nat, batchSize: int, maxRecords: int,
                          records: seq<Json>)
    requires ReadSoFar(store, all, offset, n, batchSize, maxRecords)
    requires records == Page(store, offset, Min(batchSize, maxRecords)) && records != [] && |records| >= batchSize
    ensures offset + batchSize <= |store|
    ensures ReadSoFar(store, all + records, offset + batchSize, n + 1, batchSize, maxRecords)
  {
    assert store[..offset] + records == store[..offset + |records|];
    assert n * batchSize + batchSize == (n + 1) * batchSize;
  }

  /** Stopping at an empty page after n full pages finishes the read. */
  lemma EmptyPageFinishes(store: seq<Json>, all: seq<Json>, offset: nat, n: nat, batchSize: int, maxRecords: int)
    requires ReadSoFar(store, all, offset, n, batchSize, maxRecords)
    requires Page(store, offset, Min(batchSize, maxRecords)) == []
    ensures Finished(store, all, n + 1, batchSize, maxRecords)
  {
    if 0 < batchSize <= maxRecords {
      DivInBlock(|store|, batchSize, n);
    }
  }

  /** Stopping at a non-empty page shorter than the batch size after n full
      pages finishes the read, with that page appended. */
  lemma ShortPageFinishes(store: seq<Json>, all: seq<Json>, offset: nat, n: nat, batchSize: int, maxRecords: int,
                          records: seq<Json>)
    requires ReadSoFar(store, all, offset, n, batchSize, maxRecords)
    requires records == Page(store, offset, Min(batchSize, maxRecords)) && records != [] && |records| < batchSize
    ensures Finished(store, all + records, n + 1, batchSize, maxRecords)
  {
    assert store[..offset] + records == store[..offset + |records|];
    if batchSize <= maxRecords {
      DivInBlock(|store|, batchSize, n);
    }
  }

  /** get_all_records against a store: requests pages at offsets 0, b, 2b, ...
      with b the batch size, and stops at the first empty page or the first
      page shorter than b; what it returns is Finished. Each page is read
      with the size its request carries. */
  method GetAllRecords(store: seq<Json>, app: int, query: Option<string>, fields: Option<seq<string>>,
                       batchSize: int, maxRecords: int)
    returns (all: seq<Json>, requests: seq<map<string, Json>>)
    requires maxRecords > 0
    ensures Finished(store, all, |requests|, batchSize, maxRecords)
    ensures requests == PageRequests(|requests|, app, query, fields, batchSize, maxRecords)
  {
    all := [];
    requests := [];
    var offset: nat := 0;
    while true
      invariant ReadSoFar(store, all, offset, |requests|, batchSize, maxRecords)
      invariant requests == PageRequests(|requests|, app, query, fields, batchSize, maxRecords)
      decreases |store| - offset
    {
      var n := |requests|;
      var params := GetRecordsParams(app, query, fields, None, batchSize, offset, maxRecords);
      PageRequestsStep(n, app, query, fields, batchSize, maxRecords);
      requests := requests + [params];
      var records := Page(store, offset, params["size"].i);
      if records == [] {
        EmptyPageFinishes(store, all, offset, n, batchSize, maxRecords);
        break;
      }
      if |records| < batchSize {
        ShortPageFinishes(store, all, offset, n, batchSize, maxRecords, records);
        all := all + records;
        break;
      }
      FullPageContinues(store, all, offset, n, batchSize, maxRecords, records);
      all := all + records;
      offset := offset + batchSize;
    }
  }

  /** As written, a batch size above the per-request cap stops the read after
      one page: get_records silently sends the cap as the page size, so the
      first page is shorter than the batch size whenever the store holds
      more than the cap, and only the first maxRecords records come back. */
  lemma LargeBatchStopsEarly(store: seq<Json>, all: seq<Json>, n: nat, batchSize: int, maxRecords: int)
    requires 0 < maxRecords < batchSize && maxRecords < |store|
    requires Finished(store, all, n, batchSize, maxRecords)
    ensures |all| == maxRecords < |store| && n == 1
  {
  }

  /** get_all_records with the batch size first capped at the per-request
      maximum, so that a full page is recognised as full: every record of the
      store comes back, in order, whenever the batch size is positive. */
  method GetAllRecordsCapped(store: seq<Json>, app: int, query: Option<string>, fields: Option<seq<string>>,
                             batchSize: int, maxRecords: int)
    returns (all: seq<Json>, requests: seq<map<string, Json>>)
    requires maxRecords > 0
    ensures batchSize > 0 ==> all == store
    ensures batchSize > 0 ==> |requests| == |store| / Min(batchSize, maxRecords) + 1
    ensures batchSize <= 0 ==> all == [] && |requests| == 1
  {
    all, requests := GetAllRecords(store, app, query, fields, Min(batchSize, maxRecords), maxRecords);
  }

  // ---------------------------------------------------------------------
  // Other request builders

  /** get_apps' parameters: each filter only when it is non-empty (the space
      IDs under "spaceIds"), the limit capped at the per-request maximum, and
      the offset. */
  function GetAppsParams(name: Option<string>, ids: Option<seq<int>>, codes: Option<seq<string>>,
                         spaceIds: Option<seq<int>>, limit: int, offset: int, maxApps: int)
    : (p: map<string, Json>)
    ensures p.Keys == {"limit", "offset"}
                      + (if Truthy(name) then {"name"} else {})
                      + (if NonEmpty(ids) then {"ids"} else {})
                      + (if NonEmpty(codes) then {"codes"} else {})
                      + (if NonEmpty(spaceIds) then {"spaceIds"} else {})
    ensures p["limit"].JInt? && p["limit"].i <= maxApps && p["limit"].i <= limit
    ensures p["limit"].i == limit || p["limit"].i == maxApps
    ensures p["offset"] == JInt(offset)
    ensures Truthy(name) ==> p["name"] == JStr(name.value)
    ensures NonEmpty(ids) ==> p["ids"] == IntList(ids.value)
    ensures NonEmpty(codes) ==> p["codes"] == StrList(codes.value)
    ensures NonEmpty(spaceIds) ==> p["spaceIds"] == IntList(spaceIds.value)
  {
    var p: map<string, Json> := map[];
    var p := if Truthy(name) then p["name" := JStr(name.value)] else p;
    var p := if NonEmpty(ids) then p["ids" := IntList(ids.value)] else p;
    var p := if NonEmpty(codes) then p["codes" := StrList(codes.value)] else p;
    var p := if NonEmpty(spaceIds) then p["spaceIds" := IntList(spaceIds.value)] else p;
    p["limit" := JInt(Min(limit, maxApps))]["offset" := JInt(offset)]
  }

  /** get_comments' parameters: always all five, the limit capped at the
      per-request maximum. */
  function GetCommentsParams(app: int, record: int, order: string, offset: int, limit: int, maxComments: int)
    : (p: map<string, Json>)
    ensures p.Keys == {"app", "record", "order", "offset", "limit"}
    ensures p["app"] == JInt(app) && p["record"] == JInt(record)
    ensures p["order"] == JStr(order) && p["offset"] == JInt(offset)
    ensures p["limit"].JInt? && p["limit"].i <= maxComments && p["limit"].i <= limit
    ensures p["limit"].i == limit || p["limit"].i == maxComments
  {
    map["app" := JInt(app), "record" := JInt(record), "order" := JStr(order),
        "offset" := JInt(offset), "limit" := JInt(Min(limit, maxComments))]
  }

  /** The body shared by add_records and update_statuses: more entries than
      the batch cap are refused with the given message before any request;
      otherwise the body is the app and the entries. */
  function BatchBody(app: int, records: seq<map<string, Json>>, maxBatch: int, tooMany: string)
    : (r: Result<map<string, Json>>)
    ensures r.Err? <==> |records| > maxBatch
    ensures r.Err? ==> r.error == ValidationError(tooMany)
    ensures r.Ok? ==> r.value.Keys == {"app", "records"}
                      && r.value["app"] == JInt(app) && r.value["records"] == ObjList(records)
  {
    if |records| > maxBatch then Err(ValidationError(tooMany))
    else Ok(map["app" := JInt(app), "records" := ObjList(records)])
  }

  /** add_records: more records than the batch cap are refused before any
      request; otherwise the body is the app and the records. */
  function AddRecordsBody(app: int, records: seq<map<string, Json>>, maxBatch: int)
    : (r: Result<map<string, Json>>)
    ensures r.Err? <==> |records| > maxBatch
    ensures r.Err? ==> r.error == ValidationError("Cannot add more than " + IntToString(maxBatch) + " records at once")
    ensures r.Ok? ==> r.value.Keys == {"app", "records"}
                      && r.value["app"] == JInt(app) && r.value["records"] == ObjList(records)
  {
    BatchBody(app, records, maxBatch, "Cannot add more than " + IntToString(maxBatch) + " records at once")
  }

  /** update_record: a record must be named by its ID or by an update key;
      the body holds the ID, the update key and the expected revision exactly
      when each is given. */
  function UpdateRecordBody(app: int, record: map<string, Json>, id: Option<int>,
                            updateKey: Option<map<string, Json>>, revision: Option<int>)
    : (r: Result<map<string, Json>>)
    ensures r.Err? <==> id.None? && updateKey.None?
    ensures r.Err? ==> r.error == ValidationError("Either id or update_key must be specified")
    ensures r.Ok? ==> r.value.Keys == {"app", "record"}
                      + (if id.Some? then {"id"} else {})
                      + (if updateKey.Some? then {"updateKey"} else {})
                      + (if revision.Some? then {"revision"} else {})
    ensures r.Ok? ==> r.value["app"] == JInt(app) && r.value["record"] == JObj(record)
    ensures r.Ok? && id.Some? ==> r.value["id"] == JInt(id.value)
    ensures r.Ok? && updateKey.Some? ==> r.value["updateKey"] == JObj(updateKey.value)
    ensures r.Ok? && revision.Some? ==> r.value["revision"] == JInt(revision.value)
  {
    if id.None? && updateKey.None? then
      Err(ValidationError("Either id or update_key must be specified"))
    else
      var d := map["app" := JInt(app), "record" := JObj(record)];
      var d := if id.Some? then d["id" := JInt(id.value)] else d;
      var d := if updateKey.Some? then d["updateKey" := JObj(updateKey.value)] else d;
      Ok(if revision.Some? then d["revision" := JInt(revision.value)] else d)
  }

  /** UpdateRecordData: one record of a batch update. */
  datatype UpdateRecordData = UpdateRecordData(
    id: Option<int>,
    updateKey: Option<map<string, Json>>,
    revision: Option<int>,
    record: map<string, Json>)

  /** The dictionary update_records builds for one record: always the
      record, and the ID, update key and revision exactly when each is set. */
  function UpdateEntry(d: UpdateRecordData): (m: map<string, Json>)
    ensures m.Keys == {"record"}
                      + (if d.id.Some? then {"id"} else {})
                      + (if d.updateKey.Some? then {"updateKey"} else {})
                      + (if d.revision.Some? then {"revision"} else {})
    ensures m["record"] == JObj(d.record)
    ensures d.id.Some? ==> m["id"] == JInt(d.id.value)
    ensures d.updateKey.Some? ==> m["updateKey"] == JObj(d.updateKey.value)
    ensures d.revision.Some? ==> m["revision"] == JInt(d.revision.value)
  {
    var m: map<string, Json> := map[];
    var m := if d.id.Some? then m["id" := JInt(d.id.value)] else m;
    var m := if d.updateKey.Some? then m["updateKey" := JObj(d.updateKey.value)] else m;
    var m := if d.revision.Some? then m["revision" := JInt(d.revision.value)] else m;
    m["record" := JObj(d.record)]
  }

  /** update_records: more records than the batch cap are refused before any
      request; otherwise each record becomes its entry, in the same order. */
  method UpdateRecordsBody(app: int, records: seq<UpdateRecordData>, maxBatch: int)
    returns (r: Result<map<string, Json>>)
    ensures r.Err? <==> |records| > maxBatch
    ensures r.Err? ==> r.error == ValidationError("Cannot update more than " + IntToString(maxBatch) + " records at once")
    ensures r.Ok? ==> r.value.Keys == {"app", "records"} && r.value["app"] == JInt(app)
    ensures r.Ok? ==> r.value["records"].JList? && |r.value["records"].items| == |records|
    ensures r.Ok? ==> forall i :: 0 <= i < |records| ==> r.value["records"].items[i] == JObj(UpdateEntry(records[i]))
  {
    if |records| > maxBatch {
      return Err(ValidationError("Cannot update more than " + IntToString(maxBatch) + " records at once"));
    }
    var recordsData: seq<Json> := [];
    for i := 0 to |records|
      invariant |recordsData| == i
      invariant forall j :: 0 <= j < i ==> recordsData[j] == JObj(UpdateEntry(records[j]))
    {
      recordsData := recordsData + [JObj(UpdateEntry(records[i]))];
    }
    return Ok(map["app" := JInt(app), "records" := JList(recordsData)]);
  }

  /** update_status: the app, record and action, and the assignee and
      expected revision exactly when each is given. */
  function UpdateStatusBody(app: int, id: int, action: string, assignee: Option<string>, revision: Option<int>)
    : (m: map<string, Json>)
    ensures m.Keys == {"app", "id", "action"}
                      + (if assignee.Some? then {"assignee"} else {})
                      + (if revision.Some? then {"revision"} else {})
    ensures m["app"] == JInt(app) && m["id"] == JInt(id) && m["action"] == JStr(action)
    ensures assignee.Some? ==> m["assignee"] == JStr(assignee.value)
    ensures revision.Some? ==> m["revision"] == JInt(revision.value)
  {
    var m := map["app" := JInt(app), "id" := JInt(id), "action" := JStr(action)];
    var m := if assignee.Some? then m["assignee" := JStr(assignee.value)] else m;
    if revision.Some? then m["revision" := JInt(revision.value)] else m
  }

  /** update_statuses: more entries than the batch cap are refused before any
      request; otherwise the body is the app and the entries. */
  function UpdateStatusesBody(app: int, records: seq<map<string, Json>>, maxBatch: int)
    : (r: Result<map<string, Json>>)
    ensures r.Err? <==> |records| > maxBatch
    ensures r.Err? ==>
              r.error == ValidationError("Cannot update more than " + IntToString(maxBatch) + " record statuses at once")
    ensures r.Ok? ==> r.value.Keys == {"app", "records"}
                      && r.value["app"] == JInt(app) && r.value["records"] == ObjList(records)
  {
    BatchBody(app, records, maxBatch,
              "Cannot update more than " + IntToString(maxBatch) + " record statuses at once")
  }
}
