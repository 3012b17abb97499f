/** The HTTP API service: its route table and the decisions of its four handlers, over the
    `Jobs` store. Four versions exist and differ only in a few decisions, so one model takes
    the version as a parameter. */
module ApiService {
  import opened Wrappers
  import opened JsText
  import opened JobModel
  import opened Listing
  import opened JobStore
  import opened UploadKey

  /** service/api-service/src/service.ts, service/api-service/src/service.js,
      service/api-service/src/serveice.js and the early draft app/api-service/src/serveice.js. */
  datatype Variant = TsService | JsService | FlatService | Draft

  datatype HttpMethod = GET | POST | OtherMethod(name: string)

  /** The parts of a request the service reads: method, path and the `limit` query value. */
  datatype Request = Request(verb: HttpMethod, path: string, limit: Option<string>)

  /** A job as the GET handler shows it: every column, or (in the draft) four of them. */
  datatype JobView =
    | FullView(jobId: string, status: Value, input: Value, output: Value, outputCdn: Value,
               mcJobId: Value, errorMessage: Value, updatedAt: int)
    | ReducedView(jobId: string, status: Value, errorMessage: Value, updatedAt: int)

  datatype Body =
    | ErrorBody(error: string, message: string)
    | JobBody(view: JobView)
    | ListBody(list: JobList)
    | UploadBody(jobId: string, uploadUrl: string)
    | HealthBody(health: string)

  datatype HttpResponse = HttpResponse(status: int, body: Body)

  /** What the handlers take from outside: `uuid.validate`, the presigner (`None` when it
      throws), the fresh ids `uuid.v4()` and `uuid.v1()` of this request, `Date.now()` when
      the key is generated, and the insertion time of a new row. */
  datatype Env = Env(
    valid: string -> bool,
    presign: string -> Option<string>,
    jobId: string,
    inputKey: string,
    timestamp: nat,
    now: int)

  const BAD_REQUEST: string := "Bad request"
  const NOT_FOUND: string := "Not found"
  const INTERNAL_ERROR: string := "Internal server error"

  // ---- Routing -------------------------------------------------------------------------

  datatype Route = Health | JobById(jobId: string) | JobListing | UploadRequest | Unmatched

  /** The later JavaScript service and the draft mount the job routes under `/api/v1`. */
  function ApiPrefix(v: Variant): string
  {
    if v == TsService || v == JsService then "" else "/api/v1"
  }

  /** The route table, in registration order; `:jobId` matches one non-empty segment. */
  function RouteOf(v: Variant, verb: HttpMethod, path: string): (r: Route)
    ensures r == Health <==> verb == GET && path == "/health"
    ensures r.JobById? ==>
      verb == GET && path == ApiPrefix(v) + "/jobs/" + r.jobId && r.jobId != "" && '/' !in r.jobId
    ensures r == JobListing <==> verb == GET && path == ApiPrefix(v) + "/jobs"
    ensures r == UploadRequest <==> verb == POST && path == ApiPrefix(v) + "/upload-request"
  {
    var jobsPrefix := ApiPrefix(v) + "/jobs/";
    if verb == GET && path == "/health" then Health
    else if verb == GET && StartsWith(path, jobsPrefix) && |path| > |jobsPrefix| && '/' !in path[|jobsPrefix|..] then
      assert path == jobsPrefix + path[|jobsPrefix|..];
      JobById(path[|jobsPrefix|..])
    else if verb == GET && path == ApiPrefix(v) + "/jobs" then JobListing
    else if verb == POST && path == ApiPrefix(v) + "/upload-request" then UploadRequest
    else Unmatched
  }

  /** Every one-segment id under the jobs path reaches the GET-by-id handler. */
  lemma RouteJobById(v: Variant, jobId: string)
    requires jobId != "" && '/' !in jobId
    ensures RouteOf(v, GET, ApiPrefix(v) + "/jobs/" + jobId) == JobById(jobId)
  {
    var jobsPrefix := ApiPrefix(v) + "/jobs/";
    var path := jobsPrefix + jobId;
    assert path[..|jobsPrefix|] == jobsPrefix;
    assert path[|jobsPrefix|..] == jobId;
    if ApiPrefix(v) == "" {
      assert path[1] == 'j' != "/health"[1];
    } else {
      assert |path| > |"/health"|;
    }
  }

  /** The catch-all: 400 'Invalid path' in the unprefixed services, 404 'Endpoint not found'
      in the prefixed ones. */
  function FallbackResponse(v: Variant): (r: HttpResponse)
    ensures r.status == (if ApiPrefix(v) == "" then 400 else 404)
    ensures r.status == 400 ==> r.body == ErrorBody(BAD_REQUEST, "Invalid path")
    ensures r.status == 404 ==> r.body == ErrorBody(NOT_FOUND, "Endpoint not found")
  {
    if v == TsService || v == JsService then HttpResponse(400, ErrorBody(BAD_REQUEST, "Invalid path"))
    else HttpResponse(404, ErrorBody(NOT_FOUND, "Endpoint not found"))
  }

  // ---- GET job by id -------------------------------------------------------------------

  /** `stored || null` as shown: null exactly when the stored value is falsy, else the value. */
  predicate ShowsTruthy(shown: Value, stored: Value)
  {
    (shown == Null <==> Falsy(stored)) && (shown != Null ==> shown == stored)
  }

  function View(v: Variant, j: Job): (r: JobView)
    ensures r.FullView? <==> v != Draft
    ensures r.jobId == j.jobId && r.status == j.status && r.updatedAt == j.updatedAt
    ensures ShowsTruthy(r.errorMessage, j.errorMessage)
    ensures r.FullView? ==>
      r.input == j.input && ShowsTruthy(r.output, j.output) &&
      ShowsTruthy(r.outputCdn, j.outputCdnUrl) && ShowsTruthy(r.mcJobId, j.mcJobId)
  {
    if v == Draft then ReducedView(j.jobId, j.status, OrNull(j.errorMessage), j.updatedAt)
    else FullView(j.jobId, j.status, j.input, OrNull(j.output), OrNull(j.outputCdnUrl),
                  OrNull(j.mcJobId), OrNull(j.errorMessage), j.updatedAt)
  }

  /** `GET /jobs/:jobId`: a malformed id is refused before the store is read; a store
      failure is 500; no row is 404; otherwise 200 with the view of that id's row. */
  function GetJobById(v: Variant, jobs: Jobs, valid: string -> bool, jobId: string): (r: HttpResponse)
    reads jobs, jobs.db
    ensures r.status == 400 <==> !valid(jobId)
    ensures r.status == 500 <==> valid(jobId) && !jobs.Usable()
    ensures r.status == 404 <==>
      valid(jobId) && jobs.Usable() && forall x :: x in jobs.db.rows ==> x.jobId != jobId
    ensures r.status == 200 ==>
      exists x :: x in jobs.db.rows && x.jobId == jobId && r.body == JobBody(View(v, x))
    ensures r.status in {200, 400, 404, 500}
  {
    if !valid(jobId) then HttpResponse(400, ErrorBody(BAD_REQUEST, "Invalid job ID format"))
    else
      match jobs.GetById(jobId)
      case Err(_) => HttpResponse(500, ErrorBody(INTERNAL_ERROR, "Failed to retrieve job"))
      case Ok(None) => HttpResponse(404, ErrorBody(NOT_FOUND, "Job not found"))
      case Ok(Some(j)) => HttpResponse(200, JobBody(View(v, j)))
  }

  // ---- GET job list --------------------------------------------------------------------

  /** `parseInt(req.query.limit) || 50`: a missing, non-numeric or zero limit becomes 50. */
  function EffectiveLimit(query: Option<string>): (limit: int)
    ensures limit != 0
    ensures query.None? ==> limit == 50
    ensures query.Some? && ParseInt(query.value).None? ==> limit == 50
    ensures query.Some? && ParseInt(query.value).Some? ==>
      limit == if ParseInt(query.value).value == 0 then 50 else ParseInt(query.value).value
  {
    match query
    case None => 50
    case Some(text) =>
      match ParseInt(text)
      case None => 50
      case Some(n) => if n == 0 then 50 else n
  }

  /** A limit written as a decimal number is that number, except that "0" means 50. */
  lemma EffectiveLimitOfDecimal(n: nat)
    ensures EffectiveLimit(Some(Decimal(n))) == if n == 0 then 50 else n
    ensures EffectiveLimit(None) == 50
  {
    ParseDecimal(n);
  }

  /** A limit that does not start with a digit after its optional sign is `NaN`, which
      means 50. */
  lemma NonNumericLimit(text: string)
    requires |text| > 0 && !IsDigit(text[0]) && text[0] != '-' && text[0] != '+'
    ensures EffectiveLimit(Some(text)) == 50
  {
    assert LeadingDigits(text) == [] by {
      assert !IsDigit(text[0]);
    }
  }

  /** `GET /jobs`: a limit outside 1..1000 is 400; otherwise the first page of at most
      `limit` jobs in listing order, over every status, with its pagination: page 1, and
      more to come exactly when the table holds more than `limit` jobs. */
  method GetJobStatuses(jobs: Jobs, limitQuery: Option<string>) returns (r: HttpResponse)
    ensures var limit := EffectiveLimit(limitQuery);
      limit < 1 || limit > 1000 ==>
        r == HttpResponse(400, ErrorBody(BAD_REQUEST, "Limit must be between 1 and 1000"))
    ensures var limit := EffectiveLimit(limitQuery);
      1 <= limit <= 1000 && !jobs.Usable() ==>
        r == HttpResponse(500, ErrorBody(INTERNAL_ERROR, "Failed to retrieve jobs list"))
    ensures var limit := EffectiveLimit(limitQuery);
      1 <= limit <= 1000 && jobs.Usable() ==>
        r == HttpResponse(200, ListBody(JobList(Page(jobs.db.rows, None, limit, 0),
                                                Paginate(|jobs.db.rows|, limit, 0))))
    ensures var limit := EffectiveLimit(limitQuery);
      1 <= limit <= 1000 && jobs.Usable() ==>
        |r.body.list.jobs| <= limit &&
        r.body.list.pagination.currentPage == 1 &&
        (r.body.list.pagination.hasMore <==> limit < |jobs.db.rows|)
  {
    var limit := EffectiveLimit(limitQuery);
    if limit < 1 || limit > 1000 {
      return HttpResponse(400, ErrorBody(BAD_REQUEST, "Limit must be between 1 and 1000"));
    }
    var listed := jobs.GetStatuses(ListOptions(Some(limit), None, None));
    match listed
    case Err(_) =>
      r := HttpResponse(500, ErrorBody(INTERNAL_ERROR, "Failed to retrieve jobs list"));
    case Ok(list) =>
      MatchingEverything(jobs.db.rows);
      FirstPage(jobs.db.rows, limit);
      r := HttpResponse(200, ListBody(list));
  }

  /** The first page of an unfiltered listing holds at most `limit` rows, is page 1, and has
      more after it exactly when the table holds more than `limit` rows. */
  lemma FirstPage(rows: seq<Job>, limit: int)
    requires limit >= 1
    ensures |Page(rows, None, limit, 0)| <= limit
    ensures Paginate(|rows|, limit, 0).currentPage == 1
    ensures Paginate(|rows|, limit, 0).hasMore <==> limit < |rows|
  {
    assert 0 / limit == 0;
  }

  /** Without a status filter every row is listed and counted. */
  lemma {:induction false} MatchingEverything(rows: seq<Job>)
    ensures Matching(rows, None) == rows
  {
    if |rows| > 0 {
      MatchingEverything(rows[1..]);
      assert [rows[0]] + rows[1..] == rows;
    }
  }

  // ---- POST upload request -------------------------------------------------------------

  /** The file name every upload is registered under until the body is parsed. */
  const UPLOAD_FILE_NAME: string := "foobar"
  /** The draft's stand-in for a presigned URL. */
  const PLACEHOLDER_URL: string := "XXXX"

  function SuccessStatus(v: Variant): int
  {
    if v == TsService || v == JsService then 201 else 200
  }

  /** The `input` column of the registered row: the file name (service.ts), nothing
      (`register(jobId)` in the JavaScript services), or a fresh v1 uuid (the draft). */
  function UploadInput(v: Variant, inputKey: string): Value
  {
    match v
    case TsService => Str(UPLOAD_FILE_NAME)
    case JsService => Null
    case FlatService => Null
    case Draft => Str(inputKey)
  }

  /** The URL the client receives: the presigned URL of the upload key, or the draft's
      placeholder; `None` when presigning throws. */
  function UploadUrl(v: Variant, env: Env): Option<string>
  {
    if v == Draft then Some(PLACEHOLDER_URL)
    else env.presign(GenerateKey(env.jobId, UPLOAD_FILE_NAME, env.timestamp))
  }

  /** `POST /upload-request`. The services presign first, so a failed presign registers
      nothing; the draft registers first and hands out a placeholder. Success registers
      exactly one new WAITING_FOR_UPLOAD row for the fresh id; any failure is 500 with the
      table as it was. */
  method PostUploadRequest(v: Variant, jobs: Jobs, env: Env) returns (r: HttpResponse)
    requires jobs.db.Valid()
    modifies jobs.db`rows
    ensures jobs.db.Valid()
    ensures var ok := UploadUrl(v, env).Some? && old(jobs.Usable()) && FindRow(old(jobs.db.rows), env.jobId).None?;
      (ok ==>
         r == HttpResponse(SuccessStatus(v), UploadBody(env.jobId, UploadUrl(v, env).value)) &&
         jobs.db.rows == old(jobs.db.rows) + [NewRow(env.jobId, UploadInput(v, env.inputKey), env.now)]) &&
      (!ok ==>
         r == HttpResponse(500, ErrorBody(INTERNAL_ERROR, "Failed to create upload request")) &&
         jobs.db.rows == old(jobs.db.rows))
  {
    var failed := HttpResponse(500, ErrorBody(INTERNAL_ERROR, "Failed to create upload request"));
    var uploadUrl := PLACEHOLDER_URL;
    if v != Draft {
      var presigned := env.presign(GenerateKey(env.jobId, UPLOAD_FILE_NAME, env.timestamp));
      if presigned.None? {
        return failed;
      }
      uploadUrl := presigned.value;
    }
    var registered := jobs.Register(env.jobId, UploadInput(v, env.inputKey), env.now);
    if registered.Err? {
      return failed;
    }
    r := HttpResponse(SuccessStatus(v), UploadBody(env.jobId, uploadUrl));
  }

  // ---- The service ---------------------------------------------------------------------

  /** One request through the route table. Only the upload route writes to the table. */
  method Serve(v: Variant, jobs: Jobs, env: Env, req: Request) returns (r: HttpResponse)
    requires jobs.db.Valid()
    modifies jobs.db`rows
    ensures jobs.db.Valid()
    ensures RouteOf(v, req.verb, req.path) != UploadRequest ==> jobs.db.rows == old(jobs.db.rows)
    ensures RouteOf(v, req.verb, req.path) == Health ==> r == HttpResponse(200, HealthBody("healthy"))
    ensures RouteOf(v, req.verb, req.path) == Unmatched ==> r == FallbackResponse(v)
    ensures RouteOf(v, req.verb, req.path).JobById? ==>
      r == GetJobById(v, jobs, env.valid, RouteOf(v, req.verb, req.path).jobId)
  {
    match RouteOf(v, req.verb, req.path)
    case Health =>
      r := HttpResponse(200, HealthBody("healthy"));
    case JobById(jobId) =>
      r := GetJobById(v, jobs, env.valid, jobId);
    case JobListing =>
      r := GetJobStatuses(jobs, req.limit);
    case UploadRequest =>
      r := PostUploadRequest(v, jobs, env);
    case Unmatched =>
      r := FallbackResponse(v);
  }
}
