/** The whole job lifecycle through the model, as test/local/tests/example.spec.ts drives it:
    request an upload, see the job waiting, upload (the S3 event), see it queued, receive a
    transcode error, see it failed, receive a completion, see it succeeded. */
module Lifecycle {
  import opened Wrappers
  import opened JobModel
  import opened Listing
  import opened JobStore
  import opened UploadKey
  import opened ApiService
  import S3Event
  import EmcEvent

  /** Two rows of a table with distinct ids and the same id are the same row. */
  lemma RowOfId(rows: seq<Job>, i: nat, x: Job)
    requires DistinctIds(rows) && i < |rows|
    requires x in rows && x.jobId == rows[i].jobId
    ensures x == rows[i]
  {
    var k :| 0 <= k < |rows| && rows[k] == x;
  }

  /** A GET by a valid id shows the view of the one row with that id. */
  lemma ShowsRow(v: Variant, jobs: Jobs, valid: string -> bool, i: nat)
    requires jobs.db.Valid() && jobs.Usable() && i < |jobs.db.rows| && valid(jobs.db.rows[i].jobId)
    ensures GetJobById(v, jobs, valid, jobs.db.rows[i].jobId) == HttpResponse(200, JobBody(View(v, jobs.db.rows[i])))
  {
    var r := GetJobById(v, jobs, valid, jobs.db.rows[i].jobId);
    assert jobs.db.rows[i] in jobs.db.rows;
    var x :| x in jobs.db.rows && x.jobId == jobs.db.rows[i].jobId && r.body == JobBody(View(v, x));
    RowOfId(jobs.db.rows, i, x);
  }

  /** The status a GET by id shows, when it shows a job. */
  function ShownStatus(r: HttpResponse): Option<Value>
  {
    if r.status == 200 && r.body.JobBody? then Some(r.body.view.status) else None
  }

  /** Only row `i` may differ between two tables of the same length. */
  predicate OthersUnchanged(before: seq<Job>, after: seq<Job>, i: nat)
  {
    |after| == |before| && forall k :: 0 <= k < |before| && k != i ==> after[k] == before[k]
  }

  /** `POST /upload-request`, then `GET /jobs/:jobId`: the new row is appended and shown waiting. */
  method UploadStage(jobs: Jobs, env: Env) returns (waiting: HttpResponse)
    requires jobs.db.Valid() && jobs.Usable()
    requires env.valid(env.jobId)
    requires env.presign(GenerateKey(env.jobId, UPLOAD_FILE_NAME, env.timestamp)).Some?
    requires FindRow(jobs.db.rows, env.jobId).None?
    modifies jobs.db`rows
    ensures jobs.db.Valid()
    ensures jobs.db.rows == old(jobs.db.rows) + [NewRow(env.jobId, Str(UPLOAD_FILE_NAME), env.now)]
    ensures ShownStatus(waiting) == Some(Str(WAITING_FOR_UPLOAD))
  {
    var upload := PostUploadRequest(TsService, jobs, env);
    var i := |old(jobs.db.rows)|;
    waiting := GetJobById(TsService, jobs, env.valid, upload.body.jobId);
    ShowsRow(TsService, jobs, env.valid, i);
  }

  /** The upload lands: S3 announces the key, the row goes QUEUED and shows the transcoder id. */
  method QueueStage(jobs: Jobs, env: Env, i: nat, mcJobId: string) returns (queued: HttpResponse, shownMcJobId: string)
    requires jobs.db.Valid() && jobs.Usable()
    requires i < |jobs.db.rows| && jobs.db.rows[i].jobId == env.jobId
    requires env.valid(env.jobId) && '/' !in env.jobId && mcJobId != ""
    modifies jobs.db`rows
    ensures jobs.db.Valid()
    ensures OthersUnchanged(old(jobs.db.rows), jobs.db.rows, i)
    ensures jobs.db.rows[i] == old(jobs.db.rows[i]).(
      status := Str(QUEUED), input := Str(GenerateKey(env.jobId, UPLOAD_FILE_NAME, env.timestamp)),
      mcJobId := Str(mcJobId))
    ensures ShownStatus(queued) == Some(Str(QUEUED)) && shownMcJobId == mcJobId
  {
    var key := GenerateKey(env.jobId, UPLOAD_FILE_NAME, env.timestamp);
    S3Event.UploadKeyRoundTrip(env.jobId, UPLOAD_FILE_NAME, env.timestamp);
    var created := S3Event.Handle(jobs.db, S3Event.Event("aws.s3", "Object Created", key), Ok(mcJobId));
    queued := GetJobById(TsService, jobs, env.valid, env.jobId);
    ShowsRow(TsService, jobs, env.valid, i);
    shownMcJobId := queued.body.view.mcJobId.s;
  }

  /** A MediaConvert notification for the row's transcoder id: the row takes the outcome. */
  method OutcomeStage(jobs: Jobs, env: Env, i: nat, detail: EmcEvent.Detail) returns (seen: HttpResponse)
    requires jobs.db.Valid() && jobs.Usable()
    requires i < |jobs.db.rows| && jobs.db.rows[i].jobId == env.jobId && env.valid(env.jobId)
    requires jobs.db.rows[i].mcJobId == Str(detail.jobId)
    requires forall k :: 0 <= k < |jobs.db.rows| && k != i ==> jobs.db.rows[k].mcJobId != Str(detail.jobId)
    requires detail.status == EmcEvent.COMPLETE || detail.status == EmcEvent.ERROR
    modifies jobs.db`rows
    ensures jobs.db.Valid()
    ensures OthersUnchanged(old(jobs.db.rows), jobs.db.rows, i)
    ensures jobs.db.rows[i].jobId == env.jobId && jobs.db.rows[i].mcJobId == Str(detail.jobId)
    ensures ShownStatus(seen) == Some(Str(if detail.status == EmcEvent.COMPLETE then SUCCEEDED else FAILED))
  {
    var reply := EmcEvent.Handle(jobs.db, detail);
    seen := GetJobById(TsService, jobs, env.valid, env.jobId);
    ShowsRow(TsService, jobs, env.valid, i);
  }

  /** The happy path of the end-to-end test, with the fresh id, the presigner, the clock and
      the transcoder's job id taken from outside. Each GET shows the status the test expects,
      so a FAILED job does become SUCCEEDED, and no other row changes. */
  method HappyPath(jobs: Jobs, env: Env, mcJobId: string) returns (shown: seq<Option<Value>>)
    requires jobs.db.Valid() && jobs.Usable()
    requires env.valid(env.jobId) && '/' !in env.jobId
    requires env.presign(GenerateKey(env.jobId, UPLOAD_FILE_NAME, env.timestamp)).Some?
    requires FindRow(jobs.db.rows, env.jobId).None?
    requires mcJobId != ""
    requires forall x :: x in jobs.db.rows ==> x.mcJobId != Str(mcJobId)
    modifies jobs.db`rows
    ensures jobs.db.Valid()
    ensures shown == [Some(Str(WAITING_FOR_UPLOAD)), Some(Str(QUEUED)), Some(Str(FAILED)), Some(Str(SUCCEEDED))]
    ensures |jobs.db.rows| == |old(jobs.db.rows)| + 1
    ensures forall k :: 0 <= k < |old(jobs.db.rows)| ==> jobs.db.rows[k] == old(jobs.db.rows)[k]
  {
    var before := jobs.db.rows;
    var i := |before|;
    var waiting := UploadStage(jobs, env);
    var afterUpload := jobs.db.rows;
    assert forall k :: 0 <= k < i ==> afterUpload[k] == before[k] && afterUpload[k] in before;

    var queued, shownMcJobId := QueueStage(jobs, env, i, mcJobId);
    var afterQueue := jobs.db.rows;
    assert forall k :: 0 <= k < |afterQueue| && k != i ==> afterQueue[k].mcJobId != Str(mcJobId);

    var failed := OutcomeStage(jobs, env, i, EmcEvent.Detail(shownMcJobId, EmcEvent.ERROR, [], "1040", "Some eroor"));
    var outputs := [EmcEvent.OutputGroup([EmcEvent.OutputDetail(["some_output_path"])])];
    var complete := OutcomeStage(jobs, env, i, EmcEvent.Detail(shownMcJobId, EmcEvent.COMPLETE, outputs, "", ""));

    shown := [ShownStatus(waiting), ShownStatus(queued), ShownStatus(failed), ShownStatus(complete)];
  }
}
