/** The S3 event lambda (service/lambda-s3-event/index.js): when an object lands under
    `input/`, it submits a transcode job and marks the upload's row QUEUED. */
module S3Event {
  import opened Wrappers
  import opened JsText
  import opened JobModel
  import opened Listing
  import opened JobStore
  import opened UploadKey
  import opened LambdaResponse

  /** The fields of the EventBridge event the handler reads: `source`, `detail-type` and
      `detail.object.key`. */
  datatype Event = Event(source: string, detailType: string, key: string)

  const UNEXPECTED_EVENT_TYPE: string := "Unexpected event type"

  /** The events the handler acts on: S3 object creations under `input/`. */
  predicate Accepts(e: Event): (r: bool)
    ensures r ==> |Split(e.key, '/')| >= 2
  {
    if StartsWith(e.key, "input/") then
      InputKeySegments(e.key);
      e.source == "aws.s3" && e.detailType == "Object Created"
    else false
  }

  /** A key under `input/` has a second '/'-segment. */
  lemma InputKeySegments(key: string)
    requires StartsWith(key, "input/")
    ensures |Split(key, '/')| >= 2 && Split(key, '/')[0] == "input"
  {
    assert key == "input" + ['/'] + key[6..];
    SplitAtFirst("input", '/', key[6..]);
  }

  /** `key.split('/')[1]`: the job id the update targets. */
  function JobIdOfKey(key: string): (id: string)
    requires StartsWith(key, "input/")
    ensures '/' !in id && StartsWith(key, "input/" + id)
    ensures |key| == 6 + |id| || key[6 + |id|] == '/'
  {
    assert key == "input" + ['/'] + key[6..];
    SplitAtFirst("input", '/', key[6..]);
    SplitHead(key[6..], '/');
    var id := Split(key, '/')[1];
    assert id == Split(key[6..], '/')[0];
    assert key[..6 + |id|] == "input/" + key[6..][..|id|];
    id
  }

  /** The key the API service hands out for an upload leads the lambda back to that upload's
      job: it passes the prefix filter and its second segment is the job id. */
  lemma UploadKeyRoundTrip(uuid: string, fileName: string, timestamp: nat)
    requires '/' !in uuid
    ensures StartsWith(GenerateKey(uuid, fileName, timestamp), "input/")
    ensures JobIdOfKey(GenerateKey(uuid, fileName, timestamp)) == uuid
  {
    KeyHasInputPrefix(uuid, fileName, timestamp);
    KeySegments(uuid, fileName, timestamp);
  }

  /** An id no row carries leaves the table as it was. */
  lemma QueueRowsUnmatched(rows: seq<Job>, jobId: string, key: string, mcJobId: string)
    requires FindRow(rows, jobId).None?
    ensures QueueRows(rows, jobId, key, mcJobId) == rows
  {
    assert forall i :: 0 <= i < |rows| ==> rows[i] in rows;
  }

  /** The handler. `submission` is what `mcCreateJob` yields: the created job's `Id`, or the
      message of the error it threw. Submission comes first, so a failed one leaves the table
      alone. The QUEUED overwrite has no guard on the row's current status, and an id that no
      row carries still answers 200. */
  method Handle(db: Database, e: Event, submission: Result<string, string>) returns (resp: Response)
    requires db.Valid()
    modifies db`rows
    ensures db.Valid()
    ensures !Accepts(e) ==>
      resp == Response(400, UNEXPECTED_EVENT_TYPE, None) && db.rows == old(db.rows)
    ensures Accepts(e) && submission.Err? ==>
      resp == Failure(Thrown(submission.error)) && db.rows == old(db.rows)
    ensures Accepts(e) && submission.Ok? && !db.online ==>
      resp == Failure(DriverError) && db.rows == old(db.rows)
    ensures Accepts(e) && submission.Ok? && db.online ==>
      db.rows == QueueRows(old(db.rows), JobIdOfKey(e.key), e.key, submission.value) &&
      resp == Response(200, "Job queued: " + submission.value + ", " + e.key, None)
  {
    if !Accepts(e) {
      return Response(400, UNEXPECTED_EVENT_TYPE, None);
    }
    match submission
    case Err(message) =>
      resp := Failure(Thrown(message));
    case Ok(mcJobId) =>
      if !db.online {
        return Failure(DriverError);
      }
      var jobId := JobIdOfKey(e.key);
      QueueRowsKeepIds(db.rows, jobId, e.key, mcJobId);
      db.rows := QueueRows(db.rows, jobId, e.key, mcJobId);
      resp := Response(200, "Job queued: " + mcJobId + ", " + e.key, None);
  }
}
