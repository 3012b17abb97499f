/** The MediaConvert event lambda (service/lambda-emc-event/index.js): a COMPLETE or ERROR
    notification overwrites the outcome columns of the rows carrying that transcoder job id. */
module EmcEvent {
  import opened Wrappers
  import opened JsText
  import opened JobModel
  import opened JobStore
  import opened LambdaResponse

  datatype OutputDetail = OutputDetail(outputFilePaths: seq<string>)
  datatype OutputGroup = OutputGroup(outputDetails: seq<OutputDetail>)

  /** `event.detail`. `errorCode` and `errorMessage` are held as the text a template
      literal prints for them. */
  datatype Detail = Detail(
    jobId: string,
    status: string,
    outputGroupDetails: seq<OutputGroup>,
    errorCode: string,
    errorMessage: string)

  const COMPLETE: string := "COMPLETE"
  const ERROR: string := "ERROR"

  /** Every output detail of every group, groups in order and details in order within each. */
  function AllDetails(groups: seq<OutputGroup>): seq<OutputDetail>
  {
    if |groups| == 0 then []
    else AllDetails(groups[..|groups| - 1]) + groups[|groups| - 1].outputDetails
  }

  /** One string per output detail: its `outputFilePaths` joined with ','. */
  function DetailOutputs(details: seq<OutputDetail>): (r: seq<string>)
    ensures |r| == |details|
  {
    seq(|details|, k requires 0 <= k < |details| => Join(details[k].outputFilePaths, ','))
  }

  /** The `output` array of a COMPLETE notification. */
  function Outputs(groups: seq<OutputGroup>): (r: seq<string>)
    ensures |r| == |AllDetails(groups)|
  {
    DetailOutputs(AllDetails(groups))
  }

  lemma {:induction false} AllDetailsAppend(a: seq<OutputGroup>, b: seq<OutputGroup>)
    ensures AllDetails(a + b) == AllDetails(a) + AllDetails(b)
    decreases |b|
  {
    if |b| == 0 {
      assert a + b == a;
    } else {
      var b' := b[..|b| - 1];
      assert (a + b)[..|a + b| - 1] == a + b';
      AllDetailsAppend(a, b');
    }
  }

  /** Collecting the outputs of two batches of groups is collecting each and concatenating. */
  lemma OutputsAppend(a: seq<OutputGroup>, b: seq<OutputGroup>)
    ensures Outputs(a + b) == Outputs(a) + Outputs(b)
  {
    AllDetailsAppend(a, b);
    DetailOutputsAppend(AllDetails(a), AllDetails(b));
  }

  lemma DetailOutputsAppend(a: seq<OutputDetail>, b: seq<OutputDetail>)
    ensures DetailOutputs(a + b) == DetailOutputs(a) + DetailOutputs(b)
  {
  }

  /** Each output string gives back its detail's path list when split on ',', provided the
      list is not empty and no path holds a comma. */
  lemma OutputPathsRecoverable(groups: seq<OutputGroup>, k: nat)
    requires k < |AllDetails(groups)|
    requires |AllDetails(groups)[k].outputFilePaths| >= 1
    requires forall i :: 0 <= i < |AllDetails(groups)[k].outputFilePaths| ==>
      ',' !in AllDetails(groups)[k].outputFilePaths[i]
    ensures k < |Outputs(groups)|
    ensures Split(Outputs(groups)[k], ',') == AllDetails(groups)[k].outputFilePaths
  {
    SplitJoin(AllDetails(groups)[k].outputFilePaths, ',');
  }

  /** The two nested `forEach` loops that push `el.outputFilePaths.toString()` into `output`. */
  method CollectOutputs(groups: seq<OutputGroup>) returns (output: seq<string>)
    ensures output == Outputs(groups)
  {
    output := [];
    for i := 0 to |groups|
      invariant output == Outputs(groups[..i])
    {
      var details := groups[i].outputDetails;
      ghost var before := output;
      for j := 0 to |details|
        invariant output == before + DetailOutputs(details[..j])
      {
        assert DetailOutputs(details[..j + 1]) == DetailOutputs(details[..j]) + [Join(details[j].outputFilePaths, ',')];
        output := output + [Join(details[j].outputFilePaths, ',')];
      }
      assert details[..|details|] == details;
      assert groups[..i + 1][..i] == groups[..i];
      assert AllDetails(groups[..i + 1]) == AllDetails(groups[..i]) + details;
      DetailOutputsAppend(AllDetails(groups[..i]), details);
    }
    assert groups[..|groups|] == groups;
  }

  /** `${errorCode}: ${errorMessage}` */
  function ErrorText(errorCode: string, errorMessage: string): (r: string)
    ensures |r| == |errorCode| + 2 + |errorMessage|
    ensures r[..|errorCode|] == errorCode && r[|errorCode|..|errorCode| + 2] == ": "
    ensures r[|errorCode| + 2..] == errorMessage
  {
    errorCode + ": " + errorMessage
  }

  const UNEXPECTED_STATUS: string := "Unexpected event status: " + EVENT_TEXT
  const EVENT_ECHO: string := "EMS event: " + EVENT_TEXT

  /** The handler. COMPLETE writes SUCCEEDED, the collected outputs and an empty error
      message; ERROR writes FAILED, an empty output and `code: message`; both overwrite every
      row with that transcoder job id whatever its status, and answer 200 even when no row
      matches. Any other status answers 401 and writes nothing. */
  method Handle(db: Database, e: Detail) returns (resp: Response)
    requires db.Valid()
    modifies db`rows
    ensures db.Valid()
    ensures e.status == COMPLETE && db.online ==>
      db.rows == OutcomeRows(old(db.rows), e.jobId, SUCCEEDED, Strs(Outputs(e.outputGroupDetails)), "") &&
      resp == Response(200, EVENT_ECHO, None)
    ensures e.status == ERROR && db.online ==>
      db.rows == OutcomeRows(old(db.rows), e.jobId, FAILED, Str(""), ErrorText(e.errorCode, e.errorMessage)) &&
      resp == Response(200, EVENT_ECHO, None)
    ensures (e.status == COMPLETE || e.status == ERROR) && !db.online ==>
      resp == Failure(DriverError) && db.rows == old(db.rows)
    ensures e.status != COMPLETE && e.status != ERROR ==>
      resp == Response(401, UNEXPECTED_STATUS, None) && db.rows == old(db.rows)
  {
    var status, output, errorMessage;
    if e.status == COMPLETE {
      var paths := CollectOutputs(e.outputGroupDetails);
      status, output, errorMessage := SUCCEEDED, Strs(paths), "";
    } else if e.status == ERROR {
      status, output, errorMessage := FAILED, Str(""), ErrorText(e.errorCode, e.errorMessage);
    } else {
      return Response(401, UNEXPECTED_STATUS, None);
    }
    if !db.online {
      return Failure(DriverError);
    }
    OutcomeRowsKeepIds(db.rows, e.jobId, status, output, errorMessage);
    db.rows := OutcomeRows(db.rows, e.jobId, status, output, errorMessage);
    resp := Response(200, EVENT_ECHO, None);
  }
}
