/** The older transcode event lambda (service/lambda-ems-event/index.js): it splices its
    values into the UPDATE text between single quotes instead of binding parameters. */
module EmsEvent {
  import opened Wrappers
  import opened JobModel
  import opened JobStore
  import opened LambdaResponse
  import Listing

  // ---- SQL string literals -------------------------------------------------------------

  /** The body of a SQL string literal after its opening quote: characters up to a quote
      that is not doubled, `''` standing for one quote. Yields the value and the text after
      the closing quote, or `None` when the literal is never closed. */
  function ReadBody(s: string): Option<(string, string)>
    decreases |s|
  {
    if |s| == 0 then None
    else if s[0] == '\'' then
      if |s| >= 2 && s[1] == '\'' then
        match ReadBody(s[2..])
        case Some((v, rest)) => Some(("'" + v, rest))
        case None => None
      else Some(("", s[1..]))
    else
      match ReadBody(s[1..])
      case Some((v, rest)) => Some(([s[0]] + v, rest))
      case None => None
  }

  /** How the server reads a piece of text that should be exactly one string literal:
      the literal's value, or `None` (a syntax error) when something is left after it. */
  function ReadWhole(text: string): Option<string>
  {
    if |text| == 0 || text[0] != '\'' then None
    else
      match ReadBody(text[1..])
      case Some((v, rest)) => if rest == "" then Some(v) else None
      case None => None
  }

  /** `'${v}'`: the value between quotes as the lambda writes it, quotes inside left alone. */
  function QuoteAsWritten(v: string): string
  {
    "'" + v + "'"
  }

  /** The value with each quote doubled. */
  function Doubled(v: string): string
  {
    if |v| == 0 then ""
    else (if v[0] == '\'' then "''" else [v[0]]) + Doubled(v[1..])
  }

  /** A well-formed literal: between quotes, with each inner quote doubled. */
  function Quote(v: string): string
  {
    "'" + Doubled(v) + "'"
  }

  lemma {:induction false} ReadDoubled(v: string, rest: string)
    requires rest == "" || rest[0] != '\''
    ensures ReadBody(Doubled(v) + "'" + rest) == Some((v, rest))
    decreases |v|
  {
    var s := Doubled(v) + "'" + rest;
    if |v| == 0 {
      assert s == "'" + rest;
      assert s[1..] == rest;
    } else if v[0] == '\'' {
      assert s == "''" + (Doubled(v[1..]) + "'" + rest);
      assert s[2..] == Doubled(v[1..]) + "'" + rest;
      ReadDoubled(v[1..], rest);
      assert "'" + v[1..] == v;
    } else {
      assert s == [v[0]] + (Doubled(v[1..]) + "'" + rest);
      assert s[1..] == Doubled(v[1..]) + "'" + rest;
      ReadDoubled(v[1..], rest);
      assert [v[0]] + v[1..] == v;
    }
  }

  /** Every value survives quoting: the server reads back exactly the value. */
  lemma QuoteRoundTrip(v: string)
    ensures ReadWhole(Quote(v)) == Some(v)
  {
    ReadDoubled(v, "");
    assert Quote(v)[1..] == Doubled(v) + "'" + "";
  }

  lemma {:induction false} DoubledWithoutQuote(v: string)
    requires '\'' !in v
    ensures Doubled(v) == v
    decreases |v|
  {
    if |v| > 0 {
      assert '\'' !in v[1..];
      DoubledWithoutQuote(v[1..]);
      assert [v[0]] + v[1..] == v;
    }
  }

  /** Written as the lambda writes it, a value without a quote is still read back intact. */
  lemma QuoteAsWrittenWithoutQuote(v: string)
    requires '\'' !in v
    ensures QuoteAsWritten(v) == Quote(v)
    ensures ReadWhole(QuoteAsWritten(v)) == Some(v)
  {
    DoubledWithoutQuote(v);
    QuoteRoundTrip(v);
  }

  lemma QuoteAsWrittenAgrees(v: string)
    ensures '\'' !in v ==> QuoteAsWritten(v) == Quote(v)
  {
    if '\'' !in v {
      DoubledWithoutQuote(v);
    }
  }

  /** Doubling only ever lengthens, and strictly so once there is a quote to double. */
  lemma {:induction false} DoubledLonger(v: string)
    ensures |Doubled(v)| >= |v|
    ensures '\'' in v ==> |Doubled(v)| > |v|
    decreases |v|
  {
    if |v| > 0 {
      DoubledLonger(v[1..]);
      assert v == [v[0]] + v[1..];
    }
  }

  /** The lambda's literal and the well-formed one agree exactly for values without a quote. */
  lemma QuoteAgreesOnlyWithoutQuote(v: string)
    ensures QuoteAsWritten(v) == Quote(v) <==> '\'' !in v
  {
    QuoteAsWrittenAgrees(v);
    DoubledLonger(v);
    if '\'' in v {
      assert |QuoteAsWritten(v)| < |Quote(v)|;
    }
  }

  /** Written as the lambda writes it, a value with a quote is not: for `a'b` the literal
      closes after `a` and `b'` is left over, so the statement is a syntax error. */
  lemma QuoteAsWrittenBreaks()
    ensures ReadBody(QuoteAsWritten("a'b")[1..]) == Some(("a", "b'"))
    ensures ReadWhole(QuoteAsWritten("a'b")) == None
  {
    var t := QuoteAsWritten("a'b");
    assert t == ['\'', 'a', '\'', 'b', '\''];
    assert t[1..] == ['a', '\'', 'b', '\''];
    assert t[1..][1..] == ['\'', 'b', '\''];
    assert t[1..][1..][1..] == ['b', '\''];
    assert ReadBody(t[1..][1..]) == Some(("", ['b', '\'']));
    assert ['a'] + "" == "a";
  }

  // ---- The UPDATE statement ------------------------------------------------------------

  /** The four literals spliced into `UPDATE jobs SET status = …, output = …,
      error_message = … WHERE mc_job_id = …`; the text around them is fixed. */
  datatype Statement = Statement(statusText: string, outputText: string, errorText: string, mcJobIdText: string)

  /** The statement as the lambda builds it. */
  function StatementAsWritten(status: string, output: string, errorMessage: string, mcJobId: string): (r: Statement)
    ensures '\'' !in status ==> r.statusText == Quote(status)
    ensures '\'' !in output ==> r.outputText == Quote(output)
    ensures '\'' !in errorMessage ==> r.errorText == Quote(errorMessage)
    ensures '\'' !in mcJobId ==> r.mcJobIdText == Quote(mcJobId)
  {
    QuoteAsWrittenAgrees(status);
    QuoteAsWrittenAgrees(output);
    QuoteAsWrittenAgrees(errorMessage);
    QuoteAsWrittenAgrees(mcJobId);
    Statement(QuoteAsWritten(status), QuoteAsWritten(output), QuoteAsWritten(errorMessage), QuoteAsWritten(mcJobId))
  }

  /** The statement with well-formed literals. */
  function BuildStatement(status: string, output: string, errorMessage: string, mcJobId: string): (r: Statement)
    ensures r == StatementAsWritten(status, output, errorMessage, mcJobId) <==>
      '\'' !in status && '\'' !in output && '\'' !in errorMessage && '\'' !in mcJobId
  {
    QuoteAgreesOnlyWithoutQuote(status);
    QuoteAgreesOnlyWithoutQuote(output);
    QuoteAgreesOnlyWithoutQuote(errorMessage);
    QuoteAgreesOnlyWithoutQuote(mcJobId);
    Statement(Quote(status), Quote(output), Quote(errorMessage), Quote(mcJobId))
  }

  /** What the server does with the statement: a syntax error (`None`) unless every piece is
      one literal; otherwise the values read are written to every row with that `mc_job_id`. */
  function RunStatement(rows: seq<Job>, st: Statement): (r: Option<seq<Job>>)
    ensures r.Some? <==>
      (ReadWhole(st.statusText).Some? && ReadWhole(st.outputText).Some? &&
       ReadWhole(st.errorText).Some? && ReadWhole(st.mcJobIdText).Some?)
    ensures r.Some? ==> |r.value| == |rows|
  {
    match (ReadWhole(st.statusText), ReadWhole(st.outputText), ReadWhole(st.errorText), ReadWhole(st.mcJobIdText))
    case (Some(status), Some(output), Some(errorMessage), Some(mcJobId)) =>
      Some(OutcomeRows(rows, mcJobId, status, Str(output), errorMessage))
    case _ => None
  }

  /** The well-formed statement always runs, and writes exactly the values it was built from. */
  lemma RunBuiltStatement(rows: seq<Job>, status: string, output: string, errorMessage: string, mcJobId: string)
    ensures RunStatement(rows, BuildStatement(status, output, errorMessage, mcJobId)) ==
      Some(OutcomeRows(rows, mcJobId, status, Str(output), errorMessage))
  {
    QuoteRoundTrip(status);
    QuoteRoundTrip(output);
    QuoteRoundTrip(errorMessage);
    QuoteRoundTrip(mcJobId);
  }

  /** As written, a COMPLETE notification for a transcoder job id holding a quote fails
      instead of marking the job's rows SUCCEEDED. */
  lemma StatementAsWrittenFails(rows: seq<Job>)
    ensures RunStatement(rows, StatementAsWritten(SUCCEEDED, "", "", "a'b")) == None
  {
    QuoteAsWrittenBreaks();
  }

  // ---- The handler ---------------------------------------------------------------------

  /** `event.detail`: the transcoder job id and its status. */
  datatype Detail = Detail(jobId: string, status: string)

  const COMPLETE: string := "COMPLETE"
  const ERROR: string := "ERROR"
  const EVENT_ECHO: string := "EMS event: " + EVENT_TEXT

  /** The status `dbUpdateJob` writes for a COMPLETE or ERROR notification. */
  function OutcomeStatus(status: string): string
  {
    if status == COMPLETE then SUCCEEDED else FAILED
  }

  lemma OutcomeStatusQuoteFree(status: string)
    ensures '\'' !in OutcomeStatus(status)
  {
    var s := OutcomeStatus(status);
    assert forall i :: 0 <= i < |s| ==> s[i] != '\'';
  }

  /** Running the statement never makes two rows share a `job_id`. */
  lemma RunStatementKeepsIds(rows: seq<Job>, st: Statement)
    requires Listing.DistinctIds(rows)
    ensures RunStatement(rows, st).Some? ==> Listing.DistinctIds(RunStatement(rows, st).value)
  {
    match (ReadWhole(st.statusText), ReadWhole(st.outputText), ReadWhole(st.errorText), ReadWhole(st.mcJobIdText))
    case (Some(status), Some(output), Some(errorMessage), Some(mcJobId)) =>
      OutcomeRowsKeepIds(rows, mcJobId, status, Str(output), errorMessage);
    case _ =>
  }

  /** `dbUpdateJob(jobId, status, '', '')` as the lambda writes it: the statement with the
      values spliced in unescaped. When the server cannot read it, `client.query` throws and
      nothing changes; a transcoder id without a quote is written as given. */
  method RunOutcomeAsWritten(db: Database, mcJobId: string, status: string) returns (ran: bool)
    requires db.Valid()
    modifies db`rows
    ensures db.Valid()
    ensures var result := RunStatement(old(db.rows), StatementAsWritten(status, "", "", mcJobId));
      (ran <==> result.Some?) && (ran ==> db.rows == result.value) && (!ran ==> db.rows == old(db.rows))
    ensures '\'' !in mcJobId && '\'' !in status ==>
      ran && db.rows == OutcomeRows(old(db.rows), mcJobId, status, Str(""), "")
  {
    var st := StatementAsWritten(status, "", "", mcJobId);
    if '\'' !in mcJobId && '\'' !in status {
      QuoteAsWrittenWithoutQuote(status);
      QuoteAsWrittenWithoutQuote("");
      QuoteAsWrittenWithoutQuote(mcJobId);
    }
    RunStatementKeepsIds(db.rows, st);
    match RunStatement(db.rows, st)
    case Some(updated) =>
      db.rows := updated;
      ran := true;
    case None =>
      ran := false;
  }

  /** The handler as written. COMPLETE writes SUCCEEDED and ERROR writes FAILED, both with
      empty output and error message, through the unescaped statement: when the server reads
      it, to the rows it names, and otherwise the query throws and the answer is 500 with
      nothing written. The `defualt:` label after the last `break` is unreachable, so any
      other status falls out of the switch and answers 200, writing nothing. */
  method Handle(db: Database, e: Detail) returns (resp: Response)
    requires db.Valid()
    modifies db`rows
    ensures db.Valid()
    ensures (e.status == COMPLETE || e.status == ERROR) && db.online ==>
      var result := RunStatement(old(db.rows), StatementAsWritten(OutcomeStatus(e.status), "", "", e.jobId));
      (result.Some? ==> db.rows == result.value && resp == Response(200, EVENT_ECHO, None)) &&
      (result.None? ==> db.rows == old(db.rows) && resp == Failure(DriverError))
    ensures e.status == COMPLETE && db.online && '\'' !in e.jobId ==>
      db.rows == OutcomeRows(old(db.rows), e.jobId, SUCCEEDED, Str(""), "") &&
      resp == Response(200, EVENT_ECHO, None)
    ensures e.status == ERROR && db.online && '\'' !in e.jobId ==>
      db.rows == OutcomeRows(old(db.rows), e.jobId, FAILED, Str(""), "") &&
      resp == Response(200, EVENT_ECHO, None)
    ensures (e.status == COMPLETE || e.status == ERROR) && !db.online ==>
      resp == Failure(DriverError) && db.rows == old(db.rows)
    ensures e.status != COMPLETE && e.status != ERROR ==>
      resp == Response(200, EVENT_ECHO, None) && db.rows == old(db.rows)
  {
    if e.status == COMPLETE || e.status == ERROR {
      if !db.online {
        return Failure(DriverError);
      }
      OutcomeStatusQuoteFree(e.status);
      var ran := RunOutcomeAsWritten(db, e.jobId, OutcomeStatus(e.status));
      if !ran {
        return Failure(DriverError);
      }
    }
    resp := Response(200, EVENT_ECHO, None);
  }

  /** As written, a COMPLETE notification for the transcoder id `a'b` answers 500 and
      leaves every row as it was. */
  method QuotedIdAnswers500(db: Database) returns (resp: Response)
    requires db.Valid() && db.online
    modifies db`rows
    ensures resp == Failure(DriverError) && db.rows == old(db.rows)
  {
    StatementAsWrittenFails(db.rows);
    resp := Handle(db, Detail("a'b", COMPLETE));
  }

  /** The handler with well-formed literals: COMPLETE writes SUCCEEDED and ERROR writes
      FAILED to every row with that transcoder id, whatever characters the id holds. */
  method HandleCorrected(db: Database, e: Detail) returns (resp: Response)
    requires db.Valid()
    modifies db`rows
    ensures db.Valid()
    ensures e.status == COMPLETE && db.online ==>
      db.rows == OutcomeRows(old(db.rows), e.jobId, SUCCEEDED, Str(""), "") &&
      resp == Response(200, EVENT_ECHO, None)
    ensures e.status == ERROR && db.online ==>
      db.rows == OutcomeRows(old(db.rows), e.jobId, FAILED, Str(""), "") &&
      resp == Response(200, EVENT_ECHO, None)
    ensures (e.status == COMPLETE || e.status == ERROR) && !db.online ==>
      resp == Failure(DriverError) && db.rows == old(db.rows)
    ensures e.status != COMPLETE && e.status != ERROR ==>
      resp == Response(200, EVENT_ECHO, None) && db.rows == old(db.rows)
  {
    if e.status == COMPLETE || e.status == ERROR {
      if !db.online {
        return Failure(DriverError);
      }
      RunOutcome(db, e.jobId, OutcomeStatus(e.status));
    }
    resp := Response(200, EVENT_ECHO, None);
  }

  /** `dbUpdateJob(jobId, status, '', '')` with well-formed literals: every row with that
      transcoder job id takes the status, an empty output and an empty error message. */
  method RunOutcome(db: Database, mcJobId: string, status: string)
    requires db.Valid()
    modifies db`rows
    ensures db.Valid()
    ensures db.rows == OutcomeRows(old(db.rows), mcJobId, status, Str(""), "")
  {
    var st := BuildStatement(status, "", "", mcJobId);
    RunBuiltStatement(db.rows, status, "", "", mcJobId);
    OutcomeRowsKeepIds(db.rows, mcJobId, status, Str(""), "");
    db.rows := RunStatement(db.rows, st).value;
  }
}
