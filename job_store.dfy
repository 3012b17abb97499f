/** The `jobs` table and the `Jobs` data-access class the API service uses over it
    (service/api-service/src/db.ts, its JavaScript copy db.js and utils/db.js: the three
    copies run the same statements; only `close` differs). */
module JobStore {
  import opened Wrappers
  import opened JobModel
  import opened UpdateQuery
  import opened Listing

  /** The database server's `jobs` table. `online` says whether a connection can be opened
      and statements run; when it is false every statement fails. */
  class Database {
    var rows: seq<Job>
    var online: bool

    /** `job_id` is the primary key. */
    ghost predicate Valid()
      reads this
    {
      DistinctIds(rows)
    }

    constructor (online: bool)
      ensures Valid() && rows == [] && this.online == online
    {
      rows := [];
      this.online := online;
    }
  }

  /** `SELECT * FROM jobs WHERE job_id = $1`, first row or `null`. */
  function FindRow(rows: seq<Job>, jobId: string): (r: Option<Job>)
    ensures r.Some? ==> r.value in rows && r.value.jobId == jobId
    ensures r.None? ==> forall x :: x in rows ==> x.jobId != jobId
  {
    if |rows| == 0 then None
    else if rows[0].jobId == jobId then Some(rows[0])
    else FindRow(rows[1..], jobId)
  }

  /** The rows after the reference patch of `updateJob(jobId, updates)`. */
  function PatchRows(rows: seq<Job>, jobId: string, updates: seq<(string, Value)>): (r: seq<Job>)
    ensures |r| == |rows|
    ensures forall i :: 0 <= i < |rows| ==>
      r[i] == if rows[i].jobId == jobId then Patched(rows[i], updates) else rows[i]
  {
    seq(|rows|, i requires 0 <= i < |rows| =>
      if rows[i].jobId == jobId then Patched(rows[i], updates) else rows[i])
  }

  /** What the database does with `UPDATE jobs SET <assignments> WHERE job_id = $<whereParam>`. */
  function RunUpdate(rows: seq<Job>, assignments: seq<Assignment>, whereParam: nat, values: seq<Value>): (r: seq<Job>)
    requires forall k :: 0 <= k < |assignments| ==>
      IsAllowed(assignments[k].field) && 1 <= assignments[k].param <= |values|
    requires 1 <= whereParam <= |values|
    ensures |r| == |rows|
    ensures forall i :: 0 <= i < |rows| ==> r[i].jobId == rows[i].jobId && r[i].input == rows[i].input
    ensures forall i :: 0 <= i < |rows| && Str(rows[i].jobId) != values[whereParam - 1] ==> r[i] == rows[i]
  {
    seq(|rows|, i requires 0 <= i < |rows| =>
      if Str(rows[i].jobId) == values[whereParam - 1] then ExecSet(rows[i], assignments, values) else rows[i])
  }

  /** The S3 handler's `UPDATE jobs SET status = 'QUEUED', input = $1, mc_job_id = $2
      WHERE job_id = $3`: only the row with that id changes, and only those three columns. */
  function QueueRows(rows: seq<Job>, jobId: string, key: string, mcJobId: string): (r: seq<Job>)
    ensures |r| == |rows|
    ensures forall i :: 0 <= i < |rows| && rows[i].jobId == jobId ==>
      r[i] == rows[i].(status := Str(QUEUED), input := Str(key), mcJobId := Str(mcJobId))
    ensures forall i :: 0 <= i < |rows| && rows[i].jobId != jobId ==> r[i] == rows[i]
  {
    seq(|rows|, i requires 0 <= i < |rows| =>
      if rows[i].jobId == jobId
      then rows[i].(status := Str(QUEUED), input := Str(key), mcJobId := Str(mcJobId))
      else rows[i])
  }

  /** The transcode handlers' `UPDATE jobs SET status, output, error_message WHERE mc_job_id = ...`:
      every row carrying that transcoder job id is overwritten in those three columns, whatever
      its current status; no other row or column changes. */
  function OutcomeRows(rows: seq<Job>, mcJobId: string, status: string, output: Value, errorMessage: string): (r: seq<Job>)
    ensures |r| == |rows|
    ensures forall i :: 0 <= i < |rows| && rows[i].mcJobId == Str(mcJobId) ==>
      r[i] == rows[i].(status := Str(status), output := output, errorMessage := Str(errorMessage))
    ensures forall i :: 0 <= i < |rows| && rows[i].mcJobId != Str(mcJobId) ==> r[i] == rows[i]
  {
    seq(|rows|, i requires 0 <= i < |rows| =>
      if rows[i].mcJobId == Str(mcJobId)
      then rows[i].(status := Str(status), output := output, errorMessage := Str(errorMessage))
      else rows[i])
  }

  /** Re-delivering a transcode notification leaves the table as one delivery did. */
  lemma OutcomeRowsIdempotent(rows: seq<Job>, mcJobId: string, status: string, output: Value, errorMessage: string)
    ensures var once := OutcomeRows(rows, mcJobId, status, output, errorMessage);
      OutcomeRows(once, mcJobId, status, output, errorMessage) == once
  {
    var once := OutcomeRows(rows, mcJobId, status, output, errorMessage);
    var twice := OutcomeRows(once, mcJobId, status, output, errorMessage);
    assert forall i :: 0 <= i < |rows| ==> once[i].mcJobId == rows[i].mcJobId;
    assert forall i :: 0 <= i < |rows| ==> twice[i] == once[i];
  }

  /** Nothing guards the current status: a later notification replaces an earlier outcome,
      so a FAILED job that then receives COMPLETE ends up SUCCEEDED. */
  lemma OutcomeOverridesTerminal(rows: seq<Job>, i: nat, mcJobId: string, output: Value)
    requires i < |rows| && rows[i].mcJobId == Str(mcJobId)
    ensures var failed := OutcomeRows(rows, mcJobId, FAILED, Str(""), "1040: decode error");
      failed[i].status == Str(FAILED) &&
      OutcomeRows(failed, mcJobId, SUCCEEDED, output, "")[i].status == Str(SUCCEEDED)
  {
    var failed := OutcomeRows(rows, mcJobId, FAILED, Str(""), "1040: decode error");
    assert failed[i].mcJobId == Str(mcJobId);
  }

  lemma QueueRowsKeepIds(rows: seq<Job>, jobId: string, key: string, mcJobId: string)
    requires DistinctIds(rows)
    ensures DistinctIds(QueueRows(rows, jobId, key, mcJobId))
  {
    var r := QueueRows(rows, jobId, key, mcJobId);
    assert forall i :: 0 <= i < |rows| ==> r[i].jobId == rows[i].jobId;
  }

  lemma OutcomeRowsKeepIds(rows: seq<Job>, mcJobId: string, status: string, output: Value, errorMessage: string)
    requires DistinctIds(rows)
    ensures DistinctIds(OutcomeRows(rows, mcJobId, status, output, errorMessage))
  {
    var r := OutcomeRows(rows, mcJobId, status, output, errorMessage);
    assert forall i :: 0 <= i < |rows| ==> r[i].jobId == rows[i].jobId;
  }

  /** The connection pool of a `Jobs` object: none before `connect`, open after it, ended after `close`. */
  datatype PoolState = NoPool | Open | Ended

  datatype StoreError =
    | NoValidFields                 // 'No valid fields to update'
    | QueryFailed(context: string)  // a failed statement, rethrown under the operation's message
    | NullPool                      // `this.pool.end()` on a pool that was never created
    | PoolAlreadyEnded              // the driver refuses to end a pool twice

  const REGISTER_FAILED: string := "Failed to register job"
  const GET_FAILED: string := "Failed to get job"
  const LIST_FAILED: string := "Failed to get jobs list"
  const UPDATE_FAILED: string := "Failed to update job"

  /** The options of `getStatuses`; a missing limit is 50 and a missing offset 0. */
  datatype ListOptions = ListOptions(limit: Option<int>, offset: Option<int>, status: Option<string>)

  function LimitOf(opts: ListOptions): int
  {
    match opts.limit
    case Some(l) => l
    case None => 50
  }

  function OffsetOf(opts: ListOptions): int
  {
    match opts.offset
    case Some(o) => o
    case None => 0
  }

  datatype JobList = JobList(jobs: seq<Summary>, pagination: Pagination)

  class Jobs {
    const db: Database
    var pool: PoolState

    constructor (db: Database)
      ensures this.db == db && pool == NoPool
    {
      this.db := db;
      pool := NoPool;
    }

    /** Statements can run: the pool exists and is not ended, and the server is reachable. */
    predicate Usable()
      reads this, db
    {
      pool == Open && db.online
    }

    method Connect()
      modifies this`pool
      ensures pool == Open
    {
      pool := Open;
    }

    /** db.ts: ends the pool only when there is one, so closing before `connect` is harmless. */
    method Close() returns (r: Result<(), StoreError>)
      modifies this`pool
      ensures old(pool) == NoPool ==> r == Ok(()) && pool == NoPool
      ensures old(pool) == Open ==> r == Ok(()) && pool == Ended
      ensures old(pool) == Ended ==> r == Err(PoolAlreadyEnded) && pool == Ended
    {
      match pool
      case NoPool => r := Ok(());
      case Open => pool := Ended; r := Ok(());
      case Ended => r := Err(PoolAlreadyEnded);
    }

    /** db.js and utils/db.js: call `end` on the pool unconditionally, so closing before
        `connect` fails on the null pool. */
    method CloseUnguarded() returns (r: Result<(), StoreError>)
      modifies this`pool
      ensures old(pool) == NoPool ==> r == Err(NullPool) && pool == NoPool
      ensures old(pool) == Open ==> r == Ok(()) && pool == Ended
      ensures old(pool) == Ended ==> r == Err(PoolAlreadyEnded) && pool == Ended
    {
      match pool
      case NoPool => r := Err(NullPool);
      case Open => pool := Ended; r := Ok(());
      case Ended => r := Err(PoolAlreadyEnded);
    }

    /** `INSERT INTO jobs (job_id, input) VALUES ($1, $2)`: exactly one new row, in its initial
        state; a taken id or an unusable connection fails and inserts nothing. The statement has
        no RETURNING clause, so what comes back is `undefined`, not the record. */
    method Register(jobId: string, input: Value, now: int) returns (r: Result<Option<Job>, StoreError>)
      requires db.Valid()
      modifies db`rows
      ensures db.Valid()
      ensures old(Usable()) && FindRow(old(db.rows), jobId).None? ==>
        r == Ok(None) && db.rows == old(db.rows) + [NewRow(jobId, input, now)]
      ensures !(old(Usable()) && FindRow(old(db.rows), jobId).None?) ==>
        r == Err(QueryFailed(REGISTER_FAILED)) && db.rows == old(db.rows)
    {
      if !Usable() || FindRow(db.rows, jobId).Some? {
        return Err(QueryFailed(REGISTER_FAILED));
      }
      db.rows := db.rows + [NewRow(jobId, input, now)];
      r := Ok(None);
    }

    /** `SELECT * FROM jobs WHERE job_id = $1`: the row with that id, or `null` when there is none. */
    function GetById(jobId: string): (r: Result<Option<Job>, StoreError>)
      reads this, db
      ensures r.Ok? <==> Usable()
      ensures r.Err? ==> r.error == QueryFailed(GET_FAILED)
      ensures r.Ok? && r.value.Some? ==> r.value.value in db.rows && r.value.value.jobId == jobId
      ensures r.Ok? && r.value.None? ==> forall x :: x in db.rows ==> x.jobId != jobId
    {
      if Usable() then Ok(FindRow(db.rows, jobId)) else Err(QueryFailed(GET_FAILED))
    }

    /** The listing: the window of rows matching the optional status filter in
        `updated_at DESC, job_id DESC` order, the count under the same filter, and the
        pagination numbers, with limit and offset defaulting to 50 and 0 and echoed back. */
    method GetStatuses(opts: ListOptions) returns (r: Result<JobList, StoreError>)
      requires opts.limit.None? || opts.limit.value >= 1
      ensures r.Ok? <==> Usable() && OffsetOf(opts) >= 0
      ensures r.Err? ==> r.error == QueryFailed(LIST_FAILED)
      ensures r.Ok? ==>
        var filter := StatusFilter(opts.status);
        r.value == JobList(Page(db.rows, filter, LimitOf(opts), OffsetOf(opts)),
                           Paginate(|Matching(db.rows, filter)|, LimitOf(opts), OffsetOf(opts)))
    {
      var limit := LimitOf(opts);
      var offset := OffsetOf(opts);
      var q := BuildListStatement(opts.status, limit, offset);
      if !Usable() || offset < 0 {
        return Err(QueryFailed(LIST_FAILED));
      }
      RunBuiltStatement(db.rows, opts.status, limit, offset, q);
      match RunList(db.rows, q)
      case Some((jobs, total)) =>
        r := Ok(JobList(jobs, Paginate(total, limit, offset)));
      case None =>
        assert false;
    }

    /** `updateJob(jobId, updates)`: with no whitelisted key it fails before touching the
        table; otherwise the row with that id gets the reference patch (only the five
        whitelisted columns can change) and is returned, or `null` when no row has that id. */
    method UpdateJob(jobId: string, updates: seq<(string, Value)>) returns (r: Result<Option<Job>, StoreError>)
      requires db.Valid()
      modifies db`rows
      ensures db.Valid()
      ensures |Allowed(updates)| == 0 ==> r == Err(NoValidFields) && db.rows == old(db.rows)
      ensures |Allowed(updates)| > 0 && !old(Usable()) ==>
        r == Err(QueryFailed(UPDATE_FAILED)) && db.rows == old(db.rows)
      ensures |Allowed(updates)| > 0 && old(Usable()) ==>
        db.rows == PatchRows(old(db.rows), jobId, updates) && r == Ok(FindRow(db.rows, jobId))
    {
      var assignments, values := BuildSetList(updates);
      if |assignments| == 0 {
        return Err(NoValidFields);
      }
      var whereParam := |values| + 1;
      values := values + [Str(jobId)];
      if !Usable() {
        return Err(QueryFailed(UPDATE_FAILED));
      }
      var before := db.rows;
      db.rows := RunUpdate(db.rows, assignments, whereParam, values);
      forall i | 0 <= i < |before| && before[i].jobId == jobId
        ensures ExecSet(before[i], assignments, values) == Patched(before[i], updates)
      {
        ExecBuiltSetList(before[i], updates, assignments, values);
      }
      assert db.rows == PatchRows(before, jobId, updates);
      r := Ok(FindRow(db.rows, jobId));
    }
  }
}
