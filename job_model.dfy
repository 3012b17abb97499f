/** One row of the `jobs` table and the values its columns hold. */
module JobModel {

  /** A column value or a query parameter as the pg driver passes it:
      SQL NULL (also JavaScript `undefined`), a string, a JavaScript array of
      strings, or an integer. */
  datatype Value = Null | Str(s: string) | Strs(items: seq<string>) | Int(i: int)

  /** JavaScript truthiness of a value read back from a row: `null`, `''` and `0` are falsy. */
  predicate Falsy(v: Value)
  {
    v == Null || v == Str("") || v == Int(0)
  }

  /** `v || null` */
  function OrNull(v: Value): Value
  {
    if Falsy(v) then Null else v
  }

  /** A row of `jobs`: the primary key, the six data columns and `updated_at`
      (a timestamp, kept as an integer). */
  datatype Job = Job(
    jobId: string,
    status: Value,
    input: Value,
    output: Value,
    outputCdnUrl: Value,
    mcJobId: Value,
    errorMessage: Value,
    updatedAt: int)

  /** The status values the lifecycle writes. */
  const WAITING_FOR_UPLOAD: string := "WAITING_FOR_UPLOAD"
  const QUEUED: string := "QUEUED"
  const SUCCEEDED: string := "SUCCEEDED"
  const FAILED: string := "FAILED"

  /** The row an `INSERT INTO jobs (job_id, input)` creates: the status column's
      default is `WAITING_FOR_UPLOAD`, every other data column starts NULL, and
      `updated_at` is the insertion time. */
  function NewRow(jobId: string, input: Value, now: int): Job
  {
    Job(jobId, Str(WAITING_FOR_UPLOAD), input, Null, Null, Null, Null, now)
  }

  /** The columns `updateJob` lets a caller set, in the order the source lists them. */
  const ALLOWED_FIELDS: seq<string> := ["status", "output", "output_cdn_url", "mc_job_id", "error_message"]

  predicate IsAllowed(field: string)
  {
    field in ALLOWED_FIELDS
  }

  /** The value of a whitelisted column, by its SQL name. */
  function Column(j: Job, field: string): Value
    requires IsAllowed(field)
  {
    match field
    case "status" => j.status
    case "output" => j.output
    case "output_cdn_url" => j.outputCdnUrl
    case "mc_job_id" => j.mcJobId
    case _ => j.errorMessage
  }

  /** `SET <field> = v` on one row. */
  function SetColumn(j: Job, field: string, v: Value): (r: Job)
    requires IsAllowed(field)
    ensures Column(r, field) == v
    ensures forall f :: IsAllowed(f) && f != field ==> Column(r, f) == Column(j, f)
    ensures r.jobId == j.jobId && r.input == j.input && r.updatedAt == j.updatedAt
  {
    match field
    case "status" => j.(status := v)
    case "output" => j.(output := v)
    case "output_cdn_url" => j.(outputCdnUrl := v)
    case "mc_job_id" => j.(mcJobId := v)
    case _ => j.(errorMessage := v)
  }
}
