/** The statement `Jobs.updateJob` builds: a whitelisted SET list with numbered
    placeholders, followed by `WHERE job_id = $(n+1)`, and what running it does to a row. */
module UpdateQuery {
  import opened Wrappers
  import opened JobModel

  /** One `field = $param` item of the SET list. */
  datatype Assignment = Assignment(field: string, param: nat)

  /** The entries of an update object (in `Object.entries` order) that survive the whitelist. */
  function Allowed(updates: seq<(string, Value)>): (r: seq<(string, Value)>)
    ensures |r| <= |updates|
    ensures forall k :: 0 <= k < |r| ==> IsAllowed(r[k].0) && r[k] in updates
    ensures forall e :: e in updates && IsAllowed(e.0) ==> e in r
  {
    if |updates| == 0 then []
    else
      var last := updates[|updates| - 1];
      Allowed(updates[..|updates| - 1]) + (if IsAllowed(last.0) then [last] else [])
  }

  /** Filtering keeps the order of the entries: the kept entries of `a + b` are those of
      `a` followed by those of `b`. */
  lemma {:induction false} AllowedAppend(a: seq<(string, Value)>, b: seq<(string, Value)>)
    ensures Allowed(a + b) == Allowed(a) + Allowed(b)
    decreases |b|
  {
    if |b| > 0 {
      var init := b[..|b| - 1];
      assert (a + b)[..|a + b| - 1] == a + init;
      assert (a + b)[|a + b| - 1] == b[|b| - 1];
      AllowedAppend(a, init);
    } else {
      assert a + b == a;
    }
  }

  /** The value the update object gives for `field`, if any (the last one, should a key repeat). */
  function Lookup(updates: seq<(string, Value)>, field: string): Option<Value>
  {
    if |updates| == 0 then None
    else if updates[|updates| - 1].0 == field then Some(updates[|updates| - 1].1)
    else Lookup(updates[..|updates| - 1], field)
  }

  function Pick(updates: seq<(string, Value)>, field: string, current: Value): Value
  {
    match Lookup(updates, field)
    case Some(v) => v
    case None => current
  }

  /** Reference meaning of `updateJob(jobId, updates)` on the matching row: each of the five
      whitelisted columns takes the value the update object gives it, every other column
      (`job_id`, `input`, `updated_at`) keeps its value, whatever keys the object carries. */
  function Patched(j: Job, updates: seq<(string, Value)>): Job
  {
    j.(status := Pick(updates, "status", j.status),
       output := Pick(updates, "output", j.output),
       outputCdnUrl := Pick(updates, "output_cdn_url", j.outputCdnUrl),
       mcJobId := Pick(updates, "mc_job_id", j.mcJobId),
       errorMessage := Pick(updates, "error_message", j.errorMessage))
  }

  /** The SET list of a statement applied to one row, left to right, each item reading its
      placeholder's value (`$1` is `values[0]`). */
  function ExecSet(j: Job, assignments: seq<Assignment>, values: seq<Value>): (r: Job)
    requires forall k :: 0 <= k < |assignments| ==>
      IsAllowed(assignments[k].field) && 1 <= assignments[k].param <= |values|
    ensures r.jobId == j.jobId && r.input == j.input && r.updatedAt == j.updatedAt
  {
    if |assignments| == 0 then j
    else
      var last := assignments[|assignments| - 1];
      SetColumn(ExecSet(j, assignments[..|assignments| - 1], values), last.field, values[last.param - 1])
  }

  /** Builds the SET list the way the source does: walk the entries, skip the keys that are
      not whitelisted, and number the kept ones `$1..$n` with a running counter; the k-th
      kept entry becomes `field = $(k+1)` and its value is the k-th value. */
  method BuildSetList(updates: seq<(string, Value)>) returns (assignments: seq<Assignment>, values: seq<Value>)
    ensures |assignments| == |values| == |Allowed(updates)|
    ensures forall k :: 0 <= k < |assignments| ==>
      assignments[k] == Assignment(Allowed(updates)[k].0, k + 1) && values[k] == Allowed(updates)[k].1
  {
    assignments, values := [], [];
    var paramCount := 0;
    for i := 0 to |updates|
      invariant paramCount == |assignments| == |values| == |Allowed(updates[..i])|
      invariant forall k :: 0 <= k < |assignments| ==>
        assignments[k] == Assignment(Allowed(updates[..i])[k].0, k + 1) && values[k] == Allowed(updates[..i])[k].1
    {
      assert updates[..i + 1][..i] == updates[..i];
      assert Allowed(updates[..i + 1]) ==
        Allowed(updates[..i]) + (if IsAllowed(updates[i].0) then [updates[i]] else []);
      var (field, value) := updates[i];
      if field in ALLOWED_FIELDS {
        paramCount := paramCount + 1;
        assignments := assignments + [Assignment(field, paramCount)];
        values := values + [value];
      }
    }
    assert updates[..|updates|] == updates;
  }

  /** Running the SET list the builder produces has exactly the reference meaning: the
      placeholders bind the right values, and nothing outside the whitelist is written. */
  lemma {:induction false} ExecBuiltSetList(j: Job, updates: seq<(string, Value)>, assignments: seq<Assignment>, values: seq<Value>)
    requires |assignments| == |Allowed(updates)| <= |values|
    requires forall k :: 0 <= k < |assignments| ==>
      assignments[k] == Assignment(Allowed(updates)[k].0, k + 1) && values[k] == Allowed(updates)[k].1
    ensures ExecSet(j, assignments, values) == Patched(j, updates)
    decreases |updates|
  {
    if |updates| > 0 {
      var init := updates[..|updates| - 1];
      var last := updates[|updates| - 1];
      var n := |Allowed(init)|;
      assert Allowed(updates)[..n] == Allowed(init);
      ExecBuiltSetList(j, init, assignments[..n], values);
      PatchedLast(j, updates);
      if IsAllowed(last.0) {
        assert assignments[..|assignments| - 1] == assignments[..n];
        assert assignments[n] == Assignment(last.0, n + 1);
        assert values[n] == last.1;
      } else {
        assert assignments == assignments[..n];
      }
    }
  }

  /** The reference patch of a non-empty update object is the patch of all but its last entry,
      followed by writing the last entry's column when that column is whitelisted. */
  lemma PatchedLast(j: Job, updates: seq<(string, Value)>)
    requires |updates| > 0
    ensures var last := updates[|updates| - 1];
      Patched(j, updates) ==
        if IsAllowed(last.0) then SetColumn(Patched(j, updates[..|updates| - 1]), last.0, last.1)
        else Patched(j, updates[..|updates| - 1])
  {
  }
}
