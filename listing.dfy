/** What `Jobs.getStatuses` asks the database for and what it computes from the answer:
    the filtered, ordered window of rows, the count, and the pagination numbers. */
module Listing {
  import opened Wrappers
  import opened JobModel

  /** The three columns the listing selects. */
  datatype Summary = Summary(jobId: string, status: Value, updatedAt: int)

  function Summarize(j: Job): Summary
  {
    Summary(j.jobId, j.status, j.updatedAt)
  }

  /** Lexicographic order on strings by character code. */
  predicate StrLess(a: string, b: string)
  {
    if |b| == 0 then false
    else if |a| == 0 then true
    else a[0] < b[0] || (a[0] == b[0] && StrLess(a[1..], b[1..]))
  }

  /** `ORDER BY updated_at DESC, job_id DESC`: the row keyed `(u1, id1)` is listed before `(u2, id2)`. */
  predicate ListedBefore(u1: int, id1: string, u2: int, id2: string)
  {
    u1 > u2 || (u1 == u2 && StrLess(id2, id1))
  }

  predicate Before(a: Job, b: Job)
  {
    ListedBefore(a.updatedAt, a.jobId, b.updatedAt, b.jobId)
  }

  lemma {:induction false} StrLessIrreflexive(a: string)
    ensures !StrLess(a, a)
  {
    if |a| > 0 {
      StrLessIrreflexive(a[1..]);
    }
  }

  lemma {:induction false} StrLessTransitive(a: string, b: string, c: string)
    requires StrLess(a, b) && StrLess(b, c)
    ensures StrLess(a, c)
  {
    if |a| > 0 && a[0] == b[0] && b[0] == c[0] {
      StrLessTransitive(a[1..], b[1..], c[1..]);
    }
  }

  lemma {:induction false} StrLessTotal(a: string, b: string)
    requires a != b
    ensures StrLess(a, b) || StrLess(b, a)
  {
    if |a| > 0 && |b| > 0 && a[0] == b[0] {
      assert a == [a[0]] + a[1..] && b == [b[0]] + b[1..];
      StrLessTotal(a[1..], b[1..]);
    }
  }

  lemma StrLessAsymmetric(a: string, b: string)
    requires StrLess(a, b)
    ensures !StrLess(b, a)
  {
    if StrLess(b, a) {
      StrLessTransitive(a, b, a);
      StrLessIrreflexive(a);
    }
  }

  predicate Ordered(s: seq<Job>)
  {
    forall i, j :: 0 <= i < j < |s| ==> Before(s[i], s[j])
  }

  /** No two rows share a `job_id` (it is the table's primary key). */
  predicate DistinctIds(s: seq<Job>)
  {
    forall i, j :: 0 <= i < j < |s| ==> s[i].jobId != s[j].jobId
  }

  function Insert(x: Job, s: seq<Job>): (r: seq<Job>)
    ensures multiset(r) == multiset(s) + multiset{x}
  {
    if |s| == 0 then [x]
    else
      assert s == [s[0]] + s[1..];
      if Before(s[0], x) then [s[0]] + Insert(x, s[1..]) else [x] + s
  }

  /** The rows in `ORDER BY updated_at DESC, job_id DESC` order. */
  function SortRows(s: seq<Job>): (r: seq<Job>)
    ensures multiset(r) == multiset(s)
  {
    if |s| == 0 then []
    else
      assert s == [s[0]] + s[1..];
      Insert(s[0], SortRows(s[1..]))
  }

  lemma {:induction false} InsertOrdered(x: Job, s: seq<Job>)
    requires Ordered(s)
    requires forall y :: y in s ==> y.jobId != x.jobId
    ensures Ordered(Insert(x, s))
  {
    if |s| > 0 {
      if Before(s[0], x) {
        var t := Insert(x, s[1..]);
        InsertOrdered(x, s[1..]);
        InsertHeadFirst(x, s);
        assert Insert(x, s) == [s[0]] + t;
      } else {
        StrLessTotal(s[0].jobId, x.jobId);
        assert Before(x, s[0]);
        var r := [x] + s;
        forall i, j | 0 <= i < j < |r| ensures Before(r[i], r[j]) {
          if i == 0 && j > 1 {
            BeforeTransitive(x, s[0], s[j - 1]);
          }
        }
      }
    }
  }

  /** Inserting after the head of an ordered list: the head still comes before every row
      of the rest, the inserted one included. */
  lemma InsertHeadFirst(x: Job, s: seq<Job>)
    requires Ordered(s) && |s| > 0 && Before(s[0], x)
    ensures forall j :: 0 <= j < |Insert(x, s[1..])| ==> Before(s[0], Insert(x, s[1..])[j])
  {
    var t := Insert(x, s[1..]);
    forall j | 0 <= j < |t| ensures Before(s[0], t[j]) {
      var y := t[j];
      assert y in multiset(t);
      if y != x {
        assert y in multiset(s[1..]);
        var k :| 0 <= k < |s[1..]| && s[1..][k] == y;
        assert s[k + 1] == y;
      }
    }
  }

  lemma BeforeTransitive(a: Job, b: Job, c: Job)
    requires Before(a, b) && Before(b, c)
    ensures Before(a, c)
  {
    if a.updatedAt == b.updatedAt == c.updatedAt {
      StrLessTransitive(c.jobId, b.jobId, a.jobId);
    }
  }

  /** Sorting rows with distinct keys puts them strictly in listing order. */
  lemma {:induction false} SortRowsOrdered(s: seq<Job>)
    requires DistinctIds(s)
    ensures Ordered(SortRows(s))
  {
    if |s| > 0 {
      var t := s[1..];
      assert DistinctIds(t);
      SortRowsOrdered(t);
      forall y | y in SortRows(t) ensures y.jobId != s[0].jobId {
        assert y in multiset(t);
        var k :| 0 <= k < |t| && t[k] == y;
        assert s[k + 1] == y;
      }
      InsertOrdered(s[0], SortRows(t));
    }
  }

  /** `if (status)`: an absent or empty status means no filter. */
  function StatusFilter(status: Option<string>): Option<string>
  {
    if status == Some("") then None else status
  }

  /** `WHERE status = $1`, or every row when there is no filter. */
  predicate Matches(j: Job, filter: Option<string>)
  {
    filter.None? || j.status == Str(filter.value)
  }

  /** The rows a filter selects, in table order. */
  function Matching(rows: seq<Job>, filter: Option<string>): (r: seq<Job>)
    ensures forall x :: x in r <==> x in rows && Matches(x, filter)
    ensures |r| <= |rows|
  {
    if |rows| == 0 then []
    else (if Matches(rows[0], filter) then [rows[0]] else []) + Matching(rows[1..], filter)
  }

  /** `LIMIT limit OFFSET offset` over an ordered sequence: the rows from position `offset`
      on, at most `limit` of them, none past the end. */
  function Window(all: seq<Job>, limit: nat, offset: nat): (w: seq<Job>)
    ensures |w| == if offset >= |all| then 0 else if offset + limit <= |all| then limit else |all| - offset
    ensures forall i :: 0 <= i < |w| ==> w[i] == all[offset + i]
  {
    if offset >= |all| then []
    else if offset + limit <= |all| then all[offset..offset + limit]
    else all[offset..]
  }

  function Summaries(s: seq<Job>): (r: seq<Summary>)
    ensures |r| == |s| && forall i :: 0 <= i < |s| ==> r[i] == Summarize(s[i])
  {
    seq(|s|, i requires 0 <= i < |s| => Summarize(s[i]))
  }

  /** `ORDER BY updated_at DESC, job_id DESC LIMIT limit OFFSET offset` over the matching rows,
      projected on the three selected columns. */
  function Page(rows: seq<Job>, filter: Option<string>, limit: nat, offset: nat): (r: seq<Summary>)
    ensures |r| <= limit && |r| <= |rows|
  {
    assert |SortRows(Matching(rows, filter))| == |Matching(rows, filter)| by {
      assert |multiset(SortRows(Matching(rows, filter)))| == |multiset(Matching(rows, filter))|;
    }
    Summaries(Window(SortRows(Matching(rows, filter)), limit, offset))
  }

  /** `s` is the summary of some row of the table that matches the filter. */
  predicate SummaryOfMatch(rows: seq<Job>, filter: Option<string>, s: Summary)
  {
    exists x :: x in rows && Matches(x, filter) && s == Summarize(x)
  }

  /** A listed page holds `min(limit, total - offset)` rows (none past the end), every one
      a row of the table that matches the filter, strictly in listing order. */
  lemma PageContents(rows: seq<Job>, filter: Option<string>, limit: nat, offset: nat)
    requires DistinctIds(rows)
    ensures var total := |Matching(rows, filter)|;
      |Page(rows, filter, limit, offset)| == if offset >= total then 0
        else if offset + limit <= total then limit else total - offset
    ensures forall i :: 0 <= i < |Page(rows, filter, limit, offset)| ==>
      SummaryOfMatch(rows, filter, Page(rows, filter, limit, offset)[i])
    ensures forall i, j :: 0 <= i < j < |Page(rows, filter, limit, offset)| ==>
      var p := Page(rows, filter, limit, offset);
      ListedBefore(p[i].updatedAt, p[i].jobId, p[j].updatedAt, p[j].jobId)
  {
    PageLength(rows, filter, limit, offset);
    PageRows(rows, filter, limit, offset);
    PageOrdered(rows, filter, limit, offset);
  }

  lemma PageLength(rows: seq<Job>, filter: Option<string>, limit: nat, offset: nat)
    ensures var total := |Matching(rows, filter)|;
      |Page(rows, filter, limit, offset)| == if offset >= total then 0
        else if offset + limit <= total then limit else total - offset
  {
    var m := Matching(rows, filter);
    var all := SortRows(m);
    assert |all| == |m| by {
      assert |multiset(all)| == |multiset(m)|;
    }
    assert Page(rows, filter, limit, offset) == Summaries(Window(all, limit, offset));
  }

  lemma PageRows(rows: seq<Job>, filter: Option<string>, limit: nat, offset: nat)
    ensures forall i :: 0 <= i < |Page(rows, filter, limit, offset)| ==>
      SummaryOfMatch(rows, filter, Page(rows, filter, limit, offset)[i])
  {
    var all := SortRows(Matching(rows, filter));
    var w := Window(all, limit, offset);
    WindowRows(rows, filter, all, w, limit, offset);
    SummariesOfRows(rows, filter, w);
  }

  lemma SummariesOfRows(rows: seq<Job>, filter: Option<string>, w: seq<Job>)
    requires forall i :: 0 <= i < |w| ==> w[i] in rows && Matches(w[i], filter)
    ensures forall i :: 0 <= i < |Summaries(w)| ==>
      SummaryOfMatch(rows, filter, Summaries(w)[i])
  {
    forall i | 0 <= i < |Summaries(w)|
      ensures SummaryOfMatch(rows, filter, Summaries(w)[i])
    {
      assert w[i] in rows && Matches(w[i], filter) && Summaries(w)[i] == Summarize(w[i]);
    }
  }

  lemma PageOrdered(rows: seq<Job>, filter: Option<string>, limit: nat, offset: nat)
    requires DistinctIds(rows)
    ensures forall i, j :: 0 <= i < j < |Page(rows, filter, limit, offset)| ==>
      var p := Page(rows, filter, limit, offset);
      ListedBefore(p[i].updatedAt, p[i].jobId, p[j].updatedAt, p[j].jobId)
  {
    var m := Matching(rows, filter);
    var all := SortRows(m);
    var w := Window(all, limit, offset);
    var p := Page(rows, filter, limit, offset);
    assert p == Summaries(w);
    MatchingDistinct(rows, filter);
    SortRowsOrdered(m);
    WindowOrdered(all, limit, offset);
    forall i, j | 0 <= i < j < |p|
      ensures ListedBefore(p[i].updatedAt, p[i].jobId, p[j].updatedAt, p[j].jobId)
    {
      assert Before(w[i], w[j]);
    }
  }

  lemma WindowRows(rows: seq<Job>, filter: Option<string>, all: seq<Job>, w: seq<Job>, limit: nat, offset: nat)
    requires all == SortRows(Matching(rows, filter)) && w == Window(all, limit, offset)
    ensures forall i :: 0 <= i < |w| ==> w[i] in rows && Matches(w[i], filter)
  {
    forall i | 0 <= i < |w| ensures w[i] in rows && Matches(w[i], filter) {
      assert w[i] in multiset(Matching(rows, filter));
    }
  }

  lemma WindowOrdered(all: seq<Job>, limit: nat, offset: nat)
    requires Ordered(all)
    ensures Ordered(Window(all, limit, offset))
  {
  }

  lemma {:induction false} MatchingDistinct(rows: seq<Job>, filter: Option<string>)
    requires DistinctIds(rows)
    ensures DistinctIds(Matching(rows, filter))
  {
    if |rows| > 0 {
      MatchingDistinct(rows[1..], filter);
      var r := Matching(rows, filter);
      var t := Matching(rows[1..], filter);
      if Matches(rows[0], filter) {
        forall i, j | 0 <= i < j < |r| ensures r[i].jobId != r[j].jobId {
          if i == 0 {
            assert r[j] in t;
            var k :| 1 <= k < |rows| && rows[k] == r[j];
          }
        }
      } else {
        assert r == t;
      }
    }
  }

  /** The pagination block of the answer. */
  datatype Pagination = Pagination(total: int, limit: int, offset: int, hasMore: bool, totalPages: int, currentPage: int)

  /** `hasMore = offset + limit < total`, `totalPages = Math.ceil(total / limit)`,
      `currentPage = Math.floor(offset / limit) + 1`, with `limit` and `offset` echoed. */
  function Paginate(total: nat, limit: int, offset: int): (p: Pagination)
    requires limit >= 1
    ensures p.total == total && p.limit == limit && p.offset == offset
    ensures p.hasMore <==> offset + limit < total
    ensures p.totalPages >= 0 && (p.totalPages - 1) * limit < total <= p.totalPages * limit
    ensures (p.currentPage - 1) * limit <= offset < p.currentPage * limit
    ensures offset >= 0 ==> p.currentPage >= 1
  {
    var totalPages := (total + limit - 1) / limit;
    var currentPage := offset / limit + 1;
    PagesCeil(total, limit);
    Pagination(total, limit, offset, offset + limit < total, totalPages, currentPage)
  }

  lemma PagesCeil(total: nat, limit: int)
    requires limit >= 1
    ensures ((total + limit - 1) / limit - 1) * limit < total <= ((total + limit - 1) / limit) * limit
  {
    var q := (total + limit - 1) / limit;
    var r := (total + limit - 1) % limit;
    assert total + limit - 1 == q * limit + r;
    assert (q - 1) * limit == q * limit - limit;
  }

  lemma MulLe(a: int, b: int, c: int)
    requires a <= b && c >= 0
    ensures a * c <= b * c
  {
    assert b * c - a * c == (b - a) * c;
  }

  /** Paging from the start in steps of `limit`: there is more exactly when the current
      page is not the last one. */
  lemma HasMoreIffNotLastPage(total: nat, limit: int, k: nat)
    requires limit >= 1
    ensures var p := Paginate(total, limit, k * limit);
      p.hasMore <==> p.currentPage < p.totalPages
  {
    var p := Paginate(total, limit, k * limit);
    MulDivCancel(k, limit);
    assert p.currentPage == k + 1;
    assert k * limit + limit == (k + 1) * limit;
    NextPageBound(k + 1, p.totalPages, limit, total);
  }

  lemma MulDivCancel(k: nat, limit: int)
    requires limit >= 1
    ensures (k * limit) / limit == k
  {
    var q := (k * limit) / limit;
    var r := (k * limit) % limit;
    assert k * limit == q * limit + r && 0 <= r < limit;
    assert (k - q) * limit == r;
    if k - q >= 1 {
      MulLe(1, k - q, limit);
    } else if k - q <= -1 {
      MulLe(k - q, -1, limit);
    }
  }

  /** With `pages` the ceiling of `total / limit`, the first `c` pages leave rows over
      exactly when `c` is not the last page or beyond. */
  lemma NextPageBound(c: int, pages: int, limit: int, total: int)
    requires limit >= 1 && (pages - 1) * limit < total <= pages * limit
    ensures c * limit < total <==> c < pages
  {
    if c < pages {
      MulLe(c, pages - 1, limit);
    } else {
      MulLe(pages, c, limit);
    }
  }

  /** A page that is followed by more rows is full. */
  lemma FullPageBeforeMore(rows: seq<Job>, filter: Option<string>, limit: nat, offset: nat)
    requires DistinctIds(rows) && limit >= 1
    requires Paginate(|Matching(rows, filter)|, limit, offset).hasMore
    ensures |Page(rows, filter, limit, offset)| == limit
  {
    PageContents(rows, filter, limit, offset);
  }

  /** The SELECT and COUNT statements with their numbered placeholders. */
  datatype ListStatement = ListStatement(
    filterParam: Option<nat>, limitParam: nat, offsetParam: nat, values: seq<Value>,
    countFilterParam: Option<nat>, countValues: seq<Value>)

  /** Builds both statements the way the source does, with a running placeholder counter:
      the status (when given) is `$1`, then LIMIT and OFFSET take the next two numbers; the
      count statement has its own `$1` for the status. */
  method BuildListStatement(status: Option<string>, limit: int, offset: int) returns (q: ListStatement)
    ensures StatusFilter(status).Some? ==>
      q.filterParam == Some(1) && q.limitParam == 2 && q.offsetParam == 3 &&
      q.values == [Str(status.value), Int(limit), Int(offset)] &&
      q.countFilterParam == Some(1) && q.countValues == [Str(status.value)]
    ensures StatusFilter(status).None? ==>
      q.filterParam == None && q.limitParam == 1 && q.offsetParam == 2 &&
      q.values == [Int(limit), Int(offset)] &&
      q.countFilterParam == None && q.countValues == []
  {
    var values: seq<Value> := [];
    var paramCount := 0;
    var filterParam: Option<nat> := None;
    if StatusFilter(status).Some? {
      paramCount := paramCount + 1;
      filterParam := Some(paramCount);
      values := values + [Str(status.value)];
    }
    paramCount := paramCount + 1;
    var limitParam := paramCount;
    paramCount := paramCount + 1;
    var offsetParam := paramCount;
    values := values + [Int(limit), Int(offset)];

    var countValues: seq<Value> := [];
    var countFilterParam: Option<nat> := None;
    if StatusFilter(status).Some? {
      countFilterParam := Some(1);
      countValues := countValues + [Str(status.value)];
    }
    q := ListStatement(filterParam, limitParam, offsetParam, values, countFilterParam, countValues);
  }

  function IntParam(values: seq<Value>, p: nat): Option<int>
  {
    if 1 <= p <= |values| && values[p - 1].Int? then Some(values[p - 1].i) else None
  }

  function FilterParam(values: seq<Value>, p: Option<nat>): Option<Option<string>>
  {
    match p
    case None => Some(None)
    case Some(n) => if 1 <= n <= |values| && values[n - 1].Str? then Some(Some(values[n - 1].s)) else None
  }

  /** What the database answers to the two statements: the window of rows and the count,
      each statement reading its own placeholders; a negative LIMIT or OFFSET is an error. */
  function RunList(rows: seq<Job>, q: ListStatement): Option<(seq<Summary>, nat)>
  {
    match (FilterParam(q.values, q.filterParam), IntParam(q.values, q.limitParam),
           IntParam(q.values, q.offsetParam), FilterParam(q.countValues, q.countFilterParam))
    case (Some(filter), Some(limit), Some(offset), Some(countFilter)) =>
      if limit < 0 || offset < 0 then None
      else Some((Page(rows, filter, limit, offset), |Matching(rows, countFilter)|))
    case _ => None
  }

  /** The statements the builder produces select exactly the requested window and count the
      rows under the same filter. */
  lemma RunBuiltStatement(rows: seq<Job>, status: Option<string>, limit: nat, offset: nat, q: ListStatement)
    requires StatusFilter(status).Some? ==>
      q.filterParam == Some(1) && q.limitParam == 2 && q.offsetParam == 3 &&
      q.values == [Str(status.value), Int(limit), Int(offset)] &&
      q.countFilterParam == Some(1) && q.countValues == [Str(status.value)]
    requires StatusFilter(status).None? ==>
      q.filterParam == None && q.limitParam == 1 && q.offsetParam == 2 &&
      q.values == [Int(limit), Int(offset)] &&
      q.countFilterParam == None && q.countValues == []
    ensures RunList(rows, q) == Some((Page(rows, StatusFilter(status), limit, offset),
                                      |Matching(rows, StatusFilter(status))|))
  {
  }
}
