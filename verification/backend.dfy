/** The managed backend's submissions table, as the queries of
    src/lib/eligibilitySubmissions.ts and src/lib/supabase.ts see it: a
    sequence of rows, filtered by equality, ordered by creation time, and
    read with `.single()`. */
module Backend {
  import opened Wrappers
  import opened FormModel
  import opened SubmissionMapper

  /** An error reported by the backend, identified by its code. */
  datatype DbError = DbError(code: string)

  /** The code `.single()` reports when the query matched no row, or more
      than one. */
  const NoRowsCode: string := "PGRST116"

  /** A row of `eligibility_submissions`. Timestamps are opaque, ordered
      values. `fullNameColumn` and `emailColumn` are the copies the create
      path stores for indexing; they are `Undefined` when not written. */
  datatype Row = Row(
    id: string,
    userId: string,
    referenceId: string,
    record: StoredRecord,
    status: string,
    createdAt: int,
    updatedAt: int,
    fullNameColumn: Value,
    emailColumn: Value)

  type Table = seq<Row>

  /** A backend call's effect on the table together with what it returns. */
  datatype Step<+T> = Step(table: Table, out: T)

  /** The elements of `s` satisfying `p`, in their original order. */
  function Filter<T(!new)>(s: seq<T>, p: T -> bool): (r: seq<T>)
    ensures |r| <= |s|
    ensures forall x :: x in r <==> x in s && p(x)
    ensures forall x :: multiset(r)[x] == if p(x) then multiset(s)[x] else 0
  {
    if |s| == 0 then []
    else
      assert s == [s[0]] + s[1..];
      (if p(s[0]) then [s[0]] else []) + Filter(s[1..], p)
  }

  /** `.eq("user_id", userId)`. */
  function Owned(t: Table, userId: string): (r: seq<Row>)
    ensures forall row :: row in r <==> row in t && row.userId == userId
    ensures forall row :: multiset(r)[row] == if row.userId == userId then multiset(t)[row] else 0
  {
    Filter(t, (row: Row) => row.userId == userId)
  }

  /** `.eq("reference_id", referenceId).eq("user_id", userId)`. */
  predicate IsTarget(row: Row, referenceId: string, userId: string) {
    row.referenceId == referenceId && row.userId == userId
  }

  function Targets(t: Table, referenceId: string, userId: string): seq<Row> {
    Filter(t, (row: Row) => IsTarget(row, referenceId, userId))
  }

  /** The rows `.delete().eq("reference_id", …).eq("user_id", …)` keeps. */
  function Untargeted(t: Table, referenceId: string, userId: string): seq<Row> {
    Filter(t, (row: Row) => !IsTarget(row, referenceId, userId))
  }

  /** Every row is either targeted or kept. */
  lemma {:induction false} TargetsSplitLength(t: Table, referenceId: string, userId: string)
    ensures |Targets(t, referenceId, userId)| + |Untargeted(t, referenceId, userId)| == |t|
  {
    if |t| > 0 {
      TargetsSplitLength(t[1..], referenceId, userId);
    }
  }

  /** Newest `created_at` first. */
  predicate NewestFirst(s: seq<Row>) {
    forall i, j :: 0 <= i < j < |s| ==> s[i].createdAt >= s[j].createdAt
  }

  /** Putting a row no older than any element in front keeps a sequence
      newest first. */
  lemma PrependNewest(x: Row, s: seq<Row>)
    requires NewestFirst(s)
    requires forall i :: 0 <= i < |s| ==> s[i].createdAt <= x.createdAt
    ensures NewestFirst([x] + s)
  {
    var res := [x] + s;
    forall i, j | 0 <= i < j < |res| ensures res[i].createdAt >= res[j].createdAt {
      if i > 0 {
        assert res[i] == s[i - 1] && res[j] == s[j - 1];
      }
    }
  }

  /** Inserts `r` into a newest-first sequence, keeping it newest first. */
  function InsertNewest(r: Row, s: seq<Row>): (res: seq<Row>)
    requires NewestFirst(s)
    ensures NewestFirst(res)
    ensures multiset(res) == multiset(s) + multiset{r}
    ensures |res| == |s| + 1
    ensures forall i :: 0 <= i < |res| ==> res[i] == r || res[i] in s
  {
    if |s| == 0 || r.createdAt >= s[0].createdAt then
      PrependNewest(r, s);
      [r] + s
    else
      var rest := InsertNewest(r, s[1..]);
      assert s == [s[0]] + s[1..];
      assert forall i :: 0 <= i < |rest| ==> rest[i].createdAt <= s[0].createdAt;
      PrependNewest(s[0], rest);
      [s[0]] + rest
  }

  /** `.order("created_at", { ascending: false })`: the same rows, newest
      first. Rows created at the same instant may come in any order; this is
      one of the orders the backend may return. */
  function SortNewestFirst(s: seq<Row>): (r: seq<Row>)
    ensures NewestFirst(r)
    ensures multiset(r) == multiset(s)
    ensures |r| == |s|
  {
    if |s| == 0 then []
    else
      assert s == [s[0]] + s[1..];
      InsertNewest(s[0], SortNewestFirst(s[1..]))
  }

  /** `select("*").eq("user_id", userId).order("created_at", desc)`: exactly
      the caller's rows, newest first. */
  function SelectOwned(t: Table, userId: string): (r: seq<Row>)
    ensures NewestFirst(r)
    ensures forall row :: multiset(r)[row] == if row.userId == userId then multiset(t)[row] else 0
    ensures forall row :: row in r <==> row in t && row.userId == userId
  {
    var r := SortNewestFirst(Owned(t, userId));
    assert forall row :: row in r <==> row in multiset(r);
    r
  }

  /** `.single()`: the one matching row, or `PGRST116` when there is none or
      more than one. */
  function Single<T>(rows: seq<T>): (r: Result<T, DbError>)
    ensures r.Success? <==> |rows| == 1
    ensures r.Success? ==> r.value == rows[0]
    ensures r.Failure? ==> r.error == DbError(NoRowsCode)
  {
    if |rows| == 1 then Success(rows[0]) else Failure(DbError(NoRowsCode))
  }

  /** Applies `change` to every row satisfying `p` and leaves the others. */
  function UpdateWhere(t: Table, p: Row -> bool, change: Row -> Row): (r: Table)
    ensures |r| == |t|
    ensures forall i :: 0 <= i < |t| ==> r[i] == if p(t[i]) then change(t[i]) else t[i]
  {
    seq(|t|, i requires 0 <= i < |t| => if p(t[i]) then change(t[i]) else t[i])
  }
}
