/** The submission repository of src/lib/eligibilitySubmissions.ts over the
    abstract table: list, latest, save (create or update) and delete, all
    scoped by the caller's user id. A thrown error is a `Failure`. */
module SubmissionStore {
  import opened Wrappers
  import opened FormModel
  import opened SubmissionMapper
  import opened Backend

  predicate IsLower(c: char) {
    'a' <= c <= 'z'
  }

  /** `toUpperCase` on one character. The reference id is built from base-36
      digits and ASCII text, so only ASCII letters need mapping. */
  function UpperChar(c: char): (u: char)
    ensures !IsLower(u)
    ensures !IsLower(c) ==> u == c
    ensures IsLower(c) ==> u as int == c as int - 32
  {
    if IsLower(c) then (c as int - 32) as char else c
  }

  function ToUpperCase(s: string): (r: string)
    ensures |r| == |s|
    ensures forall i :: 0 <= i < |s| ==> r[i] == UpperChar(s[i])
  {
    seq(|s|, i requires 0 <= i < |s| => UpperChar(s[i]))
  }

  /** Upper-casing is applied piecewise to a concatenation. */
  lemma ToUpperCaseConcat(a: string, b: string)
    ensures ToUpperCase(a + b) == ToUpperCase(a) + ToUpperCase(b)
  {
    assert forall i :: 0 <= i < |a + b| ==>
      ToUpperCase(a + b)[i] == (ToUpperCase(a) + ToUpperCase(b))[i];
  }

  /** `generateReferenceId`: `IEA-<time>-<random>` upper-cased, where the
      time and random parts (base-36 text of `Date.now()` and
      `Math.random()`) are given. */
  function GenerateReferenceId(stamp: string, random: string): (id: string)
    ensures |id| == |stamp| + |random| + 5
    ensures id[..4] == "IEA-"
    ensures forall i :: 0 <= i < |id| ==> !IsLower(id[i])
    ensures id == "IEA-" + ToUpperCase(stamp) + "-" + ToUpperCase(random)
  {
    ToUpperCaseConcat("IEA-", stamp + "-" + random);
    ToUpperCaseConcat(stamp, "-" + random);
    ToUpperCaseConcat("-", random);
    assert ToUpperCase("IEA-") == "IEA-";
    assert ToUpperCase("-") == "-";
    assert "IEA-" + stamp + "-" + random == "IEA-" + (stamp + ("-" + random));
    assert "IEA-" + ToUpperCase(stamp) + "-" + ToUpperCase(random)
        == "IEA-" + (ToUpperCase(stamp) + ("-" + ToUpperCase(random)));
    ToUpperCase("IEA-" + stamp + "-" + random)
  }

  /** `fetchUserSubmissions`: the caller's rows, newest first; a backend
      error is rethrown. */
  function FetchUserSubmissions(t: Table, userId: string, fault: Option<DbError>)
    : (r: Result<seq<Row>, DbError>)
    ensures fault.Some? <==> r.Failure?
    ensures r.Failure? ==> r.error == fault.value
    ensures r.Success? ==> NewestFirst(r.value)
    ensures r.Success? ==> forall row :: row in r.value <==> row in t && row.userId == userId
    ensures r.Success? ==> forall row ::
      multiset(r.value)[row] == if row.userId == userId then multiset(t)[row] else 0
  {
    match fault
    case Some(e) => Failure(e)
    case None => Success(SelectOwned(t, userId))
  }

  /** `fetchLatestSubmission`: `.limit(1).single()` on the caller's rows,
      newest first. `PGRST116` (no row) becomes `null`; any other error is
      rethrown. */
  function FetchLatestSubmission(t: Table, userId: string, fault: Option<DbError>)
    : (r: Result<Option<Row>, DbError>)
    ensures fault.Some? && fault.value.code == NoRowsCode ==> r == Success(None)
    ensures fault.Some? && fault.value.code != NoRowsCode ==> r == Failure(fault.value)
    ensures fault.None? ==> r.Success?
    ensures fault.None? ==> (r.value.None? <==> forall row :: row in t ==> row.userId != userId)
    ensures r.Success? && r.value.Some? ==>
      var latest := r.value.value;
      && latest in t && latest.userId == userId
      && forall row :: row in t && row.userId == userId ==> row.createdAt <= latest.createdAt
  {
    var answer: Result<Row, DbError> :=
      match fault
      case Some(e) => Failure(e)
      case None =>
        var rows := SelectOwned(t, userId);
        Single(if |rows| == 0 then [] else rows[..1]);
    match answer
    case Failure(e) => if e.code == NoRowsCode then Success(None) else Failure(e)
    case Success(row) =>
      assert row in SelectOwned(t, userId);
      Success(Some(row))
  }

  /** What a create call needs that the source draws from the clock,
      `Math.random` and the database's column defaults. */
  datatype Fresh = Fresh(id: string, stamp: string, random: string, now: int, defaultStatus: string)

  /** The group columns the repository writes for an answer set. */
  function StoredGroups(x: Answers): StoredRecord {
    AsStructured(Encode(x))
  }

  /** The update applied to the targeted row by `saveSubmission`. */
  function Overwrite(row: Row, x: Answers, now: int): Row {
    row.(record := StoredGroups(x), updatedAt := now)
  }

  /** `saveSubmission`. With a non-empty reference id it overwrites the six
      groups and `updated_at` of the one row owned by the caller with that
      reference, and throws if there is no such row. Without one it inserts
      a new row under a fresh `IEA-` reference. A backend error is rethrown
      and leaves the table unchanged. */
  function SaveSubmission(t: Table, userId: string, x: Answers, referenceId: Option<string>,
                          gen: Fresh, fault: Option<DbError>): (r: Step<Result<Row, DbError>>)
    ensures r.out.Failure? ==> r.table == t
    ensures fault.Some? ==> r.out == Failure(fault.value)
  {
    if referenceId.Some? && referenceId.value != "" then
      var ref := referenceId.value;
      if fault.Some? then Step(t, Failure(fault.value))
      else if |Targets(t, ref, userId)| != 1 then Step(t, Failure(DbError(NoRowsCode)))
      else
        var updated := Overwrite(Targets(t, ref, userId)[0], x, gen.now);
        Step(UpdateWhere(t, (row: Row) => IsTarget(row, ref, userId),
                         (row: Row) => Overwrite(row, x, gen.now)),
             Success(updated))
    else
      var row := Row(gen.id, userId, GenerateReferenceId(gen.stamp, gen.random),
                     StoredGroups(x), gen.defaultStatus, gen.now, gen.now,
                     Lookup(x, FullName), Lookup(x, Email));
      if fault.Some? then Step(t, Failure(fault.value))
      else Step(t + [row], Success(row))
  }

  /** The update branch changes only the caller's row with that reference:
      its groups and `updated_at` are replaced, its status, owner, id and
      creation time are kept, and every other row is left as it was. */
  lemma {:induction false} UpdateTouchesOnlyTarget(t: Table, userId: string, x: Answers, ref: string,
                                 gen: Fresh, fault: Option<DbError>)
    requires ref != ""
    ensures var r := SaveSubmission(t, userId, x, Some(ref), gen, fault);
      && |r.table| == |t|
      && (r.out.Success? <==> fault.None? && |Targets(t, ref, userId)| == 1)
      && forall i :: 0 <= i < |t| ==>
           if IsTarget(t[i], ref, userId) && r.out.Success? then
             && r.table[i].record == StoredGroups(x)
             && r.table[i].updatedAt == gen.now
             && r.table[i].status == t[i].status
             && r.table[i].referenceId == ref && r.table[i].userId == userId
             && r.table[i].id == t[i].id && r.table[i].createdAt == t[i].createdAt
           else r.table[i] == t[i]
  {
  }

  /** The create branch appends exactly one row, owned by the caller, under
      a reference that starts with `IEA-` and has no lower-case letter, and
      returns it. */
  lemma {:induction false} CreateAppendsOneRow(t: Table, userId: string, x: Answers, ref: Option<string>,
                             gen: Fresh)
    requires ref.None? || ref.value == ""
    ensures var r := SaveSubmission(t, userId, x, ref, gen, None);
      && r.out.Success?
      && r.table == t + [r.out.value]
      && r.out.value.userId == userId
      && r.out.value.referenceId[..4] == "IEA-"
      && (forall i :: 0 <= i < |r.out.value.referenceId| ==> !IsLower(r.out.value.referenceId[i]))
      && r.out.value.record == StoredGroups(x)
  {
  }

  /** A saved complete answer set reads back unchanged. */
  lemma SavedAnswersReadBack(t: Table, userId: string, x: Answers, ref: Option<string>,
                             gen: Fresh, fault: Option<DbError>)
    requires Complete(x)
    ensures var r := SaveSubmission(t, userId, x, ref, gen, fault);
      r.out.Success? ==> Decode(r.out.value.record) == x
  {
    RoundTrip(x);
  }

  /** Why `deleteSubmission` throws. */
  datatype DeleteError =
    | NotFoundOrDenied(cause: DbError)  // the existence check failed
    | DeleteFailed(cause: DbError)      // the delete itself failed

  /** `deleteSubmission`: checks with `.single()` that the caller owns
      exactly one row with that reference, then deletes it. */
  function DeleteSubmission(t: Table, userId: string, ref: string,
                            checkFault: Option<DbError>, deleteFault: Option<DbError>)
    : (r: Step<Result<(), DeleteError>>)
    ensures r.out.Success? <==>
      checkFault.None? && deleteFault.None? && |Targets(t, ref, userId)| == 1
    ensures r.out.Failure? ==> r.table == t
    ensures r.out.Success? ==> |r.table| == |t| - 1
    ensures r.out.Success? ==> forall row ::
      multiset(r.table)[row] == if IsTarget(row, ref, userId) then 0 else multiset(t)[row]
  {
    var check: Result<Row, DbError> :=
      match checkFault
      case Some(e) => Failure(e)
      case None => Single(Targets(t, ref, userId));
    if check.Failure? then Step(t, Failure(NotFoundOrDenied(check.error)))
    else if deleteFault.Some? then Step(t, Failure(DeleteFailed(deleteFault.value)))
    else
      TargetsSplitLength(t, ref, userId);
      Step(Untargeted(t, ref, userId), Success(()))
  }
}
