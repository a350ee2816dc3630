/** The helpers of src/lib/supabase.ts: `createUserProfile` and the
    `dbOperations` object. Unlike the repository in SubmissionStore, these
    never throw: every backend error or exception becomes `null`, `[]`,
    `false` or a `{ success: false }` record. */
module DbOperations {
  import opened Wrappers
  import opened FormModel
  import opened SubmissionMapper
  import opened Backend

  /** The `user_profiles` table. */
  type Profiles = seq<UserProfile>

  /** A profile call's effect on the profile table with what it returns. */
  datatype ProfileStep<+T> = ProfileStep(profiles: Profiles, out: T)

  /** The code the backend reports when an insert repeats a primary key. */
  const DuplicateKeyCode: string := "23505"

  /** `.eq("id", userId)` on the profile table. */
  function ProfilesWithId(p: Profiles, userId: string): (r: seq<UserProfile>)
    ensures forall q :: q in r <==> q in p && q.id == userId
  {
    Filter(p, (q: UserProfile) => q.id == userId)
  }

  /** Appending a row to a table with no row of its id leaves exactly
      one row of that id. */
  lemma AppendToMissingIsOnly(p: Profiles, row: UserProfile)
    requires |ProfilesWithId(p, row.id)| == 0
    ensures |ProfilesWithId(p + [row], row.id)| == 1
  {
    var r := ProfilesWithId(p + [row], row.id);
    forall x ensures multiset(r)[x] == multiset{row}[x] {
      if x != row && x.id == row.id {
        assert x !in ProfilesWithId(p, row.id);
        assert multiset(p + [row]) == multiset(p) + multiset{row};
      }
    }
    assert multiset(r) == multiset{row};
    assert |r| == |multiset(r)|;
  }

  /** Tables whose rows carry the same ids, position by position, have as
      many rows with any given id. */
  lemma {:induction false} SameIdsSameCount(p: Profiles, r: Profiles, userId: string)
    requires |p| == |r| && forall i :: 0 <= i < |p| ==> r[i].id == p[i].id
    ensures |ProfilesWithId(r, userId)| == |ProfilesWithId(p, userId)|
    decreases |p|
  {
    if |p| > 0 {
      SameIdsSameCount(p[1..], r[1..], userId);
    }
  }

  /** An insert into `user_profiles`: refused when the id is already taken. */
  function InsertProfile(p: Profiles, row: UserProfile): (r: ProfileStep<Result<UserProfile, DbError>>)
    ensures r.out.Success? <==> forall q :: q in p ==> q.id != row.id
    ensures r.out.Success? ==> r.out.value == row && r.profiles == p + [row]
    ensures r.out.Failure? ==> r.out.error == DbError(DuplicateKeyCode) && r.profiles == p
  {
    if |ProfilesWithId(p, row.id)| == 0 then ProfileStep(p + [row], Success(row))
    else ProfileStep(p, Failure(DbError(DuplicateKeyCode)))
  }

  /** What `createUserProfile` hands back on success: the `{ id }` the
      existence check selected, or the whole inserted row. */
  datatype ProfileData = IdOnly(id: string) | Full(profile: UserProfile)

  /** `createUserProfile(userId, email, fullName)`. The existence check uses
      `.single()`: a found row is returned as is and nothing is inserted; a
      check error other than `PGRST116` is reported without inserting;
      otherwise a row is inserted, its timestamps taken from `now`. An
      exception in either call is folded into the corresponding fault. */
  function CreateUserProfile(p: Profiles, userId: string, email: string, fullName: string,
                             checkFault: Option<DbError>, insertFault: Option<DbError>, now: int)
    : (r: ProfileStep<Result<ProfileData, DbError>>)
    ensures checkFault.None? && |ProfilesWithId(p, userId)| == 1 ==>
      r == ProfileStep(p, Success(IdOnly(userId)))
    ensures checkFault.Some? && checkFault.value.code != NoRowsCode ==>
      r == ProfileStep(p, Failure(checkFault.value))
    ensures r.out.Failure? ==> r.profiles == p
    ensures r.out.Success? && r.out.value.Full? ==>
      && r.out.value.profile == UserProfile(userId, email, Some(fullName), now, now)
      && r.profiles == p + [r.out.value.profile]
    ensures r.out.Success? ==> exists q :: q in r.profiles && q.id == userId
    ensures r.profiles != p ==> insertFault.None? && |r.profiles| == |p| + 1
  {
    var check: Result<UserProfile, DbError> :=
      match checkFault
      case Some(e) => Failure(e)
      case None => Single(ProfilesWithId(p, userId));
    if check.Success? then
      assert check.value in ProfilesWithId(p, userId);
      ProfileStep(p, Success(IdOnly(check.value.id)))
    else if check.error.code != NoRowsCode then ProfileStep(p, Failure(check.error))
    else if insertFault.Some? then ProfileStep(p, Failure(insertFault.value))
    else
      var row := UserProfile(userId, email, Some(fullName), now, now);
      var ins := InsertProfile(p, row);
      match ins.out
      case Success(q) =>
        assert q in ins.profiles;
        ProfileStep(ins.profiles, Success(Full(q)))
      case Failure(e) => ProfileStep(p, Failure(e))
  }

  /** A missing profile is created when the check and the insert both go
      through; a profile that was already there is never duplicated. */
  lemma CreateUserProfileInsertsOnlyWhenMissing(p: Profiles, userId: string, email: string,
                                                fullName: string, checkFault: Option<DbError>,
                                                now: int)
    requires checkFault.None? || checkFault.value.code == NoRowsCode
    ensures (forall q :: q in p ==> q.id != userId) ==>
      CreateUserProfile(p, userId, email, fullName, checkFault, None, now).out.Success?
    ensures (exists q :: q in p && q.id == userId) ==>
      CreateUserProfile(p, userId, email, fullName, checkFault, None, now).profiles == p
  {
    var rows := ProfilesWithId(p, userId);
    if |rows| > 0 {
      assert rows[0] in p;
    }
  }

  /** `dbOperations.getUserProfile(userId)`. A found row is returned. On
      `PGRST116` the signed-in user is asked for (`authUser`, `None` when
      that call errs or reports no user) and a profile is created from its
      email and metadata name; any other outcome yields `null`. The
      returned value may be the bare `{ id }` of `createUserProfile`. */
  function GetUserProfile(p: Profiles, userId: string, fetchFault: Option<DbError>,
                          authUser: Option<User>, checkFault: Option<DbError>,
                          insertFault: Option<DbError>, now: int)
    : (r: ProfileStep<Option<ProfileData>>)
    ensures fetchFault.None? && |ProfilesWithId(p, userId)| == 1 ==>
      r.profiles == p && r.out == Some(Full(ProfilesWithId(p, userId)[0]))
    ensures fetchFault.Some? && fetchFault.value.code != NoRowsCode ==> r == ProfileStep(p, None)
    ensures authUser.None? && (fetchFault.Some? || |ProfilesWithId(p, userId)| != 1) ==>
      r == ProfileStep(p, None)
    ensures authUser.Some? && (if fetchFault.Some? then fetchFault.value.code == NoRowsCode
                               else |ProfilesWithId(p, userId)| != 1) ==>
      var c := CreateUserProfile(p, userId, OrEmpty(authUser.value.email),
                                 OrEmpty(authUser.value.metadataFullName),
                                 checkFault, insertFault, now);
      && r.profiles == c.profiles
      && (r.out.Some? <==> c.out.Success?)
      && (c.out.Success? ==> r.out == Some(c.out.value))
    ensures r.out.Some? ==> exists q :: q in r.profiles && q.id == userId
    ensures r.out.None? ==> r.profiles == p
  {
    var fetched: Result<UserProfile, DbError> :=
      match fetchFault
      case Some(e) => Failure(e)
      case None => Single(ProfilesWithId(p, userId));
    match fetched
    case Success(row) =>
      assert row in ProfilesWithId(p, userId);
      ProfileStep(p, Some(Full(row)))
    case Failure(e) =>
      if e.code != NoRowsCode || authUser.None? then ProfileStep(p, None)
      else
        var user := authUser.value;
        var created := CreateUserProfile(p, userId, OrEmpty(user.email),
                                         OrEmpty(user.metadataFullName),
                                         checkFault, insertFault, now);
        match created.out
        case Success(d) => ProfileStep(created.profiles, Some(d))
        case Failure(_) => ProfileStep(p, None)
  }

  /** Reading the profile of a signed-in user who has none creates it from
      the account's e-mail and metadata name, and returns the new row. */
  lemma GetUserProfileCreatesMissing(p: Profiles, user: User, now: int)
    requires forall q :: q in p ==> q.id != user.id
    ensures var row := UserProfile(user.id, OrEmpty(user.email),
                                   Some(OrEmpty(user.metadataFullName)), now, now);
      GetUserProfile(p, user.id, None, Some(user), None, None, now)
        == ProfileStep(p + [row], Some(Full(row)))
  {
    CreateUserProfileInsertsOnlyWhenMissing(p, user.id, OrEmpty(user.email),
                                            OrEmpty(user.metadataFullName), None, now);
  }

  /** A `Partial<UserProfile>` restricted to the columns callers change. */
  datatype ProfilePatch = ProfilePatch(email: Option<string>, fullName: Option<string>)

  function Patched(q: UserProfile, patch: ProfilePatch): (r: UserProfile)
    ensures r.id == q.id && r.createdAt == q.createdAt && r.updatedAt == q.updatedAt
    ensures r.email == patch.email.GetOr(q.email)
    ensures r.fullName == if patch.fullName.Some? then patch.fullName else q.fullName
  {
    q.(email := patch.email.GetOr(q.email),
       fullName := if patch.fullName.Some? then patch.fullName else q.fullName)
  }

  /** `dbOperations.updateUserProfile(userId, updates)`: patches the row with
      that id and reports whether the backend raised no error. */
  function UpdateUserProfile(p: Profiles, userId: string, patch: ProfilePatch,
                             fault: Option<DbError>): (r: ProfileStep<bool>)
    ensures r.out <==> fault.None?
    ensures !r.out ==> r.profiles == p
    ensures |r.profiles| == |p|
    ensures forall i :: 0 <= i < |p| ==>
      r.profiles[i] == if r.out && p[i].id == userId then Patched(p[i], patch) else p[i]
  {
    if fault.Some? then ProfileStep(p, false)
    else
      ProfileStep(seq(|p|, i requires 0 <= i < |p| =>
                    if p[i].id == userId then Patched(p[i], patch) else p[i]),
                  true)
  }

  /** The update reports success even when no profile has that id: nothing
      changes and `true` comes back. */
  lemma UpdateOfMissingProfileReportsSuccess(p: Profiles, userId: string, patch: ProfilePatch)
    requires forall q :: q in p ==> q.id != userId
    ensures UpdateUserProfile(p, userId, patch, None) == ProfileStep(p, true)
  {
    var r := UpdateUserProfile(p, userId, patch, None);
    assert forall i :: 0 <= i < |p| ==> r.profiles[i] == p[i] by {
      forall i | 0 <= i < |p| ensures r.profiles[i] == p[i] {
        assert p[i] in p;
      }
    }
  }

  /** The columns a form passes to `createSubmission`; the id, reference and
      timestamps come from the database. */
  datatype NewSubmission = NewSubmission(userId: string, record: StoredRecord, status: string)

  /** `dbOperations.createSubmission(submission)`: inserts the row and
      returns the `reference_id` the database gave it, or `null` when the
      backend reports an error. `rowId`, `dbReference` and `now` are the
      database's defaults. */
  function CreateSubmission(t: Table, s: NewSubmission, rowId: string, dbReference: string,
                            now: int, fault: Option<DbError>): (r: Step<Option<string>>)
    ensures r.out.Some? <==> fault.None?
    ensures r.out.None? ==> r.table == t
    ensures r.out.Some? ==>
      && r.out.value == dbReference
      && |r.table| == |t| + 1 && r.table[..|t|] == t
      && var row := r.table[|t|];
         row.userId == s.userId && row.record == s.record && row.status == s.status
         && row.referenceId == dbReference
  {
    if fault.Some? then Step(t, None)
    else
      var row := Row(rowId, s.userId, dbReference, s.record, s.status, now, now,
                     Undefined, Undefined);
      assert (t + [row])[..|t|] == t;
      Step(t + [row], Some(dbReference))
  }

  /** `dbOperations.getUserSubmissions(userId)`: the caller's rows, newest
      first, or `[]` when the backend reports an error. */
  function GetUserSubmissions(t: Table, userId: string, fault: Option<DbError>)
    : (r: seq<Row>)
    ensures fault.Some? ==> r == []
    ensures NewestFirst(r)
    ensures fault.None? ==> forall row :: row in r <==> row in t && row.userId == userId
    ensures fault.None? ==> forall row ::
      multiset(r)[row] == if row.userId == userId then multiset(t)[row] else 0
  {
    if fault.Some? then [] else SelectOwned(t, userId)
  }

  /** `.eq("reference_id", referenceId)` without an owner filter. */
  function WithReference(t: Table, referenceId: string): (r: seq<Row>)
    ensures forall row :: row in r <==> row in t && row.referenceId == referenceId
  {
    Filter(t, (row: Row) => row.referenceId == referenceId)
  }

  /** `dbOperations.getSubmissionByReference(referenceId)`: the one row with
      that reference, whoever owns it; `null` on any backend error, including
      no row or several. */
  function GetSubmissionByReference(t: Table, referenceId: string, fault: Option<DbError>)
    : (r: Option<Row>)
    ensures r.Some? <==> fault.None? && |WithReference(t, referenceId)| == 1
    ensures r.Some? ==> r.value in t && r.value.referenceId == referenceId
  {
    if fault.Some? then None
    else
      match Single(WithReference(t, referenceId))
      case Success(row) =>
        assert row in WithReference(t, referenceId);
        Some(row)
      case Failure(_) => None
  }

  /** The lookup is not scoped to a user: another user's submission comes
      back to whoever knows its reference. */
  lemma SubmissionByReferenceIsUnscoped(row: Row, caller: string)
    requires row.userId != caller
    ensures GetSubmissionByReference([row], row.referenceId, None) == Some(row)
  {
    assert WithReference([row], row.referenceId) == [row];
  }
}
