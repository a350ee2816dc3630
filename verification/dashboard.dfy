/** The signed-in home screen of src/components/Dashboard.tsx: prefilling
    the form from the latest submission, the summary counts and list
    truncation, the draft and submit handlers, and starting a new
    assessment. */
module Dashboard {
  import opened Wrappers
  import opened FormModel
  import opened SubmissionMapper
  import opened Backend
  import opened DbOperations
  import opened EligibilityForm
  import Webhook

  /** The answers the prefill lists: all but the language level and the
      settlement amount. */
  predicate IsPrefilled(f: Field) {
    f !in UnwrittenFields
  }

  /** `latest.<group>?.<field>`: the group is read as stored, without
      parsing, so a group stored as JSON text has no such property. */
  function RawField(r: StoredRecord, f: Field): (v: Value)
    ensures r.Get(GroupOf(f)).Structured? ==> v == Lookup(r.Get(GroupOf(f)).fields, f)
    ensures !r.Get(GroupOf(f)).Structured? ==> v == Undefined
  {
    match r.Get(GroupOf(f))
    case Structured(m) => Lookup(m, f)
    case _ => Undefined
  }

  /** What a falsy stored answer falls back to: the profile name for the
      name, the account e-mail for the e-mail, `""` otherwise. */
  function Fallback(f: Field, profileName: Option<string>, userEmail: Option<string>): (v: Value)
    ensures v.Str?
    ensures f == FullName ==> v == Str(OrEmpty(profileName))
    ensures f == Email ==> v == Str(OrEmpty(userEmail))
    ensures f != FullName && f != Email ==> v == Str("")
  {
    if f == FullName then Str(OrEmpty(profileName))
    else if f == Email then Str(OrEmpty(userEmail))
    else Str("")
  }

  function PrefillValue(latest: Row, f: Field, profileName: Option<string>,
                        userEmail: Option<string>): Value {
    Or(RawField(latest.record, f), Fallback(f, profileName, userEmail))
  }

  /** The `setValue` calls `loadUserData` makes, given the caller's
      submissions newest first. With a submission, every listed answer whose
      value is truthy is set from the latest one; without, the name and the
      e-mail are set, even when empty. */
  function Prefill(subs: seq<Row>, profileName: Option<string>, userEmail: Option<string>)
    : (w: map<Field, Value>)
    ensures |subs| == 0 ==>
      w == map[FullName := Str(OrEmpty(profileName)), Email := Str(OrEmpty(userEmail))]
    ensures |subs| > 0 ==> forall f :: f in w ==> IsPrefilled(f) && Truthy(w[f])
    ensures |subs| > 0 ==> forall f :: f in w ==> w[f] == PrefillValue(subs[0], f, profileName, userEmail)
    ensures |subs| > 0 ==> forall f :: IsPrefilled(f) && Truthy(PrefillValue(subs[0], f, profileName, userEmail)) ==>
      f in w && w[f] == PrefillValue(subs[0], f, profileName, userEmail)
    ensures |subs| > 0 ==> forall f :: IsPrefilled(f) && Truthy(RawField(subs[0].record, f)) ==>
      f in w && w[f] == RawField(subs[0].record, f)
    ensures |subs| > 0 ==> forall f :: f != FullName && f != Email ==>
      (f in w <==> IsPrefilled(f) && Truthy(RawField(subs[0].record, f)))
  {
    if |subs| == 0 then
      map[FullName := Str(OrEmpty(profileName)), Email := Str(OrEmpty(userEmail))]
    else
      var latest := subs[0];
      var w := map f | f in AllFields && IsPrefilled(f) && Truthy(PrefillValue(latest, f, profileName, userEmail))
                 :: PrefillValue(latest, f, profileName, userEmail);
      assert forall f :: IsPrefilled(f) && Truthy(PrefillValue(latest, f, profileName, userEmail)) ==> f in w by {
        forall f | IsPrefilled(f) && Truthy(PrefillValue(latest, f, profileName, userEmail)) ensures f in w {
          AllFieldsComplete(f);
        }
      }
      w
  }

  /** Only the newest submission matters. */
  lemma PrefillReadsLatestOnly(a: seq<Row>, b: seq<Row>, profileName: Option<string>,
                               userEmail: Option<string>)
    requires |a| > 0 && |b| > 0 && a[0] == b[0]
    ensures Prefill(a, profileName, userEmail) == Prefill(b, profileName, userEmail)
  {
  }

  /** A name or e-mail missing from the latest submission is taken from the
      profile or the account. */
  lemma PrefillFallsBack(subs: seq<Row>, profileName: Option<string>, userEmail: Option<string>)
    requires |subs| > 0
    ensures !Truthy(RawField(subs[0].record, FullName)) ==>
      (FullName in Prefill(subs, profileName, userEmail) <==> OrEmpty(profileName) != "")
    ensures !Truthy(RawField(subs[0].record, FullName)) && OrEmpty(profileName) != "" ==>
      FullName in Prefill(subs, profileName, userEmail)
      && Prefill(subs, profileName, userEmail)[FullName] == Str(OrEmpty(profileName))
    ensures !Truthy(RawField(subs[0].record, Email)) ==>
      (Email in Prefill(subs, profileName, userEmail) <==> OrEmpty(userEmail) != "")
    ensures !Truthy(RawField(subs[0].record, Email)) && OrEmpty(userEmail) != "" ==>
      Email in Prefill(subs, profileName, userEmail)
      && Prefill(subs, profileName, userEmail)[Email] == Str(OrEmpty(userEmail))
  {
    FallbackEntry(subs, profileName, userEmail, FullName);
    FallbackEntry(subs, profileName, userEmail, Email);
  }

  /** One answer the latest submission leaves falsy is set exactly when its
      fallback is truthy, and then to that fallback. */
  lemma FallbackEntry(subs: seq<Row>, profileName: Option<string>, userEmail: Option<string>, f: Field)
    requires |subs| > 0 && IsPrefilled(f)
    ensures !Truthy(RawField(subs[0].record, f)) ==>
      && (f in Prefill(subs, profileName, userEmail) <==> Truthy(Fallback(f, profileName, userEmail)))
      && (f in Prefill(subs, profileName, userEmail) ==>
            Prefill(subs, profileName, userEmail)[f] == Fallback(f, profileName, userEmail))
  {
    var w := Prefill(subs, profileName, userEmail);
    if !Truthy(RawField(subs[0].record, f)) {
      var v := PrefillValue(subs[0], f, profileName, userEmail);
      assert v == Fallback(f, profileName, userEmail);
      assert f in w <==> Truthy(v);
    }
  }

  /** Where the stored group is a well-formed object, each answer the
      prefill sets is the one the repository's decoder reads back. */
  lemma PrefillAgreesWithDecoder(subs: seq<Row>, profileName: Option<string>,
                                 userEmail: Option<string>, f: Field)
    requires |subs| > 0
    requires subs[0].record.Get(GroupOf(f)).Structured?
    requires Truthy(RawField(subs[0].record, f)) && IsPrefilled(f)
    ensures f in Prefill(subs, profileName, userEmail)
         && Prefill(subs, profileName, userEmail)[f] == Decode(subs[0].record)[f]
  {
  }

  /** A group stored as JSON text prefills nothing but the name and e-mail
      fallbacks, although the decoder would read it. */
  lemma TextGroupsArePrefilledEmpty(subs: seq<Row>, profileName: Option<string>,
                                    userEmail: Option<string>, f: Field)
    requires |subs| > 0 && subs[0].record.Get(GroupOf(f)).Text?
    requires f != FullName && f != Email
    ensures f !in Prefill(subs, profileName, userEmail)
  {
  }

  /** How many of the rows carry `status`: the length of
      `subs.filter(s => s.status === status)`. */
  function CountStatus(subs: seq<Row>, status: string): (n: nat)
    ensures n == |Filter(subs, (r: Row) => r.status == status)|
    ensures n <= |subs|
    ensures n == 0 <==> forall i :: 0 <= i < |subs| ==> subs[i].status != status
  {
    if |subs| == 0 then 0
    else
      var rest := CountStatus(subs[1..], status);
      assert forall i :: 1 <= i < |subs| ==> subs[i] == subs[1..][i - 1];
      (if subs[0].status == status then 1 else 0) + rest
  }

  /** The "Assessment Summary" numbers. */
  datatype Summary = Summary(total: nat, submitted: nat, drafts: nat)

  function Summarize(subs: seq<Row>): (s: Summary)
    ensures s.total == |subs|
    ensures s.submitted == |Filter(subs, (r: Row) => r.status == "submitted")|
    ensures s.drafts == |Filter(subs, (r: Row) => r.status == "draft")|
    ensures s.submitted <= s.total && s.drafts <= s.total
  {
    Summary(|subs|, CountStatus(subs, "submitted"), CountStatus(subs, "draft"))
  }

  /** No row is counted as both submitted and draft, so the two counts
      never exceed the total. */
  lemma {:induction false} SubmittedPlusDraftsAtMostTotal(subs: seq<Row>)
    ensures Summarize(subs).submitted + Summarize(subs).drafts <= Summarize(subs).total
  {
    if |subs| > 0 {
      SubmittedPlusDraftsAtMostTotal(subs[1..]);
    }
  }

  /** The first `min(k, n)` rows. */
  function Take(subs: seq<Row>, k: nat): (r: seq<Row>)
    ensures |r| == if |subs| < k then |subs| else k
    ensures forall i :: 0 <= i < |r| ==> r[i] == subs[i]
  {
    if |subs| <= k then subs else subs[..k]
  }

  /** The history box lists the newest three; the recent-activity list the
      newest five. */
  function History(subs: seq<Row>): seq<Row> {
    Take(subs, 3)
  }

  function RecentActivity(subs: seq<Row>): seq<Row> {
    Take(subs, 5)
  }

  /** The "And n more submissions..." line, present only past three. */
  function MoreNote(subs: seq<Row>): (r: Option<nat>)
    ensures r.Some? <==> |subs| > 3
  {
    if |subs| > 3 then Some(|subs| - 3) else None
  }

  /** The listed rows and the count in the note account for every row, and
      the history is a prefix of the recent activity. */
  lemma HistoryAccountsForAll(subs: seq<Row>)
    ensures |History(subs)| + MoreNote(subs).GetOr(0) == |subs|
    ensures |History(subs)| <= |RecentActivity(subs)|
    ensures forall i :: 0 <= i < |History(subs)| ==> History(subs)[i] == RecentActivity(subs)[i]
  {
  }

  const DraftSavedMessage: string := "Draft saved successfully!"
  const DraftFailedMessage: string := "Failed to save draft"

  /** The record a draft writes: the form's nested mapping marked draft. */
  function DraftFor(userId: string, x: Answers): (s: NewSubmission)
    ensures s.userId == userId && s.status == "draft"
    ensures s.record == SubmissionFor(userId, x).record
  {
    NewSubmission(userId, AsStructured(ComponentEncode(x)), "draft")
  }

  datatype DraftOutcome = DraftOutcome(write: Option<NewSubmission>, message: Option<string>,
                                       isSaving: bool)

  /** `onSaveDraft` as written: the reference `createSubmission` returns is
      ignored, so "saved" is shown whenever the call returns, and the
      failure message only on a throw. */
  function SaveDraftAsWritten(user: Option<User>, x: Answers, call: CallOutcome): (r: DraftOutcome)
    ensures !r.isSaving
    ensures user.None? ==> r == DraftOutcome(None, None, false)
    ensures user.Some? ==> r.write == Some(DraftFor(user.value.id, x))
    ensures user.Some? && call.Returned? ==> r.message == Some(DraftSavedMessage)
    ensures user.Some? && call.Threw? ==> r.message == Some(DraftFailedMessage)
  {
    match user
    case None => DraftOutcome(None, None, false)
    case Some(u) =>
      DraftOutcome(Some(DraftFor(u.id, x)),
                   Some(if call.Threw? then DraftFailedMessage else DraftSavedMessage), false)
  }

  /** `onSaveDraft` reporting what happened, as its submit sibling does: a
      missing reference is a failure. */
  function SaveDraft(user: Option<User>, x: Answers, call: CallOutcome): (r: DraftOutcome)
    ensures !r.isSaving
    ensures user.None? ==> r == DraftOutcome(None, None, false)
    ensures user.Some? ==> r.write == Some(DraftFor(user.value.id, x))
    ensures user.Some? ==>
      (r.message == Some(DraftSavedMessage) <==> call.Returned? && IsReference(call.reference))
    ensures user.Some? ==>
      (r.message == Some(DraftFailedMessage) <==> !(call.Returned? && IsReference(call.reference)))
  {
    match user
    case None => DraftOutcome(None, None, false)
    case Some(u) =>
      var saved := call.Returned? && IsReference(call.reference);
      DraftOutcome(Some(DraftFor(u.id, x)),
                   Some(if saved then DraftSavedMessage else DraftFailedMessage), false)
  }

  /** The handler run against the real `createSubmission`: a backend error
      stores nothing, otherwise one draft row owned by the user is appended.
      As written "saved" is shown either way; corrected, only when a truthy
      reference came back. */
  function SaveDraftToBackend(t: Table, u: User, x: Answers, rowId: string, dbReference: string,
                              now: int, fault: Option<DbError>, asWritten: bool)
    : (r: (Table, DraftOutcome))
    ensures fault.Some? ==> r.0 == t
    ensures fault.None? ==>
      && |r.0| == |t| + 1 && r.0[..|t|] == t
      && r.0[|t|].status == "draft" && r.0[|t|].userId == u.id
    ensures r.1.write == Some(DraftFor(u.id, x)) && !r.1.isSaving
    ensures asWritten ==> r.1.message == Some(DraftSavedMessage)
    ensures !asWritten ==> (r.1.message == Some(DraftSavedMessage) <==> fault.None? && dbReference != "")
    ensures !asWritten ==> (r.1.message == Some(DraftFailedMessage) <==> !(fault.None? && dbReference != ""))
  {
    var created := CreateSubmission(t, DraftFor(u.id, x), rowId, dbReference, now, fault);
    var call := Returned(created.out);
    (created.table, if asWritten then SaveDraftAsWritten(Some(u), x, call) else SaveDraft(Some(u), x, call))
  }

  /** As written, a failed save is announced as a success: the backend
      stored nothing, and "Draft saved successfully!" is shown. */
  lemma FailedDraftReportedAsSaved(t: Table, u: User, x: Answers, rowId: string,
                                   dbReference: string, now: int, e: DbError)
    ensures var (t', out) := SaveDraftToBackend(t, u, x, rowId, dbReference, now, Some(e), true);
      t' == t && out.message == Some(DraftSavedMessage)
  {
  }

  /** The corrected handler says "saved" exactly when a row was stored. */
  lemma DraftMessageMatchesOutcome(t: Table, u: User, x: Answers, rowId: string,
                                   dbReference: string, now: int, fault: Option<DbError>)
    requires dbReference != ""
    ensures var (t', out) := SaveDraftToBackend(t, u, x, rowId, dbReference, now, fault, false);
      && (out.message == Some(DraftSavedMessage) <==> |t'| == |t| + 1)
      && (out.message == Some(DraftSavedMessage) ==> t'[|t|].status == "draft")
      && (out.message == Some(DraftFailedMessage) <==> t' == t)
  {
  }

  /** `s` for a string answer; anything else is sent as empty text. */
  function TextOf(v: Value): string {
    if v.Str? then v.s else ""
  }

  datatype DashboardSubmit = DashboardSubmit(
    write: Option<NewSubmission>,
    notification: Option<Webhook.Delivery>,
    callback: Callback,
    error: Option<string>,
    isSubmitting: bool)

  /** The notification the dashboard sends after a stored submission: the
      account's e-mail and metadata name, falling back to the answers. */
  function SubmitPayload(u: User, x: Answers, timestamp: string): (p: Webhook.Payload)
    ensures p.userId == u.id && p.formData == Some(x)
    ensures p.email == OrElse(u.email, TextOf(Lookup(x, Email)))
    ensures p.fullName == OrElse(u.metadataFullName, TextOf(Lookup(x, FullName)))
  {
    Webhook.EligibilityFormPayload(u.id, OrElse(u.email, TextOf(Lookup(x, Email))),
                                   OrElse(u.metadataFullName, TextOf(Lookup(x, FullName))),
                                   x, timestamp)
  }

  /** `onSubmit(data)` of the dashboard. As the form's handler, but a
      truthy reference first triggers the notification, whose outcome is
      ignored, and then `onSubmissionSuccess`. */
  function Submit(user: Option<User>, x: Answers, call: CallOutcome, timestamp: string,
                  probe: Webhook.ProbeOutcome, post: Webhook.PostOutcome): (r: DashboardSubmit)
    ensures !r.isSubmitting
    ensures user.None? ==> r == DashboardSubmit(None, None, NoCallback, None, false)
    ensures r.notification.Some? <==> r.callback.SubmissionSuccess?
    ensures r.notification.Some? ==>
      Webhook.Post(SubmitPayload(user.value, x, timestamp)) in r.notification.value.requests
  {
    match user
    case None => DashboardSubmit(None, None, NoCallback, None, false)
    case Some(u) =>
      var form := EligibilityForm.OnSubmit(user, x, call);
      if form.callback.SubmissionSuccess? then
        var delivery := Webhook.SendWebhook(SubmitPayload(u, x, timestamp), probe, post);
        DashboardSubmit(form.write, Some(delivery), form.callback, form.error, false)
      else DashboardSubmit(form.write, None, form.callback, form.error, false)
  }

  /** For a signed-in user the dashboard writes, reports and calls back
      exactly as the assessment form does, whatever the notification's
      fate. */
  lemma SubmitMatchesFormHandler(u: User, x: Answers, call: CallOutcome, timestamp: string,
                                 probe: Webhook.ProbeOutcome, post: Webhook.PostOutcome)
    ensures var d := Submit(Some(u), x, call, timestamp, probe, post);
            var f := EligibilityForm.OnSubmit(Some(u), x, call);
      d.write == f.write && d.callback == f.callback && d.error == f.error
  {
  }

  /** `handleNewAssessment`: the form is reset, then given the profile name
      and the account e-mail, and shown. */
  function NewAssessment(profileName: Option<string>, userEmail: Option<string>)
    : (r: (map<Field, Value>, bool))
    ensures r.0.Keys == {FullName, Email}
    ensures r.0[FullName] == Str(OrEmpty(profileName)) && r.0[Email] == Str(OrEmpty(userEmail))
    ensures r.1
  {
    (map[FullName := Str(OrEmpty(profileName)), Email := Str(OrEmpty(userEmail))], true)
  }

  /** A new assessment starts from what the prefill gives a user with no
      submissions. */
  lemma NewAssessmentMatchesEmptyPrefill(profileName: Option<string>, userEmail: Option<string>)
    ensures NewAssessment(profileName, userEmail).0 == Prefill([], profileName, userEmail)
  {
  }
}
