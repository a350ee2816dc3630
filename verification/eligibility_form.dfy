/** The assessment form of src/components/EligibilityForm.tsx: which answers
    it validates and how, and what its submit handler does for an anonymous
    and for a signed-in visitor. The form library is reduced to the rules
    each registered input declares. */
module EligibilityForm {
  import opened Wrappers
  import opened FormModel
  import opened SubmissionMapper
  import opened Backend
  import opened DbOperations
  import opened EmailPattern

  /** What a `required` rule rejects: no value, or the empty string. */
  predicate Missing(v: Value) {
    v.Undefined? || v.Null? || v == Str("")
  }

  /** The form has an input for every answer but the two it never
      registers. */
  predicate IsRegistered(f: Field) {
    f !in UnwrittenFields
  }

  /** The inputs declared with a `required` rule: all but the five optional
      answers. */
  predicate IsRequired(f: Field) {
    f !in OptionalFields
  }

  /** Whether the input for `f` is on screen for the answers `x`: the
      children's ages only after "yes" to having children, the test scores
      only after "yes" to having taken a language test. */
  predicate Shown(x: Answers, f: Field) {
    match f
    case ChildrenAges => Lookup(x, HasChildren) == Str("yes")
    case TestScores => Lookup(x, LanguageTest) == Str("yes")
    case _ => IsRegistered(f)
  }

  /** A failed rule: a required answer is missing, or the e-mail does not
      match the pattern (which is only tried on a non-empty value). */
  datatype FieldError = RequiredMissing(field: Field) | InvalidEmail

  function Errors(x: Answers): (e: set<FieldError>)
    ensures forall f :: RequiredMissing(f) in e <==> IsRequired(f) && Missing(Lookup(x, f))
    ensures InvalidEmail in e <==>
      var v := Lookup(x, Email); v.Str? && v.s != "" && !MatchesPattern(v.s)
  {
    var email := Lookup(x, Email);
    var required := set f | f in AllFields && IsRequired(f) && Missing(Lookup(x, f)) :: RequiredMissing(f);
    assert forall f :: RequiredMissing(f) in required <==> IsRequired(f) && Missing(Lookup(x, f)) by {
      forall f ensures RequiredMissing(f) in required <==> IsRequired(f) && Missing(Lookup(x, f)) {
        AllFieldsComplete(f);
      }
    }
    if email.Str? && email.s != "" then
      IsValidEmailMeansMatch(email.s);
      required + (if IsValidEmail(email.s) then {} else {InvalidEmail})
    else required
  }

  /** An input that is not on screen never blocks submission: each hidden
      or unregistered answer is optional. */
  lemma HiddenInputsNeverBlock(x: Answers, f: Field)
    requires !Shown(x, f)
    ensures RequiredMissing(f) !in Errors(x)
  {
    assert f in OptionalFields by {
      if f != ChildrenAges && f != TestScores {
        assert f in UnwrittenFields;
      }
    }
  }

  /** The optional answers may hold anything without changing the verdict. */
  lemma OptionalAnswersNeverBlock(x: Answers, f: Field, v: Value)
    requires f in OptionalFields
    ensures Errors(x[f := v]) == Errors(x)
  {
    var y := x[f := v];
    assert Lookup(y, Email) == Lookup(x, Email);
    forall g ensures RequiredMissing(g) in Errors(y) <==> RequiredMissing(g) in Errors(x) {
      if IsRequired(g) {
        assert Lookup(y, g) == Lookup(x, g);
      }
    }
    forall e | e in Errors(y) ensures e in Errors(x) {
    }
    forall e | e in Errors(x) ensures e in Errors(y) {
    }
  }

  /** Answers with every required input filled in and a well-formed
      address pass every rule; whatever the optional inputs hold. */
  lemma RequiredValidAnswersPass(x: Answers)
    requires forall f :: IsRequired(f) ==> !Missing(Lookup(x, f))
    requires Lookup(x, Email).Str? && MatchesPattern(Lookup(x, Email).s)
    ensures Errors(x) == {}
  {
    forall e ensures e !in Errors(x) {
      if e.RequiredMissing? {
        assert !Missing(Lookup(x, e.field)) || !IsRequired(e.field);
      }
    }
  }

  /** What the submit handler asks of its parent. */
  datatype Callback =
    | NoCallback
    | AuthRequired(data: Answers)
    | SubmissionSuccess(referenceId: string)

  /** How the `createSubmission` call ended. */
  datatype CallOutcome = Returned(reference: Option<string>) | Threw

  /** Everything the handler leaves behind: the record it asked to write,
      the callback it fired, the error it shows and the busy flag. */
  datatype SubmitOutcome = SubmitOutcome(
    write: Option<NewSubmission>,
    callback: Callback,
    error: Option<string>,
    isSubmitting: bool)

  const SubmitFailedMessage: string := "Failed to submit form. Please try again."
  const SubmitErrorMessage: string := "An error occurred while submitting the form. Please try again."

  /** The record the form writes: its own nested mapping, without the
      language level and the settlement amount, and marked submitted. */
  function SubmissionFor(userId: string, x: Answers): (s: NewSubmission)
    ensures s.userId == userId && s.status == "submitted"
    ensures forall g :: s.record.Get(g).Structured?
  {
    NewSubmission(userId, AsStructured(ComponentEncode(x)), "submitted")
  }

  /** A returned reference counts only when truthy. */
  predicate IsReference(o: Option<string>) {
    o.Some? && o.value != ""
  }

  /** `onSubmit(data)`. Without a user the answers go to `onAuthRequired`
      exactly as given and nothing is written. With one, the record is
      written; a truthy reference fires `onSubmissionSuccess`, a missing one
      shows the failure message and a throw the error message. The busy flag
      is cleared on every path. */
  function OnSubmit(user: Option<User>, x: Answers, call: CallOutcome): (r: SubmitOutcome)
    ensures !r.isSubmitting
    ensures user.None? ==> r.write.None? && r.callback == AuthRequired(x) && r.error.None?
    ensures user.Some? ==> r.write == Some(SubmissionFor(user.value.id, x))
    ensures r.callback.SubmissionSuccess? <==>
      user.Some? && call.Returned? && IsReference(call.reference)
    ensures r.callback.SubmissionSuccess? ==> r.callback.referenceId == call.reference.value
    ensures r.error == Some(SubmitFailedMessage) <==>
      user.Some? && call.Returned? && !IsReference(call.reference)
    ensures r.error == Some(SubmitErrorMessage) <==> user.Some? && call.Threw?
    ensures r.callback.SubmissionSuccess? ==> r.error.None?
  {
    match user
    case None => SubmitOutcome(None, AuthRequired(x), None, false)
    case Some(u) =>
      var write := Some(SubmissionFor(u.id, x));
      match call
      case Threw => SubmitOutcome(write, NoCallback, Some(SubmitErrorMessage), false)
      case Returned(ref) =>
        if IsReference(ref) then SubmitOutcome(write, SubmissionSuccess(ref.value), None, false)
        else SubmitOutcome(write, NoCallback, Some(SubmitFailedMessage), false)
  }

  /** The handler run against the real `createSubmission`, whose database
      defaults are given. */
  function SubmitToBackend(t: Table, user: Option<User>, x: Answers, rowId: string,
                           dbReference: string, now: int, fault: Option<DbError>)
    : (r: (Table, SubmitOutcome))
    ensures user.None? ==> r.0 == t
    ensures r.1.error != Some(SubmitErrorMessage)
    ensures user.Some? && fault.Some? ==>
      r.0 == t && r.1.callback == NoCallback && r.1.error == Some(SubmitFailedMessage)
  {
    match user
    case None => (t, OnSubmit(user, x, Returned(None)))
    case Some(u) =>
      var created := CreateSubmission(t, SubmissionFor(u.id, x), rowId, dbReference, now, fault);
      (created.table, OnSubmit(user, x, Returned(created.out)))
  }

  /** With a signed-in user and a working backend the answers land in one
      new row, owned by the user and marked submitted, whose groups read back
      as the answers: a truthy answer as given, any other as its default,
      and the two answers the form never writes as empty. The error branch
      for a thrown exception is never taken, because `createSubmission`
      never throws. */
  lemma SubmitStoresAnswers(t: Table, u: User, x: Answers, rowId: string,
                            dbReference: string, now: int, f: Field)
    requires dbReference != ""
    ensures var (t', out) := SubmitToBackend(t, Some(u), x, rowId, dbReference, now, None);
      && out.callback == SubmissionSuccess(dbReference)
      && |t'| == |t| + 1 && t'[..|t|] == t
      && t'[|t|].userId == u.id && t'[|t|].status == "submitted"
      && Decode(t'[|t|].record)[f] ==
           (if f in UnwrittenFields then Str("") else Or(Lookup(x, f), Default(f)))
  {
    ComponentRoundTrip(x, f);
  }
}
