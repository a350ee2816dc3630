/** The sign-up / sign-in form of src/components/AuthForm.tsx: its input
    rules, its submit handler's branching, the translation of backend error
    messages, and the mode toggle. */
module AuthForm {
  import opened Wrappers
  import opened FormModel
  import opened EmailPattern
  import opened AuthSession

  /** The `type` prop. */
  datatype AuthType = Login | SignUpType

  /** Whether the form is creating an account or signing in. */
  datatype Mode = SignUpMode | SignInMode

  /** The mode the form takes whenever its `type` prop is set. */
  function ModeFor(t: AuthType): (m: Mode)
    ensures m == SignUpMode <==> t == SignUpType
  {
    if t == SignUpType then SignUpMode else SignInMode
  }

  /** `s` starts with `p`. */
  predicate StartsWith(s: string, p: string) {
    |p| <= |s| && s[..|p|] == p
  }

  /** `sub` occurs in `s` starting at position `i`. */
  predicate OccursAt(s: string, sub: string, i: int) {
    0 <= i <= |s| - |sub| && s[i..i + |sub|] == sub
  }

  /** An occurrence in the tail is an occurrence one position further on
      in the whole. */
  lemma OccursInTail(s: string, sub: string, i: int)
    requires |s| > 0 && 0 <= i
    ensures OccursAt(s[1..], sub, i) <==> OccursAt(s, sub, i + 1)
  {
    if 0 <= i <= |s| - 1 - |sub| {
      assert s[1..][i..i + |sub|] == s[i + 1..i + 1 + |sub|];
    }
  }

  /** `s.includes(sub)`. */
  function Includes(s: string, sub: string): (b: bool)
    ensures b <==> exists i :: OccursAt(s, sub, i)
    decreases |s|
  {
    if StartsWith(s, sub) then
      assert OccursAt(s, sub, 0);
      true
    else if |s| == 0 then false
    else
      var rest := Includes(s[1..], sub);
      if rest then
        var i :| OccursAt(s[1..], sub, i);
        OccursInTail(s, sub, i);
        true
      else
        assert |sub| <= |s| ==> s[0..0 + |sub|] == s[..|sub|];
        assert !OccursAt(s, sub, 0);
        assert forall i :: i > 0 ==> !OccursAt(s, sub, i) by {
          forall i | i > 0 ensures !OccursAt(s, sub, i) {
            OccursInTail(s, sub, i - 1);
          }
        }
        false
  }

  const DefaultAuthMessage: string := "An error occurred during authentication"

  /** The messages shown for the five recognised backend messages, in the
      order they are tried. */
  const Translations: seq<(string, string)> := [
    ("Invalid login credentials", "Invalid email or password"),
    ("User already registered", "An account with this email already exists. Please sign in instead."),
    ("Password should be at least", "Password must be at least 6 characters long"),
    ("Invalid email", "Please enter a valid email address"),
    ("Database error", "Account created but profile setup failed. Please try signing in with your new account.")
  ]

  /** The reference reading: the text of the first table entry whose
      fragment the message includes, or the message itself. */
  function FirstTranslation(rules: seq<(string, string)>, m: string): (r: string)
    ensures (forall i :: 0 <= i < |rules| ==> !Includes(m, rules[i].0)) ==> r == m
    ensures forall i ::
      (0 <= i < |rules| && Includes(m, rules[i].0)
       && forall j :: 0 <= j < i ==> !Includes(m, rules[j].0)) ==> r == rules[i].1
  {
    if |rules| == 0 then m
    else if Includes(m, rules[0].0) then rules[0].1
    else
      var r := FirstTranslation(rules[1..], m);
      assert forall i :: 1 <= i < |rules| ==> rules[i] == rules[1..][i - 1];
      r
  }

  /** The handler's `if` chain: the first recognised fragment wins, an
      unrecognised message is shown as is, and a missing or empty message
      gives the generic text. The chain is the first-match lookup in the
      table. */
  function TranslateError(message: Option<string>): (r: string)
    ensures message.None? || message.value == "" ==> r == DefaultAuthMessage
    ensures message.Some? && message.value != "" ==> r == FirstTranslation(Translations, message.value)
  {
    if message.None? || message.value == "" then DefaultAuthMessage
    else
      var m := message.value;
      var t := Translations;
      assert FirstTranslation(t[4..], m) ==
        if Includes(m, "Database error") then t[4].1 else m;
      assert FirstTranslation(t[3..], m) ==
        if Includes(m, "Invalid email") then t[3].1 else FirstTranslation(t[4..], m)
        by { assert t[3..][1..] == t[4..]; }
      assert FirstTranslation(t[2..], m) ==
        if Includes(m, "Password should be at least") then t[2].1 else FirstTranslation(t[3..], m)
        by { assert t[2..][1..] == t[3..]; }
      assert FirstTranslation(t[1..], m) ==
        if Includes(m, "User already registered") then t[1].1 else FirstTranslation(t[2..], m)
        by { assert t[1..][1..] == t[2..]; }
      if Includes(m, "Invalid login credentials") then "Invalid email or password"
      else if Includes(m, "User already registered") then
        "An account with this email already exists. Please sign in instead."
      else if Includes(m, "Password should be at least") then
        "Password must be at least 6 characters long"
      else if Includes(m, "Invalid email") then "Please enter a valid email address"
      else if Includes(m, "Database error") then
        "Account created but profile setup failed. Please try signing in with your new account."
      else m
  }

  /** A message none of the five fragments occur in is shown verbatim. */
  lemma UnrecognisedMessageShownVerbatim(m: string)
    requires m != ""
    requires forall i :: 0 <= i < |Translations| ==> !Includes(m, Translations[i].0)
    ensures TranslateError(Some(m)) == m
  {
  }

  /** Earlier entries win: a message that includes an entry's fragment is
      shown as that entry's text whatever later fragments it also includes,
      once no earlier fragment occurs in it. */
  lemma EarlierFragmentWins(m: string, i: nat, j: nat)
    requires i < j < |Translations|
    requires Includes(m, Translations[i].0) && Includes(m, Translations[j].0)
    requires forall k :: 0 <= k < i ==> !Includes(m, Translations[k].0)
    ensures TranslateError(Some(m)) == Translations[i].1
  {
    var k :| OccursAt(m, Translations[i].0, k);
  }

  /** What the inputs hold when submitted. `fullName` is `None` when the
      input is absent (sign-in mode). */
  datatype Credentials = Credentials(email: string, password: string, fullName: Option<string>)

  /** A failed input rule. */
  datatype CredentialError = EmailMissing | EmailInvalid | PasswordMissing | PasswordTooShort | FullNameMissing

  /** The rules the inputs declare. The e-mail uses the same pattern as the
      assessment form; the password needs six characters; the name input,
      rendered only when signing up, is then required. A pattern or length
      rule is only tried on a non-empty value. */
  function CredentialErrors(mode: Mode, c: Credentials): (e: set<CredentialError>)
    ensures EmailMissing in e <==> c.email == ""
    ensures EmailInvalid in e <==> c.email != "" && !MatchesPattern(c.email)
    ensures PasswordMissing in e <==> c.password == ""
    ensures PasswordTooShort in e <==> 0 < |c.password| < 6
    ensures FullNameMissing in e <==> mode == SignUpMode && OrEmpty(c.fullName) == ""
    ensures e == {} ==> |c.password| >= 6 && MatchesPattern(c.email)
  {
    IsValidEmailMeansMatch(c.email);
    (if c.email == "" then {EmailMissing} else {})
    + (if c.email != "" && !IsValidEmail(c.email) then {EmailInvalid} else {})
    + (if c.password == "" then {PasswordMissing} else {})
    + (if 0 < |c.password| < 6 then {PasswordTooShort} else {})
    + (if mode == SignUpMode && OrEmpty(c.fullName) == "" then {FullNameMissing} else {})
  }

  /** The backend call the handler makes, if any. */
  datatype AuthRequest =
    | NoRequest
    | SignUpRequest(email: string, password: string, fullName: string, pending: Option<Answers>)
    | SignInRequest(email: string, password: string)

  /** Whether and how `onAuthSuccess` was called. */
  datatype SuccessCall = NotCalled | CalledWith(referenceId: Option<string>)

  datatype AuthFormOutcome = AuthFormOutcome(
    request: AuthRequest,
    mode: Mode,
    error: Option<string>,
    callback: SuccessCall,
    cleared: bool,
    isSubmitting: bool)

  const FullNameRequiredMessage: string := "Full name is required for sign up"

  /** The id handed to `onAuthSuccess` after signing in with pending
      answers: `webhook_<Date.now()>_<random base-36 text>`. */
  function WebhookReference(stamp: string, random: string): (id: string)
    ensures StartsWith(id, "webhook_")
  {
    "webhook_" + stamp + "_" + random
  }

  /** `onSubmit(data)`. `answer` is what the sign-up or sign-in call returned
      or threw. Signing up without a name stops before any call. A
      successful sign-up switches to sign-in mode and clears the inputs
      without calling `onAuthSuccess`; a successful sign-in calls it, with a
      fabricated `webhook_` id when answers were pending and a user came
      back. A thrown error is translated. The busy flag is always cleared. */
  function OnSubmit(mode: Mode, c: Credentials, pending: Option<Answers>,
                    answer: Result<AuthData, AuthError>, stamp: string, random: string)
    : (r: AuthFormOutcome)
    ensures !r.isSubmitting
    ensures mode == SignUpMode && OrEmpty(c.fullName) == "" ==>
      r == AuthFormOutcome(NoRequest, mode, Some(FullNameRequiredMessage), NotCalled, false, false)
    ensures r.request.SignUpRequest? ==>
      c.fullName.Some? && r.request == SignUpRequest(c.email, c.password, c.fullName.value, pending)
    ensures r.request.SignUpRequest? ==> r.callback == NotCalled
    ensures r.request.SignInRequest? <==> mode == SignInMode
    ensures answer.Failure? && r.request != NoRequest ==>
      r.error == Some(TranslateError(answer.error.message)) && r.callback == NotCalled
        && r.mode == mode
    ensures r.request.SignUpRequest? && answer.Success? ==>
      r.mode == SignInMode && r.cleared && r.error.None?
    ensures r.callback.CalledWith? <==> mode == SignInMode && answer.Success?
    ensures r.callback.CalledWith? ==>
      (r.callback.referenceId.Some? <==> pending.Some? && answer.value.user.Some?)
    ensures r.callback.CalledWith? && r.callback.referenceId.Some? ==>
      StartsWith(r.callback.referenceId.value, "webhook_")
  {
    if mode == SignUpMode then
      if OrEmpty(c.fullName) == "" then
        AuthFormOutcome(NoRequest, mode, Some(FullNameRequiredMessage), NotCalled, false, false)
      else
        var request := SignUpRequest(c.email, c.password, c.fullName.value, pending);
        if answer.Failure? then
          AuthFormOutcome(request, mode, Some(TranslateError(answer.error.message)), NotCalled, false, false)
        else AuthFormOutcome(request, SignInMode, None, NotCalled, true, false)
    else
      assert mode == SignInMode;
      var request := SignInRequest(c.email, c.password);
      if answer.Failure? then
        AuthFormOutcome(request, mode, Some(TranslateError(answer.error.message)), NotCalled, false, false)
      else
        var id := if pending.Some? && answer.value.user.Some? then Some(WebhookReference(stamp, random))
                  else None;
        AuthFormOutcome(request, mode, None, CalledWith(id), false, false)
  }

  /** `toggleMode`: flips the mode, clears the error and the inputs. */
  function ToggleMode(mode: Mode): (r: (Mode, Option<string>))
    ensures r.0 != mode
    ensures r.1.None?
  {
    (if mode == SignUpMode then SignInMode else SignUpMode, None)
  }

  /** Toggling twice returns to the starting mode. */
  lemma ToggleTwiceRestores(mode: Mode)
    ensures ToggleMode(ToggleMode(mode).0).0 == mode
  {
  }
}
