/** The top-level screen machine of src/App.tsx: which screen is shown,
    the answers held for an anonymous visitor while they authenticate, the
    reference shown on the success screen, and the auth form's mode. */
module AppMachine {
  import opened Wrappers
  import opened FormModel
  import EligibilityForm
  import AuthForm
  import AuthSession

  datatype Screen = FormScreen | AuthScreen | SuccessScreen | DashboardScreen

  datatype App = App(screen: Screen, pending: Option<Answers>, reference: string,
                     authType: AuthForm.AuthType)

  /** The state on first render. */
  const Initial: App := App(FormScreen, None, "", AuthForm.Login)

  /** The effect on `[user, loading]`: nothing while loading; a signed-in
      user is sent to the dashboard with everything else kept; without a
      user every piece of state is reset. */
  function OnAuth(a: App, loading: bool, signedIn: bool): (r: App)
    ensures loading ==> r == a
    ensures !loading && signedIn ==> r == a.(screen := DashboardScreen)
    ensures !loading && !signedIn ==> r == Initial
  {
    if loading then a
    else if signedIn then a.(screen := DashboardScreen)
    else App(FormScreen, None, "", AuthForm.Login)
  }

  /** `handleFormSubmissionSuccess`. */
  function FormSubmissionSuccess(a: App, referenceId: string): (r: App)
    ensures r == a.(screen := SuccessScreen, reference := referenceId, pending := None)
  {
    App(SuccessScreen, None, referenceId, a.authType)
  }

  /** `handleAuthRequired`: hold the answers and ask for a new account. */
  function AuthRequired(a: App, x: Answers): (r: App)
    ensures r == a.(screen := AuthScreen, pending := Some(x), authType := AuthForm.SignUpType)
  {
    App(AuthScreen, Some(x), a.reference, AuthForm.SignUpType)
  }

  /** `handleShowAuth`: the layout's header buttons. */
  function ShowAuth(a: App, t: AuthForm.AuthType): (r: App)
    ensures r == a.(screen := AuthScreen, authType := t)
  {
    App(AuthScreen, a.pending, a.reference, t)
  }

  /** `handleAuthSuccess`: a truthy reference goes to the success screen,
      anything else to the dashboard; the held answers are kept either way. */
  function AuthSuccess(a: App, referenceId: Option<string>): (r: App)
    ensures r.pending == a.pending && r.authType == a.authType
    ensures r.screen == SuccessScreen <==> referenceId.Some? && referenceId.value != ""
    ensures r.screen != SuccessScreen ==> r == a.(screen := DashboardScreen)
    ensures r.screen == SuccessScreen ==> r.reference == referenceId.value
  {
    if referenceId.Some? && referenceId.value != "" then
      a.(screen := SuccessScreen, reference := referenceId.value)
    else a.(screen := DashboardScreen)
  }

  /** `handleStartNew`: back to the dashboard with nothing held. */
  function StartNew(a: App): (r: App)
    ensures r == a.(screen := DashboardScreen, pending := None, reference := "")
  {
    App(DashboardScreen, None, "", a.authType)
  }

  /** What the app renders. While loading only a spinner is shown; the auth
      and success screens are shown without the layout. Only the auth form
      is given the held answers. */
  datatype Content =
    | FormPage
    | AuthPage(authType: AuthForm.AuthType, pending: Option<Answers>)
    | SuccessPage(referenceId: string)
    | DashboardPage

  datatype View = Spinner | Page(content: Content, withLayout: bool)

  function Render(a: App, loading: bool): (v: View)
    ensures loading <==> v == Spinner
    ensures v.Page? ==> (v.withLayout <==> a.screen == FormScreen || a.screen == DashboardScreen)
    ensures v.Page? && v.content.AuthPage? ==> v.content.pending == a.pending
    ensures v.Page? ==>
      && (v.content == FormPage <==> a.screen == FormScreen)
      && (v.content == DashboardPage <==> a.screen == DashboardScreen)
      && (v.content.AuthPage? <==> a.screen == AuthScreen)
      && (v.content.SuccessPage? <==> a.screen == SuccessScreen)
      && (v.content.AuthPage? ==> v.content.authType == a.authType)
      && (v.content.SuccessPage? ==> v.content.referenceId == a.reference)
  {
    if loading then Spinner
    else
      var content := match a.screen
        case FormScreen => FormPage
        case AuthScreen => AuthPage(a.authType, a.pending)
        case SuccessScreen => SuccessPage(a.reference)
        case DashboardScreen => DashboardPage;
      Page(content, a.screen != AuthScreen && a.screen != SuccessScreen)
  }

  /** Something that can happen to the app: the auth effect running with a
      new `(loading, user)` pair, or one of the handlers being called. */
  datatype Event =
    | AuthChanged(loading: bool, signedIn: bool)
    | SubmissionSucceeded(referenceId: string)
    | AuthWanted(data: Answers)
    | HeaderAuth(authType: AuthForm.AuthType)
    | Authenticated(returned: Option<string>)
    | StartedNew

  /** The app together with the last auth state it saw. */
  datatype Machine = Machine(app: App, loading: bool, signedIn: bool)

  /** Whether the effect on `[user, loading]` runs for an auth change: the
      hook hands over a new user object on every event that carries one, but
      `null` again with an unchanged `loading` changes neither dependency. */
  predicate EffectRuns(m: Machine, loading: bool, signedIn: bool) {
    signedIn || m.signedIn || loading != m.loading
  }

  /** One event. While loading nothing but the spinner is on screen, so no
      handler can be called and only an auth change has an effect; an auth
      change that leaves both dependencies as they were does nothing. */
  function Step(m: Machine, e: Event): (r: Machine)
    ensures !e.AuthChanged? ==> r.loading == m.loading && r.signedIn == m.signedIn
    ensures !e.AuthChanged? && m.loading ==> r == m
    ensures e.AuthChanged? ==> r.loading == e.loading && r.signedIn == e.signedIn
    ensures e.AuthChanged? && !EffectRuns(m, e.loading, e.signedIn) ==> r == m
    ensures e.AuthChanged? && EffectRuns(m, e.loading, e.signedIn) ==>
      r.app == OnAuth(m.app, e.loading, e.signedIn)
  {
    match e
    case AuthChanged(l, u) =>
      if EffectRuns(m, l, u) then Machine(OnAuth(m.app, l, u), l, u) else m
    case _ =>
      if m.loading then m
      else
        var a := match e
          case SubmissionSucceeded(ref) => FormSubmissionSuccess(m.app, ref)
          case AuthWanted(x) => AuthRequired(m.app, x)
          case HeaderAuth(t) => ShowAuth(m.app, t)
          case Authenticated(ref) => AuthSuccess(m.app, ref)
          case StartedNew => StartNew(m.app)
          case AuthChanged(_, _) => m.app;
        m.(app := a)
  }

  function Run(m: Machine, events: seq<Event>): Machine
    decreases |events|
  {
    if |events| == 0 then m else Run(Step(m, events[0]), events[1..])
  }

  /** Both success callers hand over a non-empty reference. */
  predicate WellFormedEvent(e: Event) {
    e.SubmissionSucceeded? ==> e.referenceId != ""
  }

  /** Held answers are never shown on the assessment screen (the only way
      back to it clears them), and the success screen always has a
      reference to show. */
  predicate Invariant(a: App) {
    && (a.pending.Some? ==> a.screen != FormScreen)
    && (a.screen == SuccessScreen ==> a.reference != "")
  }

  lemma InitialSatisfiesInvariant()
    ensures Invariant(Initial)
    ensures Render(Initial, false) == Page(FormPage, true)
  {
  }

  lemma StepKeepsInvariant(m: Machine, e: Event)
    requires Invariant(m.app) && WellFormedEvent(e)
    ensures Invariant(Step(m, e).app)
  {
  }

  lemma {:induction false} RunKeepsInvariant(m: Machine, events: seq<Event>)
    requires Invariant(m.app)
    requires forall i :: 0 <= i < |events| ==> WellFormedEvent(events[i])
    ensures Invariant(Run(m, events).app)
    decreases |events|
  {
    if |events| > 0 {
      StepKeepsInvariant(m, events[0]);
      assert forall i :: 0 <= i < |events| - 1 ==> events[1..][i] == events[i + 1];
      RunKeepsInvariant(Step(m, events[0]), events[1..]);
    }
  }

  /** Signing out, from any signed-in or loading state, is a full return to
      the first screen, so a second sign-out event changes nothing. */
  lemma SignOutResets(m: Machine)
    requires m.signedIn || m.loading
    ensures Step(m, AuthChanged(false, false)).app == Initial
    ensures Step(Step(m, AuthChanged(false, false)), AuthChanged(false, false))
         == Step(m, AuthChanged(false, false))
  {
  }

  /** A repeated event without a user, once loading is over, does not re-run
      the effect: answers held for a visitor on the sign-up form survive it. */
  lemma RepeatedSignedOutEventKeepsHeldAnswers(x: Answers)
    ensures var m := Run(Machine(Initial, true, false),
                         [AuthChanged(false, false), AuthWanted(x), AuthChanged(false, false)]);
      m.app.screen == AuthScreen && m.app.pending == Some(x)
  {
    var m0 := Machine(Initial, true, false);
    var m1 := Step(m0, AuthChanged(false, false));
    var m2 := Step(m1, AuthWanted(x));
    assert Run(m2, [AuthChanged(false, false)]) == Step(m2, AuthChanged(false, false));
    assert Run(m0, [AuthChanged(false, false), AuthWanted(x), AuthChanged(false, false)])
        == Run(m2, [AuthChanged(false, false)]);
  }

  /** The event that ends loading decides the first real screen: the
      dashboard for a user, the assessment form otherwise. */
  lemma LoadingEndsOnDecidedScreen(m: Machine, signedIn: bool)
    requires m.loading
    ensures Step(m, AuthChanged(false, signedIn)).app.screen ==
      if signedIn then DashboardScreen else FormScreen
  {
  }

  /** The event the assessment form's callback becomes. */
  function FromFormCallback(c: EligibilityForm.Callback): (e: Option<Event>)
    ensures c.AuthRequired? ==> e == Some(AuthWanted(c.data))
    ensures c.SubmissionSuccess? ==> e == Some(SubmissionSucceeded(c.referenceId))
    ensures c.NoCallback? ==> e.None?
  {
    match c
    case NoCallback => None
    case AuthRequired(x) => Some(AuthWanted(x))
    case SubmissionSuccess(ref) => Some(SubmissionSucceeded(ref))
  }

  /** The assessment form's success callback always meets the app's
      expectation of a non-empty reference. */
  lemma FormCallbacksAreWellFormed(user: Option<User>, x: Answers, call: EligibilityForm.CallOutcome)
    ensures var e := FromFormCallback(EligibilityForm.OnSubmit(user, x, call).callback);
      e.Some? ==> WellFormedEvent(e.value)
  {
  }

  /** An anonymous visitor's submission reaches the auth form, in sign-up
      mode, holding exactly the answers submitted. */
  lemma AnonymousSubmitReachesSignUp(m: Machine, x: Answers, call: EligibilityForm.CallOutcome)
    requires !m.loading && m.app.screen == FormScreen
    ensures var e := FromFormCallback(EligibilityForm.OnSubmit(None, x, call).callback);
      && e.Some?
      && Render(Step(m, e.value).app, false) == Page(AuthPage(AuthForm.SignUpType, Some(x)), false)
  {
  }

  /** The event the auth form's success call becomes. */
  function FromAuthCallback(c: AuthForm.SuccessCall): (e: Option<Event>)
    ensures c.CalledWith? <==> e.Some?
    ensures c.CalledWith? ==> e == Some(Authenticated(c.referenceId))
  {
    match c
    case NotCalled => None
    case CalledWith(ref) => Some(Authenticated(ref))
  }

  /** Signing in with held answers shows the success screen with the
      fabricated reference, until the auth change that the sign-in also
      causes moves the app on to the dashboard, still holding the answers. */
  lemma SignInWithPendingAnswers(m: Machine, c: AuthForm.Credentials, x: Answers,
                                 data: AuthSession.AuthData, stamp: string, random: string)
    requires !m.loading && m.app.pending == Some(x)
    requires data.user.Some?
    ensures var out := AuthForm.OnSubmit(AuthForm.SignInMode, c, Some(x), Success(data), stamp, random);
            var e := FromAuthCallback(out.callback);
      && e.Some?
      && var m1 := Step(m, e.value);
      && m1.app.screen == SuccessScreen
      && m1.app.reference == AuthForm.WebhookReference(stamp, random)
      && var m2 := Step(m1, AuthChanged(false, true));
      && m2.app.screen == DashboardScreen && m2.app.pending == Some(x)
  {
  }
}
