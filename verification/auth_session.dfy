/** The authentication hook of src/hooks/useAuth.ts: the `{user, session,
    loading}` state driven by the initial session fetch, the backend's
    session events and two watchdog timers; the best-effort profile sync;
    and the error contracts of sign-up, sign-in and sign-out. The auth
    backend's answers are inputs. */
module AuthSession {
  import opened Wrappers
  import opened FormModel
  import opened Backend
  import opened DbOperations
  import Webhook

  /** A backend session; `user` may be absent. */
  datatype Session = Session(user: Option<User>, accessToken: string)

  datatype AuthState = AuthState(user: Option<User>, session: Option<Session>, loading: bool)

  /** The state the hook starts in: nobody signed in, still loading. */
  const Initial: AuthState := AuthState(None, None, true)

  /** No user, no session, settled. */
  const Anonymous: AuthState := AuthState(None, None, false)

  /** How the initial `getSession` call, raced against a 5 second timer,
      ended. */
  datatype InitialFetch = Fetched(session: Option<Session>) | FetchError | RaceTimeout

  /** What can happen to the hook's state. `FallbackTimeout` is the 8 second
      timer armed on mount; `WatchdogTimeout` the 10 second timer re-armed
      whenever `loading` changes. */
  datatype AuthEvent =
    | InitialSession(fetch: InitialFetch)
    | AuthChange(change: Option<Session>)
    | FallbackTimeout
    | WatchdogTimeout

  /** The state a session hands over: signed in when it has a user,
      anonymous otherwise. */
  function FromSession(s: Option<Session>): (r: AuthState)
    ensures !r.loading
    ensures r.user.Some? <==> s.Some? && s.value.user.Some?
    ensures r.user.Some? ==> r.user == s.value.user && r.session == s
    ensures r.user.None? ==> r == Anonymous
  {
    if s.Some? && s.value.user.Some? then AuthState(s.value.user, s, false)
    else Anonymous
  }

  /** One transition of the hook. */
  function Step(s: AuthState, e: AuthEvent): (r: AuthState)
    ensures !r.loading
    ensures e.FallbackTimeout? || e.WatchdogTimeout? ==> r.user == s.user && r.session == s.session
    ensures e.InitialSession? && !e.fetch.Fetched? ==> r == Anonymous
    ensures e.AuthChange? ==> (r.user.Some? <==> e.change.Some? && e.change.value.user.Some?)
    ensures e.AuthChange? && e.change.Some? && e.change.value.user.Some? ==>
      r == AuthState(e.change.value.user, e.change, false)
    ensures e.AuthChange? && !(e.change.Some? && e.change.value.user.Some?) ==> r == Anonymous
    ensures e.InitialSession? && e.fetch.Fetched? ==>
      (e.fetch.session.Some? && e.fetch.session.value.user.Some? ==>
         r == AuthState(e.fetch.session.value.user, e.fetch.session, false))
    ensures e.InitialSession? && e.fetch.Fetched? ==>
      (!(e.fetch.session.Some? && e.fetch.session.value.user.Some?) ==> r == Anonymous)
  {
    match e
    case InitialSession(Fetched(session)) => FromSession(session)
    case InitialSession(_) => Anonymous
    case AuthChange(session) => FromSession(session)
    case FallbackTimeout => if s.loading then s.(loading := false) else s
    case WatchdogTimeout => if s.loading then s.(loading := false) else s
  }

  /** The user the hook asks `ensureUserProfile` to sync, if any: only a
      session event with a user triggers it. */
  function ProfileSyncFor(e: AuthEvent): (u: Option<User>)
    ensures u.Some? <==> e.AuthChange? && e.change.Some? && e.change.value.user.Some?
    ensures u.Some? ==> u == e.change.value.user
  {
    if e.AuthChange? && e.change.Some? then e.change.value.user else None
  }

  /** The user and the session always agree: either both are absent or the
      session carries that user. */
  predicate Consistent(s: AuthState) {
    (s.user.Some? <==> s.session.Some?) && (s.session.Some? ==> s.session.value.user == s.user)
  }

  /** The events applied in order. */
  function Run(s: AuthState, es: seq<AuthEvent>): AuthState
    decreases |es|
  {
    if |es| == 0 then s else Run(Step(s, es[0]), es[1..])
  }

  /** Every transition keeps the user and the session in agreement. */
  lemma StepKeepsConsistent(s: AuthState, e: AuthEvent)
    requires Consistent(s)
    ensures Consistent(Step(s, e))
  {
  }

  lemma {:induction false} RunKeepsConsistent(s: AuthState, es: seq<AuthEvent>)
    requires Consistent(s)
    ensures Consistent(Run(s, es))
    decreases |es|
  {
    if |es| > 0 {
      StepKeepsConsistent(s, es[0]);
      RunKeepsConsistent(Step(s, es[0]), es[1..]);
    }
  }

  /** Starting from the initial state, the hook is loading exactly until the
      first event of any kind arrives. */
  lemma {:induction false} LoadingUntilFirstEvent(es: seq<AuthEvent>)
    ensures Run(Initial, es).loading <==> |es| == 0
  {
    if |es| > 0 {
      SettledStaysSettled(Step(Initial, es[0]), es[1..]);
    }
  }

  /** Once settled, no event makes the hook load again. */
  lemma {:induction false} SettledStaysSettled(s: AuthState, es: seq<AuthEvent>)
    requires !s.loading
    ensures !Run(s, es).loading
    decreases |es|
  {
    if |es| > 0 {
      SettledStaysSettled(Step(s, es[0]), es[1..]);
    }
  }

  /** The timers only end loading: once settled they change nothing. */
  lemma TimeoutsAreNoOpsOnceSettled(s: AuthState)
    requires !s.loading
    ensures Step(s, FallbackTimeout) == s
    ensures Step(s, WatchdogTimeout) == s
  {
  }

  /** Repeating a session event, or the initial fetch's result, changes
      nothing further. */
  lemma SessionEventsAreIdempotent(s: AuthState, e: AuthEvent)
    requires e.AuthChange? || e.InitialSession?
    ensures Step(Step(s, e), e) == Step(s, e)
  {
  }

  /** The state after a sequence ending with a session event is decided by
      that event alone, whatever came before. */
  lemma {:induction false} LastSessionEventDecides(s: AuthState, es: seq<AuthEvent>, e: AuthEvent)
    requires e.AuthChange? || e.InitialSession?
    ensures Run(s, es + [e]) == Step(Initial, e)
    decreases |es|
  {
    if |es| == 0 {
      assert es + [e] == [e];
    } else {
      assert (es + [e])[1..] == es[1..] + [e];
      LastSessionEventDecides(Step(s, es[0]), es[1..], e);
    }
  }

  /** `ensureUserProfile(user)`: the existence check uses `.maybeSingle()`
      (no row is not an error, several are). When no row was found, or the
      check failed, a row is inserted with the user's email and metadata
      name (`""` when absent); otherwise the row's email and name are
      overwritten. A failed write is only logged and nothing ever throws,
      so the result is just the table afterwards. */
  function EnsureUserProfile(p: Profiles, user: User, fetchFault: Option<DbError>,
                             writeFault: Option<DbError>, now: int): (r: Profiles)
    ensures writeFault.Some? ==> r == p
    ensures writeFault.None? ==> exists q :: q in r && q.id == user.id
    ensures |r| == |p| || (|r| == |p| + 1 && r[..|p|] == p)
    ensures writeFault.None? && (fetchFault.Some? || |ProfilesWithId(p, user.id)| != 1) ==>
      r == if |ProfilesWithId(p, user.id)| == 0
           then p + [UserProfile(user.id, OrEmpty(user.email), Some(OrEmpty(user.metadataFullName)), now, now)]
           else p
    ensures fetchFault.None? && writeFault.None? && |ProfilesWithId(p, user.id)| == 1 ==>
      |r| == |p| && forall i :: 0 <= i < |p| ==>
        if p[i].id == user.id then
          r[i] == p[i].(email := OrEmpty(user.email), fullName := Some(OrEmpty(user.metadataFullName)))
        else r[i] == p[i]
  {
    var email := OrEmpty(user.email);
    var fullName := OrEmpty(user.metadataFullName);
    var existing: Result<Option<UserProfile>, DbError> :=
      match fetchFault
      case Some(e) => Failure(e)
      case None => MaybeSingle(ProfilesWithId(p, user.id));
    if existing.Failure? || existing.value.None? then
      if writeFault.Some? then p
      else
        var ins := InsertProfile(p, UserProfile(user.id, email, Some(fullName), now, now));
        if ins.out.Success? then
          assert ins.profiles[|p|].id == user.id;
          assert ins.profiles[..|p|] == p;
          ins.profiles
        else
          assert exists q :: q in p && q.id == user.id;
          p
    else
      assert existing.value.value in ProfilesWithId(p, user.id);
      UpdateUserProfile(p, user.id, ProfilePatch(Some(email), Some(fullName)), writeFault).profiles
  }

  /** A user with at most one profile row has exactly one once the sync's
      write goes through, whether the existence check worked or not. */
  lemma EnsureUserProfileKeepsOneProfile(p: Profiles, user: User, fetchFault: Option<DbError>,
                                         now: int)
    requires |ProfilesWithId(p, user.id)| <= 1
    ensures |ProfilesWithId(EnsureUserProfile(p, user, fetchFault, None, now), user.id)| == 1
  {
    var r := EnsureUserProfile(p, user, fetchFault, None, now);
    if |ProfilesWithId(p, user.id)| == 0 {
      AppendToMissingIsOnly(p, UserProfile(user.id, OrEmpty(user.email),
                                           Some(OrEmpty(user.metadataFullName)), now, now));
    } else if fetchFault.None? {
      SameIdsSameCount(p, r, user.id);
    }
  }

  /** `.maybeSingle()`: no row is `null`, one row is that row, more than one
      is an error. */
  function MaybeSingle<T>(rows: seq<T>): (r: Result<Option<T>, DbError>)
    ensures r.Success? <==> |rows| <= 1
    ensures r.Success? && r.value.Some? ==> |rows| == 1 && r.value.value == rows[0]
    ensures r.Success? && r.value.None? ==> |rows| == 0
  {
    if |rows| == 0 then Success(None)
    else if |rows| == 1 then Success(Some(rows[0]))
    else Failure(DbError(NoRowsCode))
  }

  /** An error from the auth backend; `message` is `None` when it has none. */
  datatype AuthError = AuthError(message: Option<string>)

  /** The `data` of a sign-up or sign-in answer. */
  datatype AuthData = AuthData(user: Option<User>, session: Option<Session>)

  /** What `signUp` did besides returning. */
  datatype SignUpEffect =
    | ProfileEnsured(user: User)
    | WebhookSent(delivery: Webhook.Delivery)

  datatype SignUpOutcome = SignUpOutcome(
    profiles: Profiles,
    effects: seq<SignUpEffect>,
    result: Result<AuthData, AuthError>)

  /** `signUp(email, password, fullName, formData)`. The auth backend's
      answer is given (`answer`); an error is rethrown with no other effect.
      With a user, the profile is ensured first and the signup notification
      sent after; the notification's outcome is ignored. The answer's data
      is returned unchanged. */
  function SignUp(p: Profiles, email: string, fullName: string, formData: Option<Answers>,
                  answer: Result<AuthData, AuthError>, fetchFault: Option<DbError>,
                  writeFault: Option<DbError>, now: int, timestamp: string,
                  probe: Webhook.ProbeOutcome, post: Webhook.PostOutcome): (r: SignUpOutcome)
    ensures r.result == answer
    ensures answer.Failure? ==> r.profiles == p && r.effects == []
    ensures answer.Success? && answer.value.user.None? ==> r.profiles == p && r.effects == []
    ensures answer.Success? && answer.value.user.Some? ==>
      var u := answer.value.user.value;
      && |r.effects| == 2
      && r.effects[0] == ProfileEnsured(u)
      && r.effects[1].WebhookSent?
      && Webhook.Post(Webhook.SignupPayload(u.id, email, fullName, formData, timestamp))
         in r.effects[1].delivery.requests
      && r.profiles == EnsureUserProfile(p, u, fetchFault, writeFault, now)
  {
    match answer
    case Failure(e) => SignUpOutcome(p, [], Failure(e))
    case Success(data) =>
      if data.user.None? then SignUpOutcome(p, [], answer)
      else
        var u := data.user.value;
        var profiles := EnsureUserProfile(p, u, fetchFault, writeFault, now);
        var payload := Webhook.SignupPayload(u.id, email, fullName, formData, timestamp);
        var delivery := Webhook.SendWebhook(payload, probe, post);
        SignUpOutcome(profiles, [ProfileEnsured(u), WebhookSent(delivery)], answer)
  }

  /** A failed notification never fails sign-up: the outcome of the `POST`
      changes nothing but the recorded delivery. */
  lemma SignUpIgnoresWebhookOutcome(p: Profiles, email: string, fullName: string,
                                    formData: Option<Answers>, answer: Result<AuthData, AuthError>,
                                    fetchFault: Option<DbError>, writeFault: Option<DbError>,
                                    now: int, timestamp: string, probe: Webhook.ProbeOutcome,
                                    post1: Webhook.PostOutcome, post2: Webhook.PostOutcome)
    ensures var a := SignUp(p, email, fullName, formData, answer, fetchFault, writeFault,
                            now, timestamp, probe, post1);
            var b := SignUp(p, email, fullName, formData, answer, fetchFault, writeFault,
                            now, timestamp, probe, post2);
            a.result == b.result && a.profiles == b.profiles && |a.effects| == |b.effects|
  {
  }

  /** The raw answer of `signInWithPassword`: data and error side by side. */
  datatype AuthAnswer = AuthAnswer(data: AuthData, error: Option<AuthError>)

  /** `signIn(email, password)`: throws the backend's error, otherwise
      returns its data unchanged. */
  function SignIn(answer: AuthAnswer): (r: Result<AuthData, AuthError>)
    ensures r.Failure? <==> answer.error.Some?
    ensures r.Failure? ==> r.error == answer.error.value
    ensures r.Success? ==> r.value == answer.data
  {
    match answer.error
    case Some(e) => Failure(e)
    case None => Success(answer.data)
  }

  /** `signOut()`: never writes the hook's state (the session event that
      follows does); a backend error is rethrown. */
  function SignOut(s: AuthState, error: Option<AuthError>): (r: (AuthState, Result<(), AuthError>))
    ensures r.0 == s
    ensures r.1.Failure? <==> error.Some?
    ensures r.1.Failure? ==> r.1.error == error.value
  {
    (s, if error.Some? then Failure(error.value) else Success(()))
  }

  /** A successful sign-out followed by the backend's session-less event
      leaves the hook anonymous and settled, whoever was signed in. */
  lemma SignOutThenEventIsAnonymous(s: AuthState)
    ensures var (after, res) := SignOut(s, None);
      res.Success? && Step(after, AuthChange(None)) == Anonymous
  {
  }
}
