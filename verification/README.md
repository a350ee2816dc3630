# Immigration eligibility lead intake — a Dafny model

The application is a single-page React app for a Canadian immigration
consultancy. A visitor fills in a 25-question eligibility assessment. An
anonymous visitor is asked to create an account first, and the answers are
held while they do. A signed-in visitor's answers are stored as a submission
row, grouped into six JSON objects, in a managed Postgres backend. A
notification webhook is fired on sign-up and on submission. A signed-in
user's dashboard prefills the form from their latest submission and lists
their history.

This project models the core of that app as pure functions over immutable
data, and proves properties about it:

- **`FormModel`** (`form_model.dfy`): the answer set and the JavaScript
  values it holds. Truthiness and `||` are modelled exactly, because every
  decoder and prefill step relies on them.
- **`SubmissionMapper`** (`submission_mapper.dfy`): the flat-to-nested
  mapper of `src/lib/eligibilitySubmissions.ts` and its tolerant inverse,
  with the source's `null` case modelled separately.
- **`Backend`** (`backend.dfy`): the submissions table. It covers equality
  filters, newest-first ordering, `.single()` with its `PGRST116` code, and
  filtered updates.
- **`SubmissionStore`** (`submission_store.dfy`): the repository. It lists,
  fetches the latest, saves (update or create) and deletes, always scoped
  by the caller's id.
- **`DbOperations`** (`db_operations.dfy`): `createUserProfile` and the
  `dbOperations` helpers of `src/lib/supabase.ts`. None of them ever throws.
- **`Webhook`** (`webhook.dfy`): the payload builders and the delivery
  attempt.
- **`AuthSession`** (`auth_session.dfy`): the `useAuth` hook. It covers the
  `{user, session, loading}` transitions, the profile sync, and sign-up,
  sign-in and sign-out.
- **`EmailPattern`** (`email_pattern.dfy`): the e-mail regular expression
  both forms use. It is stated as a pattern and checked by a two-index scan
  that is proved equivalent to it.
- **`EligibilityForm`**, **`AuthForm`** and **`Dashboard`**
  (`eligibility_form.dfy`, `auth_form.dfy`, `dashboard.dfy`): the input
  rules and submit handlers of the three components.
- **`AppMachine`** (`app_machine.dfy`): the screen machine of `src/App.tsx`.

The model does not use the network, the clock or randomness. A backend
error, a generated id, a timestamp, a `Math.random` string or the outcome of
an HTTP request is always a parameter. "The backend reported error `e`" is
written `fault == Some(e)`. A thrown exception is a `Failure`.

## Model

| member | source | states |
|---|---|---|
| FormModel.Or | src/components/Dashboard.tsx:60-83 | `v \|\| d` is `v` when `v` is truthy and `d` otherwise |
| FormModel.OrElse | src/components/Dashboard.tsx:216-217 | `o \|\| d` on an optional string also replaces the empty string |
| FormModel.ToAnswers | src/types/form.ts:1-38 | the typed answer set as a plain object: exactly the present answers, each with its value |
| FormModel.TypedAnswerShapes | src/types/form.ts:1-38 | yes/no answers hold "yes" or "no"; the regulated-profession answer holds one of three words |
| FormModel.OptionalAnswersExactlyFive | src/types/form.ts:1-38 | the 20 non-optional answers are always present; with no optional answer given, exactly the 5 optional keys are missing |
| FormModel.GroupOf | src/lib/eligibilitySubmissions.ts:27-67 | each answer is stored in a group whose object literal lists it |
| FormModel.GroupListingIsUnique | src/lib/eligibilitySubmissions.ts:27-67 | no answer is listed by two group objects, so the listing decides the group |
| SubmissionMapper.Slice | src/lib/eligibilitySubmissions.ts:27-67 | a group holds exactly the answers that belong to it, unchanged |
| SubmissionMapper.Encode | src/lib/eligibilitySubmissions.ts:27-67 | each of the six groups is the slice of the answers owned by it |
| SubmissionMapper.EncodePlacesEachAnswerOnce | src/lib/eligibilitySubmissions.ts:27-67 | an answer lands in its own group and in no other |
| SubmissionMapper.AsStructured | src/lib/eligibilitySubmissions.ts:27-67 | groups written as objects read back as those objects |
| SubmissionMapper.AsText | src/lib/eligibilitySubmissions.ts:70-80 | groups written as JSON text read back through a successful parse |
| SubmissionMapper.SafeParseJson | src/lib/eligibilitySubmissions.ts:70-80 | an object passes through; a falsy value or unparsable text gives `{}`; only the text `null` gives null |
| SubmissionMapper.Default | src/lib/eligibilitySubmissions.ts:83-134 | the fallback per answer kind: "no" for yes/no, "not-sure" for the regulated profession, `[]` for the reason to immigrate, "" for text |
| SubmissionMapper.DefaultIsTruthyUnlessEmptyString | src/lib/eligibilitySubmissions.ts:83-134 | every default but the text default is truthy, so decoding twice gives the same result |
| SubmissionMapper.Decode | src/lib/eligibilitySubmissions.ts:83-134 | the corrected decoder is total: all 25 answers are present, each the stored truthy value or its default |
| SubmissionMapper.DecodeAsWritten | src/lib/eligibilitySubmissions.ts:70-134 | the decoder as written: it throws only on a group stored as the text `null`, and when it returns, it returns what `Decode` does |
| SubmissionMapper.DecodeAsWrittenThrowsOnlyOnNullText | src/lib/eligibilitySubmissions.ts:70-134 | the decoder as written throws exactly when some group is the text `null`, and otherwise agrees with `Decode` |
| SubmissionMapper.NullTextCounterexample | src/lib/eligibilitySubmissions.ts:70-90 | a personal group stored as the text `null` makes the as-written decoder throw, while `Decode` returns all defaults |
| SubmissionMapper.FieldRoundTrip | src/lib/eligibilitySubmissions.ts:27-134 | each answer of a complete set reads back from its group, stored as an object or as text |
| SubmissionMapper.RoundTrip | src/lib/eligibilitySubmissions.ts:27-134 | decode after encode is the identity on complete answer sets, for object and text storage |
| SubmissionMapper.TypedRoundTrip | src/lib/eligibilitySubmissions.ts:27-134 | a fully answered typed form survives encode then decode |
| SubmissionMapper.DecodeIdempotent | src/lib/eligibilitySubmissions.ts:27-134 | re-encoding and decoding a decoded answer set changes nothing |
| SubmissionMapper.DecodeEmptyIsAllDefaults | src/lib/eligibilitySubmissions.ts:83-134 | a record with no groups decodes to all defaults and does not throw |
| SubmissionMapper.MalformedGroupIsolated | src/lib/eligibilitySubmissions.ts:70-80 | unparsable text in one group defaults only that group's answers |
| SubmissionMapper.ComponentEncode | src/components/EligibilityForm.tsx:37-75 | the forms' inline grouping is `Encode` minus the language level and the settlement amount |
| SubmissionMapper.ComponentRoundTrip | src/components/EligibilityForm.tsx:37-75 | for any answers: those two read back empty; every other answer reads back as given when truthy and as its default otherwise |
| Backend.Filter | src/lib/eligibilitySubmissions.ts:146-148 | an equality filter keeps exactly the matching rows, with their multiplicities |
| Backend.Owned | src/lib/eligibilitySubmissions.ts:146-148 | `.eq("user_id", …)` keeps exactly the caller's rows |
| Backend.TargetsSplitLength | src/lib/eligibilitySubmissions.ts:302-306 | every row is either matched by the delete filter or kept |
| Backend.InsertNewest | src/lib/eligibilitySubmissions.ts:146-148 | insertion keeps newest-first order and adds exactly one row |
| Backend.SortNewestFirst | src/lib/eligibilitySubmissions.ts:146-148 | `.order("created_at", desc)` returns a newest-first permutation of its input |
| Backend.SelectOwned | src/lib/eligibilitySubmissions.ts:144-148 | the query returns exactly the caller's rows, newest first |
| Backend.Single | src/lib/eligibilitySubmissions.ts:178-187 | `.single()` succeeds exactly on one row; otherwise it reports `PGRST116` |
| Backend.UpdateWhere | src/lib/eligibilitySubmissions.ts:212-226 | a filtered update changes exactly the matching rows and keeps the length |
| SubmissionStore.UpperChar | src/lib/eligibilitySubmissions.ts:5-9 | upper-casing leaves no lower-case letter and keeps other characters |
| SubmissionStore.ToUpperCase | src/lib/eligibilitySubmissions.ts:5-9 | upper-casing is applied position by position |
| SubmissionStore.ToUpperCaseConcat | src/lib/eligibilitySubmissions.ts:5-9 | upper-casing distributes over concatenation |
| SubmissionStore.GenerateReferenceId | src/lib/eligibilitySubmissions.ts:5-9 | the id is `IEA-` + time + `-` + random, upper-cased, with no lower-case letter |
| SubmissionStore.FetchUserSubmissions | src/lib/eligibilitySubmissions.ts:137-163 | exactly the caller's rows, newest first; a backend error is rethrown |
| SubmissionStore.FetchLatestSubmission | src/lib/eligibilitySubmissions.ts:166-196 | the caller's newest row; null when they have none or on `PGRST116`; other errors rethrown |
| SubmissionStore.SaveSubmission | src/lib/eligibilitySubmissions.ts:199-272 | a failure leaves the table unchanged; a backend error is rethrown |
| SubmissionStore.UpdateTouchesOnlyTarget | src/lib/eligibilitySubmissions.ts:209-235 | an update rewrites only the caller's row with that reference (groups and `updated_at`) and fails when there is no such row |
| SubmissionStore.CreateAppendsOneRow | src/lib/eligibilitySubmissions.ts:236-267 | a create appends one row owned by the caller under an upper-case `IEA-` reference |
| SubmissionStore.SavedAnswersReadBack | src/lib/eligibilitySubmissions.ts:199-272 | a saved complete answer set decodes back unchanged |
| SubmissionStore.DeleteSubmission | src/lib/eligibilitySubmissions.ts:275-324 | succeeds exactly when the caller owns one row with that reference; it removes exactly that row |
| DbOperations.ProfilesWithId | src/lib/supabase.ts:27-31 | `.eq("id", …)` keeps exactly the profiles with that id |
| DbOperations.InsertProfile | src/lib/supabase.ts:44-65 | an insert succeeds exactly when the id is free; a duplicate leaves the table unchanged |
| DbOperations.CreateUserProfile | src/lib/supabase.ts:14-73 | an existing profile is returned as is; a check error other than `PGRST116` is returned; otherwise one row is inserted |
| DbOperations.CreateUserProfileInsertsOnlyWhenMissing | src/lib/supabase.ts:14-73 | a missing profile is created, and an existing one is never duplicated |
| DbOperations.GetUserProfile | src/lib/supabase.ts:78-131 | a found row is returned; on `PGRST116` with a signed-in user the result and table are those of `createUserProfile` with the account e-mail and metadata name; everything else gives null without writing |
| DbOperations.GetUserProfileCreatesMissing | src/lib/supabase.ts:78-131 | reading a missing profile of a signed-in user appends and returns the new row |
| DbOperations.Patched | src/lib/supabase.ts:133-153 | a patch replaces the given columns and keeps id and timestamps |
| DbOperations.UpdateUserProfile | src/lib/supabase.ts:133-153 | it reports success exactly when the backend raised no error, and patches only rows with that id |
| DbOperations.UpdateOfMissingProfileReportsSuccess | src/lib/supabase.ts:133-153 | updating a profile that does not exist changes nothing yet reports `true` |
| DbOperations.CreateSubmission | src/lib/supabase.ts:156-179 | on success one row is appended and its database reference returned; on error null and no change |
| DbOperations.GetUserSubmissions | src/lib/supabase.ts:181-199 | the caller's rows newest first, or `[]` on a backend error |
| DbOperations.WithReference | src/lib/supabase.ts:201-221 | `.eq("reference_id", …)` keeps exactly the rows with that reference |
| DbOperations.GetSubmissionByReference | src/lib/supabase.ts:201-221 | the one row with that reference, or null |
| DbOperations.SubmissionByReferenceIsUnscoped | src/lib/supabase.ts:201-221 | the lookup returns another user's row to anyone who knows its reference |
| Webhook.SendWebhook | src/lib/webhook.ts:12-96 | delivered exactly when the POST's response is ok with a JSON body; one probe then one POST of the payload |
| Webhook.ProbeIsIrrelevant | src/lib/webhook.ts:23-41 | the CORS probe's outcome changes nothing |
| Webhook.ExactlyOnePost | src/lib/webhook.ts:43-56 | exactly one POST is attempted |
| Webhook.SignupPayload | src/lib/webhook.ts:98-114 | the sign-up envelope carries the given identity and form, or null, tagged `signup` |
| Webhook.EligibilityFormPayload | src/lib/webhook.ts:116-132 | the eligibility envelope is tagged `form_completion` |
| Webhook.FormCompletionPayload | src/lib/webhook.ts:134-150 | the completion envelope is tagged `form_completion` |
| Webhook.EligibilityFormTagNeverEmitted | src/lib/webhook.ts:3-10 | the eligibility and completion envelopes are identical; the `eligibility_form` tag is never sent |
| AuthSession.FromSession | src/hooks/useAuth.ts:93-107 | a session with a user signs in; anything else is the anonymous state |
| AuthSession.Step | src/hooks/useAuth.ts:64-163 | every event settles loading; the timers never change the user; a failed or timed-out fetch is anonymous; a fetched or changed session with a user becomes that user and session, one without a user becomes anonymous |
| AuthSession.ProfileSyncFor | src/hooks/useAuth.ts:138-146 | the profile sync runs exactly for a session event carrying a user |
| AuthSession.StepKeepsConsistent | src/hooks/useAuth.ts:79-163 | user and session always agree after any event |
| AuthSession.RunKeepsConsistent | src/hooks/useAuth.ts:79-163 | that agreement holds over any event sequence |
| AuthSession.LoadingUntilFirstEvent | src/hooks/useAuth.ts:13-17 | from the start, the hook is loading exactly until the first event |
| AuthSession.SettledStaysSettled | src/hooks/useAuth.ts:64-163 | once settled, no event makes it load again |
| AuthSession.TimeoutsAreNoOpsOnceSettled | src/hooks/useAuth.ts:64-73 | both timers are no-ops once settled |
| AuthSession.SessionEventsAreIdempotent | src/hooks/useAuth.ts:132-163 | repeating a session event changes nothing further |
| AuthSession.LastSessionEventDecides | src/hooks/useAuth.ts:132-163 | the last session event alone decides the state |
| AuthSession.EnsureUserProfile | src/hooks/useAuth.ts:20-61 | missing profile, or a failed check with no profile: the row with the account e-mail, metadata name and `now` is appended; found profile: email and name overwritten; failed write or several rows: table unchanged |
| AuthSession.EnsureUserProfileKeepsOneProfile | src/hooks/useAuth.ts:20-61 | a user with at most one profile row has exactly one after a successful sync |
| AuthSession.MaybeSingle | src/hooks/useAuth.ts:27-31 | `.maybeSingle()` gives null for no row, the row for one, and an error for several |
| AuthSession.SignUp | src/hooks/useAuth.ts:172-247 | an error is rethrown with no effect; with a user the profile is ensured, then the sign-up notification posted; the data is returned |
| AuthSession.SignUpIgnoresWebhookOutcome | src/hooks/useAuth.ts:208-233 | the notification's outcome never changes sign-up's result or the profile table |
| AuthSession.SignIn | src/hooks/useAuth.ts:249-260 | the backend's error is thrown; otherwise its data is returned unchanged |
| AuthSession.SignOut | src/hooks/useAuth.ts:262-274 | sign-out leaves the state to the session event and rethrows an error |
| AuthSession.SignOutThenEventIsAnonymous | src/hooks/useAuth.ts:147-154 | a sign-out then the session-less event leaves the hook anonymous |
| EmailPattern.IsValidEmail | src/components/EligibilityForm.tsx:143-149 | acceptance implies the regular expression matches |
| EmailPattern.MatchIsAccepted | src/components/EligibilityForm.tsx:143-149 | every string the regular expression matches is accepted |
| EmailPattern.IsValidEmailMeansMatch | src/components/AuthForm.tsx:201-206 | the check and the regular expression agree on every string |
| EmailPattern.AcceptedHasOneAt | src/components/AuthForm.tsx:201-206 | an accepted address has exactly one `@` |
| EligibilityForm.Errors | src/components/EligibilityForm.tsx:120-782 | a required answer that is missing is reported; the e-mail pattern is tried only on a non-empty value |
| EligibilityForm.HiddenInputsNeverBlock | src/components/EligibilityForm.tsx:298-304 | an input that is not on screen never blocks submission |
| EligibilityForm.OptionalAnswersNeverBlock | src/components/EligibilityForm.tsx:555-561 | the optional answers never change the verdict |
| EligibilityForm.RequiredValidAnswersPass | src/components/EligibilityForm.tsx:120-782 | answers with every required input filled and a well-formed e-mail pass every rule, whatever the optional inputs hold |
| EligibilityForm.SubmissionFor | src/components/EligibilityForm.tsx:37-75 | the written row is owned by the user, marked submitted, every group an object |
| EligibilityForm.OnSubmit | src/components/EligibilityForm.tsx:25-88 | anonymous: answers go to `onAuthRequired` unchanged; signed in: success exactly on a truthy reference, otherwise one of two errors |
| EligibilityForm.SubmitToBackend | src/components/EligibilityForm.tsx:25-88 | anonymous: nothing written; the thrown-error message never appears; a failed insert writes nothing, fires no callback and shows the failure message |
| EligibilityForm.SubmitStoresAnswers | src/components/EligibilityForm.tsx:37-81 | with a working backend, one row is appended whose groups read back as the answers: truthy ones as given, others as defaults, the two unregistered ones empty |
| AuthForm.ModeFor | src/components/AuthForm.tsx:33-42 | sign-up mode exactly for the sign-up `type` |
| AuthForm.Includes | src/components/AuthForm.tsx:105-119 | `includes` holds exactly when the fragment occurs somewhere |
| AuthForm.FirstTranslation | src/components/AuthForm.tsx:99-122 | the text of the first entry whose fragment occurs, or the message itself |
| AuthForm.TranslateError | src/components/AuthForm.tsx:99-122 | the `if` chain is the first-match lookup in the five-entry table, with the generic text for a missing or empty message |
| AuthForm.UnrecognisedMessageShownVerbatim | src/components/AuthForm.tsx:99-122 | an unrecognised message is shown as is |
| AuthForm.EarlierFragmentWins | src/components/AuthForm.tsx:105-119 | a message including two fragments is shown as the earlier entry's text |
| AuthForm.CredentialErrors | src/components/AuthForm.tsx:167-235 | e-mail required and well formed; password at least 6 characters; name required only for sign-up |
| AuthForm.WebhookReference | src/components/AuthForm.tsx:86-97 | the fabricated id starts with `webhook_` |
| AuthForm.OnSubmit | src/components/AuthForm.tsx:51-127 | missing sign-up name stops early; sign-up success switches to sign-in; sign-in success calls back, with an id exactly when answers were held; errors translated |
| AuthForm.ToggleMode | src/components/AuthForm.tsx:129-133 | toggling flips the mode and clears the error |
| AuthForm.ToggleTwiceRestores | src/components/AuthForm.tsx:129-133 | toggling twice restores the mode |
| Dashboard.RawField | src/components/Dashboard.tsx:60-83 | a group read without parsing: text yields undefined |
| Dashboard.Fallback | src/components/Dashboard.tsx:60-61 | the name falls back to the profile name, the e-mail to the account's, each `""` when absent; other answers fall back to `""` |
| Dashboard.Prefill | src/components/Dashboard.tsx:57-95 | with a submission exactly the truthy prefilled answers are set, each to the latest row's value or its name/e-mail fallback; without one the name and e-mail are set even when empty |
| Dashboard.PrefillReadsLatestOnly | src/components/Dashboard.tsx:57-58 | only the newest submission matters |
| Dashboard.PrefillFallsBack | src/components/Dashboard.tsx:60-61 | a missing name or e-mail is set exactly when the profile name or account e-mail is non-empty, and then to that value |
| Dashboard.FallbackEntry | src/components/Dashboard.tsx:57-95 | an answer the latest submission leaves falsy is set exactly when its fallback is truthy, and then to the fallback |
| Dashboard.PrefillAgreesWithDecoder | src/components/Dashboard.tsx:60-90 | for object groups, each prefilled answer is what the repository's decoder reads back |
| Dashboard.TextGroupsArePrefilledEmpty | src/components/Dashboard.tsx:60-90 | a group stored as text prefills nothing |
| Dashboard.CountStatus | src/components/Dashboard.tsx:393-405 | the count is the length of the rows filtered by that status; zero exactly when no row has it |
| Dashboard.Summarize | src/components/Dashboard.tsx:393-405 | the total is the number of rows; submitted and drafts are the lengths of the rows filtered by `"submitted"` and `"draft"` |
| Dashboard.SubmittedPlusDraftsAtMostTotal | src/components/Dashboard.tsx:393-405 | submitted plus drafts never exceeds the total |
| Dashboard.Take | src/components/Dashboard.tsx:310 | `slice(0, k)` is the first `min(k, n)` rows |
| Dashboard.MoreNote | src/components/Dashboard.tsx:329-333 | the "more" line appears exactly past three rows |
| Dashboard.HistoryAccountsForAll | src/components/Dashboard.tsx:310-363 | the listed rows plus the count in the note account for every row; the history is a prefix of the recent activity |
| Dashboard.DraftFor | src/components/Dashboard.tsx:110-151 | a draft uses the form's grouping, marked draft |
| Dashboard.SaveDraftAsWritten | src/components/Dashboard.tsx:106-162 | as written, "saved" is shown whenever the call returns |
| Dashboard.SaveDraft | src/components/Dashboard.tsx:106-162 | corrected: "saved" exactly when a truthy reference came back |
| Dashboard.SaveDraftToBackend | src/components/Dashboard.tsx:106-162 | a backend error stores nothing, otherwise one draft row owned by the user is appended; as written "saved" is shown either way, corrected only when a truthy reference came back |
| Dashboard.FailedDraftReportedAsSaved | src/components/Dashboard.tsx:106-162 | as written, a failed insert stores nothing yet reports success |
| Dashboard.DraftMessageMatchesOutcome | src/components/Dashboard.tsx:106-162 | corrected: "saved" exactly when one draft row was stored |
| Dashboard.SubmitPayload | src/components/Dashboard.tsx:213-219 | the notification uses the account e-mail and metadata name, falling back to the answers |
| Dashboard.Submit | src/components/Dashboard.tsx:164-236 | the notification is sent exactly when the success callback fires, and posts that payload |
| Dashboard.SubmitMatchesFormHandler | src/components/Dashboard.tsx:164-236 | for a signed-in user, it writes, errs and calls back exactly as the assessment form does |
| Dashboard.NewAssessment | src/components/Dashboard.tsx:246-251 | the reset form gets the profile name and account e-mail and is shown |
| Dashboard.NewAssessmentMatchesEmptyPrefill | src/components/Dashboard.tsx:246-251 | a new assessment starts as a user with no submissions does |
| AppMachine.OnAuth | src/App.tsx:23-45 | nothing while loading; a user goes to the dashboard; sign-out resets everything |
| AppMachine.FormSubmissionSuccess | src/App.tsx:57-61 | success screen with the reference, held answers dropped |
| AppMachine.AuthRequired | src/App.tsx:63-67 | answers held, sign-up mode, auth screen |
| AppMachine.ShowAuth | src/App.tsx:69-72 | auth screen in the requested mode |
| AppMachine.AuthSuccess | src/App.tsx:74-84 | success screen exactly for a truthy reference, else the dashboard; held answers kept |
| AppMachine.StartNew | src/App.tsx:86-90 | dashboard, nothing held, reference cleared |
| AppMachine.Render | src/App.tsx:47-142 | spinner exactly while loading; each screen renders its own page and no other; the layout only on form and dashboard; the auth form gets the mode and held answers, the success page the reference |
| AppMachine.Step | src/App.tsx:23-90 | while loading no handler has an effect; an auth change re-runs the effect only when the user or `loading` changed |
| AppMachine.InitialSatisfiesInvariant | src/App.tsx:14-20 | the first screen is the form, with the layout |
| AppMachine.StepKeepsInvariant | src/App.tsx:23-90 | held answers never sit on the form screen; the success screen always has a reference |
| AppMachine.RunKeepsInvariant | src/App.tsx:23-90 | that invariant holds over any event sequence |
| AppMachine.SignOutResets | src/App.tsx:36-43 | signing out from a signed-in or loading state returns to the initial state, idempotently |
| AppMachine.RepeatedSignedOutEventKeepsHeldAnswers | src/App.tsx:23-45 | a repeated event without a user does not re-run the effect, so answers held on the sign-up form survive it |
| AppMachine.LoadingEndsOnDecidedScreen | src/App.tsx:31-44 | the end of loading lands on the dashboard for a user, the form otherwise |
| AppMachine.FromFormCallback | src/App.tsx:96-103 | the form's callbacks map to the app's handlers |
| AppMachine.FormCallbacksAreWellFormed | src/components/EligibilityForm.tsx:77-81 | the form only reports success with a non-empty reference |
| AppMachine.AnonymousSubmitReachesSignUp | src/App.tsx:63-112 | an anonymous submission shows the sign-up form holding exactly those answers |
| AppMachine.FromAuthCallback | src/App.tsx:104-112 | the auth form's callback maps to `handleAuthSuccess` |
| AppMachine.SignInWithPendingAnswers | src/App.tsx:74-84 | sign-in with held answers shows success, then the auth change moves to the dashboard still holding them |

## Left out

- I/O, timers and the network are inputs. Backend answers, clock readings, random strings, HTTP outcomes and the three useAuth timers become parameters or events.
- JSON parsing and serialisation are not modelled. A group column is modelled as already parsed: an object, a falsy value, or text with a known parse outcome.
- React scheduling and the order of state updates are left out. The App effect is modelled as running when one of its dependencies changes: always for an event carrying a user, treating the user object the client library hands over as new on every event, and for an event without a user only when the user was present before or `loading` changed.
- Layout, SuccessMessage and the purely presentational JSX are left out. Only which screen is shown, and with what, is modelled.
- The missing-environment-variable check and the backend client setup in src/lib/supabase.ts are left out. They are configuration, not logic.
- Database triggers and column defaults are not modelled. `updated_at` triggers, generated ids and database-assigned references are parameters.
- String lengths count Dafny characters, not UTF-16 code units. This matters only for the 6-character password rule, and only on non-BMP input.
- Email pattern: the `i` flag is modelled as ASCII case folding only, since the pattern has no `u` flag.
- Dashboard.Prefill: the profile name is a parameter. `useAuth` returns no `profile`, so in the source it is always undefined and the name falls back to `""`.
- Dashboard.Prefill: the values are written into the Dashboard's own form instance, which is never rendered. The form it shows is a separate EligibilityForm, so the prefill never reaches the screen. The model states what is written.
- Dashboard.SaveDraft and Dashboard.Submit: no control in the Dashboard's JSX calls these handlers. They are modelled because they are the component's logic. Its rendered form uses the EligibilityForm handler, with a no-op `onAuthRequired`.
- AuthForm.OnSubmit: signing in with held answers writes nothing. It fabricates a `webhook_` id and returns it. The code is followed here, not the documented flow, which says the held answers are submitted after sign-in.
- DbOperations.InsertProfile: the duplicate-key code `23505` is the backend's usual one. The source never inspects it.
- Dashboard.SubmitPayload: a non-string e-mail or name answer is sent as empty text. The source would send the raw value.
- The 3-second timer that clears the draft message is left out.
- AuthForm.CredentialErrors: the input rules are modelled as the errors they report. The form library's validation order and focus handling are left out.
- EligibilityForm.Errors: the form library's field-level error messages are left out. Only which rule fails is modelled.
- Console logging is left out.

## Findings

| source | as written | input that shows it | evidently intended | confidence | as-written member | corrected member |
|---|---|---|---|---|---|---|
| src/lib/eligibilitySubmissions.ts:70-134 | `safeParseJson` returns `JSON.parse`'s result, which for the text `null` is `null`; the decoder then reads `.fullName` from it and throws a `TypeError` | a submission whose `personal_info` column holds the JSON text `"null"` (`NullTextCounterexample`) | a group that parses to `null` reads as `{}`, like every other unusable group, so the decoder never throws | medium, not executed | SubmissionMapper.DecodeAsWritten | SubmissionMapper.Decode |
| src/components/Dashboard.tsx:106-162 | `onSaveDraft` ignores the reference `createSubmission` returns and shows "Draft saved successfully!" after any return; `createSubmission` turns every backend error into `null` and never throws, so the failure message is unreachable | `createSubmission` reports a backend error and returns `null` (`FailedDraftReportedAsSaved`) | report failure when no reference came back, as the sibling `onSubmit` does | high, not executed | Dashboard.SaveDraftAsWritten | Dashboard.SaveDraft |
