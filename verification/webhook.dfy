/** The notification envelope of src/lib/webhook.ts: the payload builders and
    the delivery attempt, whose every transport outcome collapses to a
    boolean. The endpoint URL and headers are fixed and carry no logic. */
module Webhook {
  import opened Wrappers
  import opened FormModel

  /** The `event_type` union. */
  datatype EventType = Signup | EligibilityForm | FormCompletion

  function EventTag(e: EventType): string {
    match e
    case Signup => "signup"
    case EligibilityForm => "eligibility_form"
    case FormCompletion => "form_completion"
  }

  /** `WebhookPayload`. `formData` is `None` where the source sends `null`;
      `timestamp` is the ISO text of the sending instant. */
  datatype Payload = Payload(
    userId: string,
    email: string,
    fullName: string,
    formData: Option<Answers>,
    eventType: EventType,
    timestamp: string)

  /** What the CORS probe (`OPTIONS`) did. */
  datatype ProbeOutcome = ProbeAnswered | ProbeThrew

  /** What the `POST` did: a network-level throw, or a response whose status
      was or was not ok and whose body did or did not parse as JSON. */
  datatype PostOutcome = NetworkError | Response(ok: bool, bodyIsJson: bool)

  /** A request put on the wire. */
  datatype Request = Probe | Post(body: Payload)

  /** The requests made and the boolean `sendWebhook` resolves to. */
  datatype Delivery = Delivery(requests: seq<Request>, delivered: bool)

  /** `sendWebhook(payload)`: one probe whose failure is swallowed, then one
      `POST` of the payload. True exactly when the response is ok and its
      body is JSON; every other outcome, including a throw, gives false. */
  function SendWebhook(p: Payload, probe: ProbeOutcome, post: PostOutcome): (d: Delivery)
    ensures d.delivered <==> post.Response? && post.ok && post.bodyIsJson
    ensures post.Response? && !post.ok ==> !d.delivered
    ensures |d.requests| == 2 && d.requests[0] == Probe
    ensures forall i :: 0 <= i < |d.requests| && d.requests[i].Post? ==>
      i == |d.requests| - 1 && d.requests[i].body == p
  {
    var outcome :=
      match post
      case NetworkError => false
      case Response(ok, json) => if !ok then false else json;
    Delivery([Probe, Post(p)], outcome)
  }

  /** The probe's outcome never changes the result or the requests made. */
  lemma ProbeIsIrrelevant(p: Payload, a: ProbeOutcome, b: ProbeOutcome, post: PostOutcome)
    ensures SendWebhook(p, a, post) == SendWebhook(p, b, post)
  {
  }

  /** Exactly one `POST` is attempted, whatever happens to it. */
  lemma ExactlyOnePost(p: Payload, probe: ProbeOutcome, post: PostOutcome)
    ensures var d := SendWebhook(p, probe, post);
      |set i | 0 <= i < |d.requests| && d.requests[i].Post?| == 1
  {
    var d := SendWebhook(p, probe, post);
    assert (set i | 0 <= i < |d.requests| && d.requests[i].Post?) == {1};
  }

  /** `sendSignupWebhook`: a missing form becomes `null`. */
  function SignupPayload(userId: string, email: string, fullName: string,
                         formData: Option<Answers>, timestamp: string): (p: Payload)
    ensures p.userId == userId && p.email == email && p.fullName == fullName
    ensures p.formData == formData
    ensures EventTag(p.eventType) == "signup"
  {
    Payload(userId, email, fullName, formData, Signup, timestamp)
  }

  /** `sendEligibilityFormWebhook`: tagged as a form completion, not with
      `eligibility_form`. */
  function EligibilityFormPayload(userId: string, email: string, fullName: string,
                                  formData: Answers, timestamp: string): (p: Payload)
    ensures p.userId == userId && p.email == email && p.fullName == fullName
    ensures p.formData == Some(formData)
    ensures EventTag(p.eventType) == "form_completion"
  {
    Payload(userId, email, fullName, Some(formData), FormCompletion, timestamp)
  }

  /** `sendFormCompletionWebhook`. */
  function FormCompletionPayload(userId: string, email: string, fullName: string,
                                 formData: Answers, timestamp: string): (p: Payload)
    ensures p.userId == userId && p.email == email && p.fullName == fullName
    ensures p.formData == Some(formData)
    ensures EventTag(p.eventType) == "form_completion"
  {
    Payload(userId, email, fullName, Some(formData), FormCompletion, timestamp)
  }

  /** The eligibility-form and form-completion notifications are the same
      envelope, and no builder ever emits the `eligibility_form` tag. */
  lemma EligibilityFormTagNeverEmitted(userId: string, email: string, fullName: string,
                                       formData: Answers, signupForm: Option<Answers>,
                                       timestamp: string)
    ensures EligibilityFormPayload(userId, email, fullName, formData, timestamp)
         == FormCompletionPayload(userId, email, fullName, formData, timestamp)
    ensures SignupPayload(userId, email, fullName, signupForm, timestamp).eventType != EligibilityForm
    ensures EligibilityFormPayload(userId, email, fullName, formData, timestamp).eventType != EligibilityForm
    ensures FormCompletionPayload(userId, email, fullName, formData, timestamp).eventType != EligibilityForm
  {
  }
}
