/** The narrative client (`get_together_ai_response` and its inner `chat`):
    one chat-completion request per attempt, each reply classified as a
    returned text or a raised failure, retried up to three attempts with a
    fixed wait between them, and no request at all without an API key. */
module Narrative {
  import opened Text

  /** `stop_after_attempt(3)`. */
  const MaxAttempts: nat := 3
  /** `wait_fixed(2)`: the pause before each retry. */
  const WaitUnits: nat := 2

  /** The body of a reply. `Json(Some(t))`: it parses and
      `choices[0].message.content` is `t`; `Json(None)`: it parses but that
      path is missing; `NotJson`: `response.json()` fails. */
  datatype Payload = Json(content: Option<string>) | NotJson(body: string)

  /** What the endpoint gives for one request: a reply with its
      Content-Type header (absent = `None`), status code and body, or a
      transport failure (`requests.post` itself raises). */
  datatype Response =
    | Reply(contentType: Option<string>, status: nat, payload: Payload)
    | TransportError

  /** Why an attempt raised. `NotJsonBody` carries the logged body. */
  datatype Failure =
    | Transport
    | NotJsonBody(body: string)
    | NoContent
    | BadStatus(status: nat)

  /** The outcome of one call of `chat`. */
  datatype Attempt = Returned(text: string) | Raised(cause: Failure)

  /** `response.headers.get('Content-Type', '')`. */
  function ContentType(r: Response): string
    requires r.Reply?
  {
    match r.contentType
    case None => ""
    case Some(v) => v
  }

  /** `"html" in content type`: the reply is an HTML page. */
  predicate IsHtml(r: Response)
  {
    r.Reply? && Contains(ContentType(r), "html")
  }

  const HtmlPrefix: string := "Error: Received HTML response instead of expected JSON. Status Code: "

  /** The text returned for an HTML reply. */
  function HtmlPlaceholder(status: nat): string
  {
    HtmlPrefix + NatToDecimal(status)
  }

  /** One attempt of `chat`: an HTML reply returns the placeholder whatever its
      status; otherwise status 200 with content returns the content, and
      everything else raises. */
  function Classify(r: Response): (a: Attempt)
    ensures a.Returned? <==>
            IsHtml(r) || (r.Reply? && r.status == 200 && r.payload.Json? && r.payload.content.Some?)
    ensures IsHtml(r) ==> a == Returned(HtmlPlaceholder(r.status))
    ensures r.Reply? && !IsHtml(r) && r.status == 200 && r.payload.Json? && r.payload.content.Some? ==>
              a == Returned(r.payload.content.value)
    ensures r.Reply? && !IsHtml(r) && r.status == 200 && r.payload.NotJson? ==>
              a == Raised(NotJsonBody(r.payload.body))
    ensures r.Reply? && !IsHtml(r) && r.status != 200 ==> a == Raised(BadStatus(r.status))
    ensures r.Reply? && !IsHtml(r) && r.status == 200 && r.payload == Json(None) ==> a == Raised(NoContent)
    ensures r.TransportError? ==> a == Raised(Transport)
  {
    match r
    case TransportError => Raised(Transport)
    case Reply(_, status, payload) =>
      if Contains(ContentType(r), "html") then Returned(HtmlPlaceholder(status))
      else if status == 200 then
        match payload
        case Json(Some(t)) => Returned(t)
        case Json(None) => Raised(NoContent)
        case NotJson(body) => Raised(NotJsonBody(body))
      else Raised(BadStatus(status))
  }

  /** The status code can be read back from the HTML placeholder. */
  function PlaceholderStatus(s: string): Option<nat>
  {
    if |s| > |HtmlPrefix| && s[..|HtmlPrefix|] == HtmlPrefix &&
       forall k :: |HtmlPrefix| <= k < |s| ==> '0' <= s[k] <= '9'
    then Some(DecimalValue(s[|HtmlPrefix|..]))
    else None
  }

  /** An HTML reply's text names its status code. */
  lemma HtmlPlaceholderStatus(status: nat)
    ensures PlaceholderStatus(HtmlPlaceholder(status)) == Some(status)
  {
    var s := HtmlPlaceholder(status);
    assert s[|HtmlPrefix|..] == NatToDecimal(status);
    DecimalRoundTrip(status);
  }

  /** The result of the retried call: the first returned text, or, after the
      last attempt raised, `RetryError` wrapping that attempt's failure. */
  datatype Outcome = Answer(text: string) | GaveUp(last: Failure)

  /** The outcome and the number of requests sent. */
  datatype Trace = Trace(outcome: Outcome, attempts: nat)

  /** The retry policy from attempt `next` (counted from 0) on. */
  function Retrying(endpoint: seq<Response>, next: nat): (tr: Trace)
    requires next < MaxAttempts <= |endpoint|
    ensures next < tr.attempts <= MaxAttempts
    decreases MaxAttempts - next
  {
    match Classify(endpoint[next])
    case Returned(t) => Trace(Answer(t), next + 1)
    case Raised(e) =>
      if next + 1 == MaxAttempts then Trace(GaveUp(e), MaxAttempts)
      else Retrying(endpoint, next + 1)
  }

  /** Every attempt before the last one made raised; the outcome is the last
      attempt's text, or its failure when it was the third and raised. */
  lemma {:induction false} RetryingFirstSuccess(endpoint: seq<Response>, next: nat)
    requires next < MaxAttempts <= |endpoint|
    ensures var tr := Retrying(endpoint, next);
            (forall k :: next <= k < tr.attempts - 1 ==> Classify(endpoint[k]).Raised?) &&
            (tr.outcome.Answer? <==> Classify(endpoint[tr.attempts - 1]).Returned?) &&
            (tr.outcome.Answer? ==> Classify(endpoint[tr.attempts - 1]) == Returned(tr.outcome.text)) &&
            (tr.outcome.GaveUp? ==> tr.attempts == MaxAttempts &&
                                    Classify(endpoint[MaxAttempts - 1]) == Raised(tr.outcome.last))
    decreases MaxAttempts - next
  {
    if Classify(endpoint[next]).Raised? && next + 1 < MaxAttempts {
      RetryingFirstSuccess(endpoint, next + 1);
    }
  }

  /** The call fails exactly when all three attempts raise. */
  lemma GaveUpIffAllRaise(endpoint: seq<Response>)
    requires MaxAttempts <= |endpoint|
    ensures Retrying(endpoint, 0).outcome.GaveUp? <==>
            forall k :: 0 <= k < MaxAttempts ==> Classify(endpoint[k]).Raised?
  {
    var tr := Retrying(endpoint, 0);
    RetryingFirstSuccess(endpoint, 0);
    if tr.outcome.Answer? {
      assert Classify(endpoint[tr.attempts - 1]).Returned?;
    } else {
      assert tr.attempts == MaxAttempts;
      forall k | 0 <= k < MaxAttempts
        ensures Classify(endpoint[k]).Raised?
      {
        if k == MaxAttempts - 1 {
          assert Classify(endpoint[MaxAttempts - 1]) == Raised(tr.outcome.last);
        }
      }
    }
  }

  /** An HTML first reply is returned at once and never retried. */
  lemma HtmlNotRetried(endpoint: seq<Response>)
    requires MaxAttempts <= |endpoint| && IsHtml(endpoint[0])
    ensures Retrying(endpoint, 0) == Trace(Answer(HtmlPlaceholder(endpoint[0].status)), 1)
  {
  }

  /** Only the replies to the first three requests matter. */
  lemma RetryingPrefix(a: seq<Response>, b: seq<Response>)
    requires MaxAttempts <= |a| && MaxAttempts <= |b| && a[..MaxAttempts] == b[..MaxAttempts]
    ensures Retrying(a, 0) == Retrying(b, 0)
  {
    assert a[0] == a[..MaxAttempts][0] && b[0] == b[..MaxAttempts][0];
    assert a[1] == a[..MaxAttempts][1] && b[1] == b[..MaxAttempts][1];
    assert a[2] == a[..MaxAttempts][2] && b[2] == b[..MaxAttempts][2];
  }

  /** An endpoint that fails twice and then answers yields that answer after
      three requests. */
  lemma FailTwiceThenSucceed(f1: Response, f2: Response, t: string)
    requires Classify(f1).Raised? && Classify(f2).Raised?
    ensures Retrying([f1, f2, Reply(None, 200, Json(Some(t)))], 0) == Trace(Answer(t), 3)
  {
  }

  /** An endpoint that always answers 500 is given up on after three requests. */
  lemma AlwaysFailing()
    ensures Retrying([Reply(None, 500, NotJson("")), Reply(None, 500, NotJson("")),
                      Reply(None, 500, NotJson(""))], 0) == Trace(GaveUp(BadStatus(500)), 3)
  {
    assert !Contains("", "html");
  }

  /** The pauses taken before `attempts` attempts: one fixed wait before each
      retry. */
  function Waits(attempts: nat): (w: seq<nat>)
    requires attempts >= 1
    ensures |w| == attempts - 1
    ensures forall k :: 0 <= k < |w| ==> w[k] == WaitUnits
  {
    seq(attempts - 1, _ => WaitUnits)
  }

  /** `chat()` under `@retry(stop=stop_after_attempt(3), wait=wait_fixed(2))`:
      returns the outcome, the number of requests sent to `endpoint` (whose
      `k`-th element answers the `k`-th request) and the pauses taken. */
  method Chat(endpoint: seq<Response>) returns (outcome: Outcome, attempts: nat, waits: seq<nat>)
    requires MaxAttempts <= |endpoint|
    ensures Trace(outcome, attempts) == Retrying(endpoint, 0)
    ensures 1 <= attempts <= MaxAttempts
    ensures waits == Waits(attempts)
  {
    attempts := 0;
    waits := [];
    var done := false;
    outcome := GaveUp(Transport);
    while !done
      invariant 0 <= attempts <= MaxAttempts
      invariant done ==> 1 <= attempts && Trace(outcome, attempts) == Retrying(endpoint, 0)
      invariant !done ==> attempts < MaxAttempts && Retrying(endpoint, attempts) == Retrying(endpoint, 0)
      invariant |waits| == if done then attempts - 1 else attempts
      invariant forall k :: 0 <= k < |waits| ==> waits[k] == WaitUnits
      decreases MaxAttempts - attempts, !done
    {
      var answer := Classify(endpoint[attempts]);
      attempts := attempts + 1;
      match answer {
        case Returned(t) =>
          outcome := Answer(t);
          done := true;
        case Raised(e) =>
          if attempts >= MaxAttempts {
            outcome := GaveUp(e);
            done := true;
          } else {
            waits := waits + [WaitUnits];
          }
      }
    }
  }

  /** The narrative as the pipeline sees it: the model's text, the failure
      that exhausted the retries, or no API key. */
  datatype Narrative = Insights(text: string) | NarrativeFailed(last: Failure) | NoCredential

  /** `if not together_api_key`: the key is unset or empty. */
  predicate KeyAbsent(apiKey: Option<string>)
  {
    apiKey == None || apiKey == Some("")
  }

  /** `get_together_ai_response`: without an API key nothing is sent;
      otherwise the retried call's outcome. */
  method GetTogetherAiResponse(apiKey: Option<string>, endpoint: seq<Response>)
    returns (n: Narrative, requests: nat, waits: seq<nat>)
    requires MaxAttempts <= |endpoint|
    ensures KeyAbsent(apiKey) <==> n == NoCredential
    ensures KeyAbsent(apiKey) ==> requests == 0 && waits == []
    ensures !KeyAbsent(apiKey) ==>
              var tr := Retrying(endpoint, 0);
              requests == tr.attempts && waits == Waits(tr.attempts) &&
              n == match tr.outcome
                   case Answer(t) => Insights(t)
                   case GaveUp(e) => NarrativeFailed(e)
  {
    if apiKey == None || apiKey == Some("") {
      return NoCredential, 0, [];
    }
    var outcome, attempts, w := Chat(endpoint);
    requests, waits := attempts, w;
    match outcome {
      case Answer(t) => n := Insights(t);
      case GaveUp(e) => n := NarrativeFailed(e);
    }
  }
}
