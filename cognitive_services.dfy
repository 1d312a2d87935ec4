/**
 * The text-analytics client of app/core/cognitive_services.py.
 *
 * The client holds an API key and an endpoint, fixed when it is built.  Each
 * of its four operations picks one of three outcomes: the "unconfigured"
 * default (no request is made), the "failure" default (the request or the
 * reading of its answer raised), or the value read from the service's answer.
 * The HTTP exchange itself is a parameter: an `HttpOutcome` says what the
 * service answered, and the operations only decide what to make of it.
 */
module CognitiveServices {
  import opened Options

  /** The environment variables the constructor falls back on. */
  const ApiKeyVariable := "AZURE_API_KEY"
  const EndpointVariable := "AZURE_ENDPOINT"

  /** `os.environ`: variable name to value. */
  type Environment = map<string, string>

  /** `os.environ.get(name)`. */
  function EnvGet(env: Environment, name: string): Option<string> {
    if name in env then Some(env[name]) else None
  }

  /** Python truthiness of an optional string: `None` and `""` are false. */
  predicate Truthy(v: Option<string>) {
    v.Some? && v.value != ""
  }

  /** Python's `a or b` on optional strings. */
  function Or(a: Option<string>, b: Option<string>): Option<string> {
    if Truthy(a) then a else b
  }

  /** The client's two settings, assigned in the constructor and only read afterwards. */
  datatype Client = Client(apiKey: Option<string>, endpoint: Option<string>)

  /** The guard every operation starts with: both settings present and non-empty. */
  predicate Configured(c: Client) {
    Truthy(c.apiKey) && Truthy(c.endpoint)
  }

  /**
   * `CognitiveServicesClient(api_key, endpoint)`: each setting is the argument
   * when that is a non-empty string, and the environment's value otherwise.
   */
  function NewClient(apiKey: Option<string>, endpoint: Option<string>, env: Environment): (c: Client)
    ensures Truthy(apiKey) ==> c.apiKey == apiKey
    ensures !Truthy(apiKey) ==> c.apiKey == EnvGet(env, ApiKeyVariable)
    ensures Truthy(endpoint) ==> c.endpoint == endpoint
    ensures !Truthy(endpoint) ==> c.endpoint == EnvGet(env, EndpointVariable)
    ensures Configured(c) <==>
      (Truthy(apiKey) || Truthy(EnvGet(env, ApiKeyVariable))) &&
      (Truthy(endpoint) || Truthy(EnvGet(env, EndpointVariable)))
  {
    Client(Or(apiKey, EnvGet(env, ApiKeyVariable)), Or(endpoint, EnvGet(env, EndpointVariable)))
  }

  /** What the availability probe (`requests.get` with a timeout) came back with. */
  datatype Probe = Status(code: int) | ProbeFailed

  const Up := "up"
  const Down := "down"

  /**
   * `is_available`: "up" exactly when the client is configured and the probe
   * answered with a status below 400; "down" in every other case.
   */
  function IsAvailable(c: Client, probe: Probe): (r: string)
    ensures r == Up || r == Down
    ensures r == Up <==> Configured(c) && probe.Status? && probe.code < 400
  {
    if !Configured(c) then Down
    else match probe
      case Status(code) => if code < 400 then Up else Down
      case ProbeFailed => Down
  }

  /**
   * What a `requests.post` to the service came back with.  `Reply` carries the
   * status and the fields the caller reads from the JSON body (`None` when the
   * body is not JSON or lacks one of them); `Unreachable` is any exception
   * raised by the request itself.
   */
  datatype HttpOutcome<T> = Reply(status: int, body: Option<T>) | Unreachable

  /** `response.raise_for_status()` raises for client and server error codes. */
  predicate RaisesForStatus(status: int) {
    400 <= status < 600
  }

  /** The document the `try` block gets to return, or `None` when that block raises. */
  function Payload<T>(o: HttpOutcome<T>): (p: Option<T>)
    ensures p.Some? <==> o.Reply? && !RaisesForStatus(o.status) && o.body.Some?
    ensures p.Some? ==> p.value == o.body.value
  {
    match o
    case Reply(status, body) => if RaisesForStatus(status) then None else body
    case Unreachable => None
  }

  /** The `detectedLanguage` object of the first document. */
  datatype DetectedLanguage = DetectedLanguage(name: string, confidenceScore: real)

  /**
   * `detect_language`: ("en", 1.0) when unconfigured, ("en", 0.0) when the
   * call fails, otherwise the service's language name and confidence.
   */
  function DetectLanguage(c: Client, text: string, reply: HttpOutcome<DetectedLanguage>): (r: (string, real))
    ensures !Configured(c) ==> r == ("en", 1.0)
    ensures Configured(c) && Payload(reply).None? ==> r == ("en", 0.0)
    ensures Configured(c) && Payload(reply).Some? ==>
      r == (Payload(reply).value.name, Payload(reply).value.confidenceScore)
  {
    if !Configured(c) then ("en", 1.0)
    else match Payload(reply)
      case Some(d) => (d.name, d.confidenceScore)
      case None => ("en", 0.0)
  }

  /** The first document of a sentiment answer: its label and the confidence per label. */
  datatype SentimentDocument = SentimentDocument(sentiment: string, confidenceScores: map<string, real>)

  /** Python's `max(score, 0.5)`. */
  function AtLeastHalf(score: real): real {
    if 0.5 > score then 0.5 else score
  }

  /** The answer is readable and has a confidence for its own label, so the `try` block does not raise. */
  predicate Scored(reply: HttpOutcome<SentimentDocument>) {
    Payload(reply).Some? && Payload(reply).value.sentiment in Payload(reply).value.confidenceScores
  }

  /**
   * `analyze_sentiment`: ("neutral", 0.5) when unconfigured and on every
   * failure, including a label that has no confidence entry; otherwise the
   * label and its confidence floored at 0.5.  The score is never below 0.5.
   */
  function AnalyzeSentiment(c: Client, text: string, reply: HttpOutcome<SentimentDocument>): (r: (string, real))
    ensures r.1 >= 0.5
    ensures !(Configured(c) && Scored(reply)) ==> r == ("neutral", 0.5)
    ensures Configured(c) && Scored(reply) ==>
      var d := Payload(reply).value;
      r.0 == d.sentiment && r.1 >= d.confidenceScores[d.sentiment] &&
      (r.1 == d.confidenceScores[d.sentiment] || r.1 == 0.5)
  {
    if !Configured(c) then ("neutral", 0.5)
    else match Payload(reply)
      case Some(d) =>
        if d.sentiment in d.confidenceScores
        then (d.sentiment, AtLeastHalf(d.confidenceScores[d.sentiment]))
        else ("neutral", 0.5)
      case None => ("neutral", 0.5)
  }

  /**
   * `extract_key_phrases`: the service's `keyPhrases` list unchanged on
   * success, and the one-element list `[text]` when unconfigured or on failure.
   */
  function ExtractKeyPhrases(c: Client, text: string, reply: HttpOutcome<seq<string>>): (r: seq<string>)
    ensures Configured(c) && Payload(reply).Some? ==> r == Payload(reply).value
    ensures !(Configured(c) && Payload(reply).Some?) ==> r == [text]
  {
    if !Configured(c) then [text]
    else match Payload(reply)
      case Some(phrases) => phrases
      case None => [text]
  }

  /**
   * An unconfigured client never looks at the service: whatever the service
   * would have answered, every operation gives the same result.
   */
  lemma UnconfiguredIgnoresService(c: Client, text: string, probe: Probe,
                                   lang: HttpOutcome<DetectedLanguage>,
                                   mood: HttpOutcome<SentimentDocument>,
                                   phrases: HttpOutcome<seq<string>>)
    requires !Configured(c)
    ensures IsAvailable(c, probe) == Down
    ensures DetectLanguage(c, text, lang) == DetectLanguage(c, text, Unreachable)
    ensures AnalyzeSentiment(c, text, mood) == AnalyzeSentiment(c, text, Unreachable)
    ensures ExtractKeyPhrases(c, text, phrases) == ExtractKeyPhrases(c, text, Unreachable)
  {
  }
}
