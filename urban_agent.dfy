/**
 * The question handler of app/agents/urban_agent.py.
 *
 * `GenerateEnhancedResponse` maps a question, its key phrases and a sentiment
 * label to one of nine fixed answers by ordered first-match substring tests.
 * `ProcessUrbanQuestion` feeds it from the text-analytics client and falls
 * back on a keyword answer when that stage raises; `Run` rejects the empty
 * question and turns anything that still escapes into a fixed apology.
 *
 * Python exceptions become values: the client never raises (its model returns
 * its defaults instead), and the exceptions the typed model cannot produce by
 * itself (a malformed field of the service's answer reaching the agent, a
 * failing logger) are parameters of the two functions that catch them.
 */
module UrbanAgent {
  import opened Options
  import opened Strings
  import CS = CognitiveServices

  /** One entry of the `urban_keywords` table: a keyword and its canned answers. */
  datatype Topic = Topic(keyword: string, responses: seq<string>)

  /** `urban_keywords`, in the dict's insertion order, which is the order the scan follows. */
  const UrbanKeywords: seq<Topic> := [
    Topic("traffic", [
      "Traffic congestion is currently moderate in the downtown area. Peak hours are 7-9 AM and 4-6 PM.",
      "The city has implemented smart traffic lights that adapt to traffic flow."]),
    Topic("housing", [
      "Housing prices have increased by 5% in urban centers over the past year.",
      "New affordable housing initiatives include mixed-use developments near transit hubs."]),
    Topic("transportation", [
      "Public transportation ridership has increased by 12% this quarter.",
      "The city is expanding bike lanes and pedestrian-friendly infrastructure."]),
    Topic("parks", [
      "The urban parks system covers 15% of the city's area.",
      "Green spaces have been shown to reduce urban heat and improve mental health."]),
    Topic("development", [
      "Smart urban development focuses on sustainability and community needs.",
      "Recent projects include revitalizing the waterfront district."]),
    Topic("pollution", [
      "Air quality monitoring stations show improved metrics compared to last year.",
      "The city has implemented a comprehensive waste management program."])
  ]

  /** Index of "traffic" in the table. */
  const TrafficTopic := 0

  const WeatherReply :=
    "The weather today is sunny with a high of 25°C. Urban areas may experience temperatures 2-3°C higher due to the heat island effect."
  const ConcernReply :=
    "I understand your concerns about urban issues. The city's strategic plan addresses challenges through data-driven solutions and community engagement."
  const EnthusiasmReply :=
    "I'm glad you're enthusiastic about urban development! Our city continues to implement smart technologies and sustainable practices to enhance quality of life."
  const GenericReply :=
    "Urban areas are complex systems that require integrated planning approaches. Our smart city initiatives focus on sustainability, efficiency, and improved quality of life for residents."

  /** The first answer of topic `k`, the only one the agent ever gives for it. */
  function TopicReply(k: nat): string
    requires k < |UrbanKeywords|
  {
    UrbanKeywords[k].responses[0]
  }

  /** The nine literal answers the enhanced classifier can return. */
  predicate IsEnhancedReply(r: string) {
    (exists k :: 0 <= k < |UrbanKeywords| && r == TopicReply(k)) ||
    r == WeatherReply || r == ConcernReply || r == EnthusiasmReply || r == GenericReply
  }

  /** `keyword in phrase_lower` for topic `k`. */
  predicate Mentions(phraseLower: string, k: nat)
    requires k < |UrbanKeywords|
  {
    Contains(phraseLower, UrbanKeywords[k].keyword)
  }

  /** The inner loop: the first topic, from `k` on in table order, whose keyword the lowered phrase contains. */
  function FindTopic(phraseLower: string, k: nat): (r: Option<nat>)
    requires k <= |UrbanKeywords|
    ensures r.Some? ==> k <= r.value < |UrbanKeywords| && Mentions(phraseLower, r.value)
    ensures r.Some? ==> forall j :: k <= j < r.value ==> !Mentions(phraseLower, j)
    ensures r.None? ==> forall j :: k <= j < |UrbanKeywords| ==> !Mentions(phraseLower, j)
    decreases |UrbanKeywords| - k
  {
    if k == |UrbanKeywords| then None
    else if Mentions(phraseLower, k) then Some(k)
    else FindTopic(phraseLower, k + 1)
  }

  /** Key phrase `p`, lowered, contains the keyword of topic `k`. */
  predicate PhraseMentions(keyPhrases: seq<string>, p: nat, k: nat)
    requires p < |keyPhrases| && k < |UrbanKeywords|
  {
    Mentions(Lower(keyPhrases[p]), k)
  }

  /** A (phrase, topic) pair at which the nested loops return. */
  datatype Hit = Hit(phrase: nat, topic: nat)

  /** No key phrase mentions any topic. */
  predicate NoHit(keyPhrases: seq<string>) {
    forall p, k :: 0 <= p < |keyPhrases| && 0 <= k < |UrbanKeywords| ==> !PhraseMentions(keyPhrases, p, k)
  }

  /**
   * The outer loop, from phrase `i` on: the first phrase that mentions any
   * topic decides, and within that phrase the first topic in table order.
   */
  function FindHit(keyPhrases: seq<string>, i: nat): (r: Option<Hit>)
    requires i <= |keyPhrases|
    ensures r.Some? ==>
      i <= r.value.phrase < |keyPhrases| && r.value.topic < |UrbanKeywords| &&
      PhraseMentions(keyPhrases, r.value.phrase, r.value.topic)
    ensures r.Some? ==> forall p, k :: i <= p < r.value.phrase && 0 <= k < |UrbanKeywords| ==>
      !PhraseMentions(keyPhrases, p, k)
    ensures r.Some? ==> forall k :: 0 <= k < r.value.topic ==>
      !PhraseMentions(keyPhrases, r.value.phrase, k)
    ensures r.None? ==> forall p, k :: i <= p < |keyPhrases| && 0 <= k < |UrbanKeywords| ==>
      !PhraseMentions(keyPhrases, p, k)
    decreases |keyPhrases| - i
  {
    if i == |keyPhrases| then None
    else match FindTopic(Lower(keyPhrases[i]), 0)
      case Some(k) => Some(Hit(i, k))
      case None => FindHit(keyPhrases, i + 1)
  }

  /** `generate_enhanced_response`: always one of the nine fixed answers, never empty. */
  function GenerateEnhancedResponse(question: string, keyPhrases: seq<string>, sentiment: string): (r: string)
    ensures IsEnhancedReply(r)
    ensures r != ""
  {
    match FindHit(keyPhrases, 0)
    case Some(h) => TopicReply(h.topic)
    case None =>
      if Contains(Lower(question), "traffic") then TopicReply(TrafficTopic)
      else if Contains(Lower(question), "weather") then WeatherReply
      else if sentiment == "negative" then ConcernReply
      else if sentiment == "positive" then EnthusiasmReply
      else GenericReply
  }

  /**
   * The earliest key phrase that mentions a topic decides, ties within it
   * going to table order: that topic's first answer is the result.
   */
  lemma EarliestPhraseDecides(question: string, keyPhrases: seq<string>, sentiment: string, p: nat, k: nat)
    requires p < |keyPhrases| && k < |UrbanKeywords| && PhraseMentions(keyPhrases, p, k)
    requires forall q, j :: 0 <= q < p && 0 <= j < |UrbanKeywords| ==> !PhraseMentions(keyPhrases, q, j)
    requires forall j :: 0 <= j < k ==> !PhraseMentions(keyPhrases, p, j)
    ensures GenerateEnhancedResponse(question, keyPhrases, sentiment) == TopicReply(k)
  {
    var h := FindHit(keyPhrases, 0);
    assert h.Some?;
    assert h.value.phrase == p;
  }

  /** With no phrase match, "traffic" in the question wins, even over "weather". */
  lemma QuestionTrafficBeatsWeather(question: string, keyPhrases: seq<string>, sentiment: string)
    requires NoHit(keyPhrases)
    requires Contains(Lower(question), "traffic")
    ensures GenerateEnhancedResponse(question, keyPhrases, sentiment) == TopicReply(TrafficTopic)
  {
  }

  /** With no phrase match and no "traffic", "weather" in the question gives the weather answer. */
  lemma QuestionWeather(question: string, keyPhrases: seq<string>, sentiment: string)
    requires NoHit(keyPhrases)
    requires !Contains(Lower(question), "traffic") && Contains(Lower(question), "weather")
    ensures GenerateEnhancedResponse(question, keyPhrases, sentiment) == WeatherReply
  {
  }

  /** Failing every substring test, only the sentiment label matters. */
  lemma SentimentDecides(question: string, keyPhrases: seq<string>, sentiment: string)
    requires NoHit(keyPhrases)
    requires !Contains(Lower(question), "traffic") && !Contains(Lower(question), "weather")
    ensures sentiment == "negative" ==> GenerateEnhancedResponse(question, keyPhrases, sentiment) == ConcernReply
    ensures sentiment == "positive" ==> GenerateEnhancedResponse(question, keyPhrases, sentiment) == EnthusiasmReply
    ensures sentiment != "negative" && sentiment != "positive" ==>
      GenerateEnhancedResponse(question, keyPhrases, sentiment) == GenericReply
  {
  }

  /** The nine answers are pairwise different, so an answer tells which branch produced it. */
  lemma RepliesDistinct()
    ensures forall j, k :: 0 <= j < k < |UrbanKeywords| ==> TopicReply(j) != TopicReply(k)
    ensures forall k :: 0 <= k < |UrbanKeywords| ==>
      TopicReply(k) != WeatherReply && TopicReply(k) != ConcernReply &&
      TopicReply(k) != EnthusiasmReply && TopicReply(k) != GenericReply
  {
  }

  /**
   * Both directions: the answer is topic `k`'s exactly when `k` is the topic
   * of the first hit, or `k` is traffic, no phrase hits and the question
   * mentions traffic.
   */
  lemma ReplyNamesTopic(question: string, keyPhrases: seq<string>, sentiment: string, k: nat)
    requires k < |UrbanKeywords|
    ensures GenerateEnhancedResponse(question, keyPhrases, sentiment) == TopicReply(k) <==>
      (FindHit(keyPhrases, 0).Some? && FindHit(keyPhrases, 0).value.topic == k) ||
      (k == TrafficTopic && FindHit(keyPhrases, 0).None? && Contains(Lower(question), "traffic"))
  {
    RepliesDistinct();
  }

  // ---------------------------------------------------------------------------
  // Fallbacks and the two entry points

  /** A Python exception that reaches one of the agent's `except` clauses. */
  datatype Exception = ValueError(message: string) | OtherError(message: string)

  /** What the service answered to each of the three calls made for one question. */
  datatype ServiceReplies = ServiceReplies(
    language: CS.HttpOutcome<CS.DetectedLanguage>,
    phrases: CS.HttpOutcome<seq<string>>,
    sentiment: CS.HttpOutcome<CS.SentimentDocument>)

  /** An `UrbanAgent`: its one field is the client, built once from the environment. */
  datatype Agent = Agent(client: CS.Client)

  /** `UrbanAgent()`: the client is built with no arguments, so both settings come from the environment. */
  function NewAgent(env: CS.Environment): (a: Agent)
    ensures a.client.apiKey == CS.EnvGet(env, CS.ApiKeyVariable)
    ensures a.client.endpoint == CS.EnvGet(env, CS.EndpointVariable)
  {
    Agent(CS.NewClient(None, None, env))
  }

  const HeavyTrafficReply := "Traffic is heavy in downtown today."
  const SunnyWeatherReply := "The weather today is sunny with a high of 25°C."
  const EchoPrefix := "Urban Copilot Response to: "

  /** The `except` branch of `process_urban_question`: a keyword answer, else the question echoed. */
  function Fallback(question: string): (r: string)
    ensures Contains(Lower(question), "traffic") ==> r == HeavyTrafficReply
    ensures !Contains(Lower(question), "traffic") && Contains(Lower(question), "weather") ==> r == SunnyWeatherReply
    ensures !Contains(Lower(question), "traffic") && !Contains(Lower(question), "weather") ==>
      r == EchoPrefix + question
  {
    if Contains(Lower(question), "traffic") then HeavyTrafficReply
    else if Contains(Lower(question), "weather") then SunnyWeatherReply
    else EchoPrefix + question
  }

  /**
   * `process_urban_question`.  `fault` is an exception raised inside its `try`
   * block by something the typed model of the service's answers cannot
   * produce (a confidence that is not a number at the language check, a key
   * phrase that is not a string, a failing logger); it selects the fallback.
   */
  function ProcessUrbanQuestion(agent: Agent, question: string, replies: ServiceReplies, fault: Option<Exception>): (r: string)
    ensures fault.Some? ==> r == Fallback(question)
    ensures fault.None? ==> IsEnhancedReply(r)
    ensures fault.None? ==> r == GenerateEnhancedResponse(question,
      CS.ExtractKeyPhrases(agent.client, question, replies.phrases),
      CS.AnalyzeSentiment(agent.client, question, replies.sentiment).0)
  {
    if fault.Some? then Fallback(question)
    else
      // The detected language is only logged; it does not shape the answer.
      var _ := CS.DetectLanguage(agent.client, question, replies.language);
      var keyPhrases := CS.ExtractKeyPhrases(agent.client, question, replies.phrases);
      var (sentiment, _) := CS.AnalyzeSentiment(agent.client, question, replies.sentiment);
      GenerateEnhancedResponse(question, keyPhrases, sentiment)
  }

  const EmptyQuestionError := "Error: Question cannot be empty"
  const Apology := "Sorry, there was an issue processing your request."

  /**
   * `run`.  `escaped` is an exception that leaves `process_urban_question`
   * (from its own `except` branch) or the logging after it.  Nothing escapes
   * `run`: a `ValueError` becomes "Error: " and its message, anything else
   * the apology, and the empty question is refused before any processing.
   */
  function Run(agent: Agent, question: string, replies: ServiceReplies,
               fault: Option<Exception>, escaped: Option<Exception>): (r: string)
    ensures r != ""
    ensures question == "" ==> r == EmptyQuestionError
    ensures question != "" && escaped.Some? && escaped.value.OtherError? ==> r == Apology
    ensures question != "" && escaped.Some? && escaped.value.ValueError? ==> r == "Error: " + escaped.value.message
    ensures question != "" && escaped.None? ==> r == ProcessUrbanQuestion(agent, question, replies, fault)
  {
    if question == "" then EmptyQuestionError
    else match escaped
      case Some(ValueError(message)) => "Error: " + message
      case Some(OtherError(_)) => Apology
      case None => ProcessUrbanQuestion(agent, question, replies, fault)
  }

  /** The nested search looks at key phrases only through their lowered text. */
  lemma {:induction false} FindHitIgnoresCase(phrases: seq<string>, other: seq<string>, i: nat)
    requires i <= |phrases| == |other|
    requires forall p :: 0 <= p < |phrases| ==> SameIgnoringCase(phrases[p], other[p])
    ensures FindHit(phrases, i) == FindHit(other, i)
    decreases |phrases| - i
  {
    if i < |phrases| {
      LowerIgnoresCase(phrases[i], other[i]);
      FindHitIgnoresCase(phrases, other, i + 1);
    }
  }

  /**
   * The classifier is case-insensitive: a question and key phrases that
   * differ only in the case of their letters get the same answer.
   */
  lemma CaseDoesNotMatter(question: string, other: string, keyPhrases: seq<string>,
                          otherPhrases: seq<string>, sentiment: string)
    requires SameIgnoringCase(question, other)
    requires |keyPhrases| == |otherPhrases|
    requires forall p :: 0 <= p < |keyPhrases| ==> SameIgnoringCase(keyPhrases[p], otherPhrases[p])
    ensures GenerateEnhancedResponse(question, keyPhrases, sentiment) ==
            GenerateEnhancedResponse(other, otherPhrases, sentiment)
  {
    LowerIgnoresCase(question, other);
    FindHitIgnoresCase(keyPhrases, otherPhrases, 0);
  }

  /** Every enhanced answer is a full sentence, far longer than any of the error strings. */
  lemma EnhancedRepliesAreLong(r: string)
    requires IsEnhancedReply(r)
    ensures |r| >= 50
  {
    if !(r == WeatherReply || r == ConcernReply || r == EnthusiasmReply || r == GenericReply) {
      var k :| 0 <= k < |UrbanKeywords| && r == TopicReply(k);
      assert k == 0 || k == 1 || k == 2 || k == 3 || k == 4 || k == 5;
    }
  }

  /**
   * Only the empty string is refused: a question of blanks passes the check
   * and is answered like any other.
   */
  lemma BlankQuestionIsAnswered(agent: Agent, replies: ServiceReplies)
    ensures IsEnhancedReply(Run(agent, " ", replies, None, None))
    ensures Run(agent, " ", replies, None, None) != EmptyQuestionError
  {
    EnhancedRepliesAreLong(Run(agent, " ", replies, None, None));
  }

  /** The language-detection call never changes the answer. */
  lemma LanguageDoesNotMatter(agent: Agent, question: string, replies: ServiceReplies,
                              language: CS.HttpOutcome<CS.DetectedLanguage>, fault: Option<Exception>)
    ensures ProcessUrbanQuestion(agent, question, replies, fault) ==
            ProcessUrbanQuestion(agent, question, replies.(language := language), fault)
  {
  }

  /**
   * With an unconfigured client the only key phrase is the question itself
   * and the sentiment is "neutral", so a question that mentions a topic gets
   * the first such topic in table order, and one that does not gets the
   * weather or the generic answer.
   */
  lemma UnconfiguredAnswersByTopic(agent: Agent, question: string, replies: ServiceReplies)
    requires !CS.Configured(agent.client)
    ensures FindTopic(Lower(question), 0).Some? ==>
      ProcessUrbanQuestion(agent, question, replies, None) == TopicReply(FindTopic(Lower(question), 0).value)
    ensures FindTopic(Lower(question), 0).None? && Contains(Lower(question), "weather") ==>
      ProcessUrbanQuestion(agent, question, replies, None) == WeatherReply
    ensures FindTopic(Lower(question), 0).None? && !Contains(Lower(question), "weather") ==>
      ProcessUrbanQuestion(agent, question, replies, None) == GenericReply
  {
    var keyPhrases := CS.ExtractKeyPhrases(agent.client, question, replies.phrases);
    assert keyPhrases == [question];
    assert CS.AnalyzeSentiment(agent.client, question, replies.sentiment).0 == "neutral";
    match FindTopic(Lower(question), 0)
    case Some(k) =>
      assert FindHit(keyPhrases, 0) == Some(Hit(0, k));
    case None =>
      assert FindHit(keyPhrases, 1) == None;
      assert FindHit(keyPhrases, 0) == None;
      assert !Mentions(Lower(question), TrafficTopic);
  }
}
