/**
  `ClaudeAnalyzer.analyze_gmb` and `_parse_analysis`: the collected data is
  compiled into a prompt, sent as one user message, and the first block of the
  reply is the analysis; any exception on the way becomes an error text. The
  language-model service is a parameter: a function from the request to the
  reply it produces.
*/
module ClaudeAnalyzer {
  import opened Wrappers
  import opened PyValues
  import opened PromptCompiler

  /** One message of the conversation sent to the service. */
  datatype Message = Message(role: string, content: string)

  /** The `messages.create` call: the model, the reply budget and the messages. */
  datatype Request = Request(model: string, maxTokens: nat, messages: seq<Message>)

  /** A content block of a reply; only text blocks have a `.text`. */
  datatype Block = TextBlock(text: string) | OtherBlock

  /** What the service does with a request: a reply with its content blocks,
      or an exception carrying its `str`. */
  datatype Reply = Completion(content: seq<Block>) | Raised(message: string)

  const Model: string := "claude-opus-4-5-20251101"
  const MaxTokens: nat := 1500

  /** The text every failure is reported with, before the exception's `str`. */
  const ErrorPrefix: string := "❌ Error al generar análisis: "

  /** The request sent for a prompt. */
  function RequestFor(prompt: string): Request {
    Request(Model, MaxTokens, [Message("user", prompt)])
  }

  /** `gmb_data.get('profile', {})` and `gmb_data.get('performance', {})` fed to
      `_build_prompt`: a value that is not a dict has no `.get`, which raises
      where the prompt first uses it, the profile's lines coming first. */
  function PromptFor(gmbData: Dict): Result<string, PyError> {
    var profile := GetOr(gmbData, "profile", JObj([]));
    var performance := GetOr(gmbData, "performance", JObj([]));
    if !profile.JObj? then Failure(AttributeError)
    else if !performance.JObj? then
      (match ProfileBlock(profile.members)
       case Failure(e) => Failure(e)
       case Success(_) => Failure(AttributeError))
    else BuildPrompt(profile.members, performance.members)
  }

  /** `response.content[0].text`, or the exception that expression raises. */
  function FirstText(content: seq<Block>): Result<string, PyError> {
    if content == [] then Failure(IndexError)
    else if content[0].OtherBlock? then Failure(AttributeError)
    else Success(content[0].text)
  }

  /** `analyze_gmb(gmb_data)`: `service` answers requests and `describe` is
      `str(e)` for the exceptions the analyzer itself raises. */
  function AnalyzeGmb(gmbData: Dict, service: Request -> Reply, describe: PyError -> string): string {
    match PromptFor(gmbData)
    case Failure(e) => ErrorPrefix + describe(e)
    case Success(prompt) =>
      match service(RequestFor(prompt))
      case Raised(message) => ErrorPrefix + message
      case Completion(content) =>
        match FirstText(content)
        case Failure(e) => ErrorPrefix + describe(e)
        case Success(text) => text
  }

  /** `_parse_analysis(response_text)`. */
  function ParseAnalysis(responseText: string): (r: Dict)
    ensures Get(r, "analysis") == Some(JStr(responseText))
    ensures forall k :: 0 <= k < |r| ==> r[k].0 == "analysis"
  {
    [("analysis", JStr(responseText))]
  }

  // ---------------------------------------------------------------------------
  // Properties

  /** When the prompt is built, the service receives exactly one request, a user
      message holding the prompt, and the first text block of its reply is the
      analysis. */
  lemma AnswerIsFirstTextBlock(gmbData: Dict, service: Request -> Reply, describe: PyError -> string,
                               prompt: string, text: string, rest: seq<Block>)
    requires PromptFor(gmbData) == Success(prompt)
    requires service(Request(Model, MaxTokens, [Message("user", prompt)])) == Completion([TextBlock(text)] + rest)
    ensures AnalyzeGmb(gmbData, service, describe) == text
  {
  }

  /** A prompt that cannot be built is reported without consulting the service. */
  lemma PromptFailureSkipsService(gmbData: Dict, s1: Request -> Reply, s2: Request -> Reply,
                                  describe: PyError -> string)
    requires PromptFor(gmbData).Failure?
    ensures AnalyzeGmb(gmbData, s1, describe) == AnalyzeGmb(gmbData, s2, describe)
    ensures AnalyzeGmb(gmbData, s1, describe) == ErrorPrefix + describe(PromptFor(gmbData).error)
  {
  }

  /** The service's own exception, and a reply without a leading text block,
      come back as error texts. */
  lemma ServiceFailureReported(gmbData: Dict, service: Request -> Reply, describe: PyError -> string,
                               prompt: string)
    requires PromptFor(gmbData) == Success(prompt)
    ensures service(RequestFor(prompt)).Raised? ==>
              AnalyzeGmb(gmbData, service, describe) == ErrorPrefix + service(RequestFor(prompt)).message
    ensures service(RequestFor(prompt)) == Completion([]) ==>
              AnalyzeGmb(gmbData, service, describe) == ErrorPrefix + describe(IndexError)
    ensures service(RequestFor(prompt)).Completion? && service(RequestFor(prompt)).content != [] &&
            service(RequestFor(prompt)).content[0].OtherBlock? ==>
              AnalyzeGmb(gmbData, service, describe) == ErrorPrefix + describe(AttributeError)
  {
  }

  /** Profile and performance default to empty dicts, so data with neither still
      yields a prompt: every field shows its placeholder and every counter 0. */
  lemma MissingSectionsStillPrompt(gmbData: Dict)
    requires Get(gmbData, "profile").None? && Get(gmbData, "performance").None?
    ensures PromptFor(gmbData) == BuildPrompt([], [])
    ensures PromptFor(gmbData).Success?
  {
    EmptySectionsBuild();
  }

  /** Empty dicts for both sections give a prompt. */
  lemma EmptySectionsBuild()
    ensures BuildPrompt([], []).Success?
  {
    BuildPromptFailsIff([], []);
    DescriptionAbsent([]);
    PhotoCountShown([]);
    assert AddressText([]).Success?;
    forall k | 0 <= k < |MetricOrder|
      ensures CounterText([], MetricOrder[k]).Success?
    {
      CounterAbsent([], MetricOrder[k]);
    }
  }

  /** A profile that is not a dict makes an AttributeError, whatever the rest holds. */
  lemma ProfileNotADict(gmbData: Dict)
    requires Get(gmbData, "profile").Some? && !Get(gmbData, "profile").value.JObj?
    ensures PromptFor(gmbData) == Failure(AttributeError)
  {
  }

  /** With dict-valued sections the prompt is `_build_prompt`'s, and a
      performance value that is not a dict raises only once the profile's
      lines have been produced. */
  lemma PromptFromSections(gmbData: Dict)
    requires GetOr(gmbData, "profile", JObj([])).JObj?
    ensures GetOr(gmbData, "performance", JObj([])).JObj? ==>
              PromptFor(gmbData) == BuildPrompt(GetOr(gmbData, "profile", JObj([])).members,
                                                GetOr(gmbData, "performance", JObj([])).members)
    ensures !GetOr(gmbData, "performance", JObj([])).JObj? ==>
              (PromptFor(gmbData).Failure? &&
               (ProfileBlock(GetOr(gmbData, "profile", JObj([])).members).Success? ==>
                  PromptFor(gmbData).error == AttributeError))
  {
  }

  /** An analysis, parsed, is found under its single key. */
  lemma ParsedAnalysisLookup(responseText: string, key: string)
    ensures Get(ParseAnalysis(responseText), key).Some? <==> key == "analysis"
    ensures |ParseAnalysis(responseText)| == 1
  {
    var d := ParseAnalysis(responseText);
    assert d[1..] == [];
  }
}
