/** The study-data request handler (controllers/studyController.js): validate
    the query, classify the topic, ask the Wikipedia client for content, hand
    the content (or the bare question) to the response generator, and map each
    outcome to an HTTP status and body.

    The Wikipedia client is a parameter `lookup`, called only once the query is
    valid; `Route` takes its outcome `fetch`, what `fetchWikipediaData(topic)`
    returns or throws. The response generator is modelled by `Providers`. */
module StudyController {
  import opened JsString
  import opened StudyData
  import opened Validation
  import opened Wikipedia
  import opened MockGenerator
  import opened Providers

  // ---------------------------------------------------------------------------
  // The question classifier
  // ---------------------------------------------------------------------------

  /** The words the classifier looks for at the very start of the topic. */
  const LeadWords: seq<string> := ["what", "how", "why", "when", "where", "who", "solve", "calculate", "find"]

  /** `s` starts with the lower-case word `w`, letters compared case-insensitively. */
  predicate StartsWithIgnoringCase(s: string, w: string) {
    |w| <= |s| && forall i :: 0 <= i < |w| ==> ToLowerAscii(s[i]) == w[i]
  }

  /** `/[?=]|^(what|how|why|when|where|who|solve|calculate|find)/i.test(topic)`:
      a `?` or `=` anywhere, or one of the lead words as a prefix of the
      untrimmed topic (a prefix, not a whole word). */
  predicate IsQuestionLike(topic: string) {
    '?' in topic || '=' in topic || exists k :: 0 <= k < |LeadWords| && StartsWithIgnoringCase(topic, LeadWords[k])
  }

  /** The prefix test accepts any capitalisation and does not look for a word
      boundary: "Whole numbers" is question-like because it starts with "who". */
  lemma PrefixNotWord()
    ensures IsQuestionLike("Whole numbers") && IsQuestionLike("WHY is the sky blue")
  {
    assert StartsWithIgnoringCase("Whole numbers", LeadWords[5]);
    assert StartsWithIgnoringCase("WHY is the sky blue", LeadWords[2]);
  }

  /** An equation is question-like wherever its `=` stands. */
  lemma EquationIsQuestion()
    ensures IsQuestionLike("3x + 5 = 20")
  {
    assert "3x + 5 = 20"[7] == '=';
  }

  /** `u` spells the lower-case word `w` in some mix of upper and lower case. */
  predicate CaseVariant(u: string, w: string) {
    |u| == |w| && forall i :: 0 <= i < |u| ==> ToLowerAscii(u[i]) == w[i]
  }

  /** Any capitalisation of any lead word, followed by anything at all, is
      question-like. */
  lemma LeadWordMakesQuestion(k: nat, u: string, tail: string)
    requires k < |LeadWords| && CaseVariant(u, LeadWords[k])
    ensures IsQuestionLike(u + tail)
  {
    var s := u + tail;
    forall i | 0 <= i < |LeadWords[k]|
      ensures ToLowerAscii(s[i]) == LeadWords[k][i]
    {
      assert s[i] == u[i];
    }
    assert StartsWithIgnoringCase(s, LeadWords[k]);
  }

  /** The initials of the lead words. */
  predicate LeadInitial(c: char) { c == 'w' || c == 'h' || c == 's' || c == 'c' || c == 'f' }

  /** Conversely, a topic with no `?` and no `=` whose first letter, in either
      case, starts none of the lead words is not question-like. */
  lemma NoMarkNoLeadIsPlain(topic: string)
    requires '?' !in topic && '=' !in topic
    requires topic == [] || !LeadInitial(ToLowerAscii(topic[0]))
    ensures !IsQuestionLike(topic)
  {
    forall k | 0 <= k < |LeadWords|
      ensures !StartsWithIgnoringCase(topic, LeadWords[k])
    {
      assert LeadInitial(LeadWords[k][0]);
    }
  }

  /** A plain topic name is not question-like. */
  lemma PlainTopic()
    ensures !IsQuestionLike("Photosynthesis")
  {
    var s := "Photosynthesis";
    assert ToLowerAscii(s[0]) == 'p';
    NoMarkNoLeadIsPlain(s);
  }

  // ---------------------------------------------------------------------------
  // Which path the request takes
  // ---------------------------------------------------------------------------

  const InvalidInput := "Invalid input"
  const TopicNotFound := "Topic not found"
  const InternalError := "Internal server error"
  const FailedToProcess := "Failed to process study request"
  const GeneratedSource := "AI-generated response"
  const DefaultMode := "normal"

  /** How a request ends: rejected by the validator, a plain topic whose lookup
      came back without content, a lookup that threw on a plain topic, or a
      call to the response generator with its content and its `source` link. */
  datatype Plan = RejectInput(message: string)
                | TopicMissing
                | ServerError(message: string)
                | Answer(content: string, isDirectQuestion: bool, source: string)

  /** The text of a validated topic. */
  function TopicText(topic: QueryParam): string {
    if topic.Text? then topic.s else ""
  }

  /** The path `getStudyData` takes for the query and the lookup's outcome. */
  function Route(topic: QueryParam, mode: QueryParam, fetch: Result<WikiData>): (p: Plan)
    // an invalid query is rejected with the validator's message, before any lookup
    ensures p.RejectInput? <==> !ValidateInput(topic, mode).valid
    ensures p.RejectInput? ==> p.message == ValidateInput(topic, mode).message
    ensures !p.RejectInput? ==> topic.Text?
    // a question or a math-mode request always reaches the generator
    ensures ValidateInput(topic, mode).valid && (IsQuestionLike(topic.s) || IsMathMode(mode)) ==> p.Answer?
    // ... with the bare question when the lookup threw
    ensures ValidateInput(topic, mode).valid && (IsQuestionLike(topic.s) || IsMathMode(mode)) && fetch.Err? ==>
      p == Answer(topic.s, true, GeneratedSource)
    // the not-found response only for a plain topic whose lookup has no content
    ensures p.TopicMissing? <==>
      ValidateInput(topic, mode).valid && !IsQuestionLike(topic.s) && !IsMathMode(mode)
      && fetch.Ok? && fetch.value.content == ""
    // a lookup that throws on a plain topic is a server error carrying its message
    ensures p.ServerError? <==>
      ValidateInput(topic, mode).valid && !IsQuestionLike(topic.s) && !IsMathMode(mode) && fetch.Err?
    ensures p.ServerError? ==> p.message == Or(fetch.message, FailedToProcess)
    // looked-up content goes to the generator as content, never as a question
    ensures p.Answer? && fetch.Ok? ==> p == Answer(fetch.value.content, false, Or(fetch.value.source, GeneratedSource))
  {
    var v := ValidateInput(topic, mode);
    if !v.valid then RejectInput(v.message)
    else
      ValidMeansWellFormed(topic, mode);
      if IsQuestionLike(topic.s) || IsMathMode(mode) then
        match fetch
        case Err(_) => Answer(topic.s, true, GeneratedSource)
        case Ok(d) => Answer(d.content, false, Or(d.source, GeneratedSource))
      else
        match fetch
        case Err(m) => ServerError(Or(m, FailedToProcess))
        case Ok(d) =>
          if d.content == "" then TopicMissing
          else Answer(d.content, false, Or(d.source, GeneratedSource))
  }

  // ---------------------------------------------------------------------------
  // The response
  // ---------------------------------------------------------------------------

  /** A JSON body: an error with its message, or the study data. */
  datatype Body = ErrorBody(error: string, message: string)
                | StudyBody(topic: string, mode: string, summary: seq<string>, quiz: seq<QuizItem>,
                            studyTip: string, solution: Option<Solution>, source: string)

  datatype Response = Response(status: int, body: Body)

  /** `mode || 'normal'`. */
  function ModeName(mode: QueryParam): (m: string)
    ensures Truthy(mode) && mode.Text? ==> m == mode.s
    ensures !Truthy(mode) ==> m == DefaultMode
  {
    if mode.Text? && mode.s != "" then mode.s else DefaultMode
  }

  /** The response for a request that does not reach the generator. */
  function ErrorResponse(topic: QueryParam, p: Plan): (r: Response)
    requires !p.Answer?
    ensures r.body.ErrorBody?
    ensures p.RejectInput? ==> r == Response(400, ErrorBody(InvalidInput, p.message))
    ensures p.TopicMissing? ==>
      r.status == 404 && r.body.error == TopicNotFound && r.body.message == "Could not find information about \"" + TopicText(topic) + "\""
    ensures p.ServerError? ==> r == Response(500, ErrorBody(InternalError, p.message))
  {
    match p
    case RejectInput(m) => Response(400, ErrorBody(InvalidInput, m))
    case TopicMissing => Response(404, ErrorBody(TopicNotFound, "Could not find information about \"" + TopicText(topic) + "\""))
    case ServerError(m) => Response(500, ErrorBody(InternalError, m))
  }

  /** The 200 response: the topic echoed, the mode defaulted, the generator's
      fields, and the source link. */
  function StudyResult(topic: QueryParam, mode: QueryParam, a: Artifact, source: string): (r: Response)
    ensures r.status == 200 && r.body.StudyBody?
    ensures r.body.topic == TopicText(topic) && r.body.mode == ModeName(mode) && r.body.source == source
    ensures r.body.summary == a.summary && r.body.quiz == a.quiz && r.body.studyTip == a.studyTip
    ensures r.body.solution == a.solution
  {
    Response(200, StudyBody(TopicText(topic), ModeName(mode), a.summary, a.quiz, a.studyTip, a.solution, source))
  }

  /** The calls the handler makes to the outside. */
  datatype Call = Lookup(topic: string) | Generate(content: string, isDirectQuestion: bool)

  /** Lines 10-44 of `getStudyData`: validation, then the lookup, recorded in
      `calls` when it is made, then what the handler does with its outcome.
      `lookup` stands for `fetchWikipediaData`. */
  method ChoosePath(topic: QueryParam, mode: QueryParam, lookup: string -> Result<WikiData>)
    returns (p: Plan, calls: seq<Call>)
    ensures p == Route(topic, mode, lookup(TopicText(topic)))
    ensures calls == if ValidateInput(topic, mode).valid then [Lookup(TopicText(topic))] else []
  {
    calls := [];
    var validation := ValidateInput(topic, mode);
    if !validation.valid {
      return RejectInput(validation.message), calls;
    }
    ValidMeansWellFormed(topic, mode);
    var fetch := lookup(topic.s);
    calls := calls + [Lookup(topic.s)];
    p := UseLookup(topic, mode, fetch);
  }

  /** Lines 19-44: the classifier, and the local `wikipediaData` and
      `useDirectAI` flags set from the lookup's outcome, up to the point where
      the handler either answers with an error or knows what to hand the
      generator. */
  method UseLookup(topic: QueryParam, mode: QueryParam, fetch: Result<WikiData>) returns (p: Plan)
    requires ValidateInput(topic, mode).valid && topic.Text?
    ensures p == Route(topic, mode, fetch)
  {
    var isQuestion := IsQuestionLike(topic.s);
    var wikipediaData: Option<WikiData> := None;
    var useDirectAI := false;
    if isQuestion || IsMathMode(mode) {
      match fetch
      case Ok(d) => wikipediaData := Some(d);
      case Err(_) => useDirectAI := true;
    } else {
      match fetch
      case Err(m) =>
        return ServerError(Or(m, FailedToProcess));
      case Ok(d) =>
        if d.content == "" {
          return TopicMissing;
        }
        wikipediaData := Some(d);
    }
    if useDirectAI {
      p := Answer(topic.s, true, GeneratedSource);
    } else {
      p := Answer(wikipediaData.value.content, false, Or(wikipediaData.value.source, GeneratedSource));
    }
  }

  /** `getStudyData`: the path (lines 10-44), then the generator and the 200 body
      (lines 46-64), or the error response. `calls` lists the lookup and the
      generator call in the order they are made: no call for a rejected query,
      the lookup alone when the request ends at a 404 or 500, the lookup and then
      the generator otherwise. */
  method GetStudyData(topic: QueryParam, mode: QueryParam, lookup: string -> Result<WikiData>,
                      openai: Client, gemini: Client, parse: string -> Option<ParsedReply>, t: MockTexts)
    returns (res: Response, calls: seq<Call>)
    requires ValidTexts(t)
    ensures var p := Route(topic, mode, lookup(TopicText(topic)));
      !p.Answer? ==> res == ErrorResponse(topic, p)
    ensures var p := Route(topic, mode, lookup(TopicText(topic)));
      p.Answer? ==> res == StudyResult(topic, mode, AIResponse(p.content, mode, p.isDirectQuestion, openai, gemini, parse, t), p.source)
    // the lookup is made exactly for a valid query, and first
    ensures calls == [] <==> !ValidateInput(topic, mode).valid
    ensures calls != [] ==> calls[0] == Lookup(TopicText(topic))
    // the generator is called, once and last, exactly when the path reaches it
    ensures var p := Route(topic, mode, lookup(TopicText(topic)));
      |calls| == 2 <==> p.Answer?
    ensures var p := Route(topic, mode, lookup(TopicText(topic)));
      p.Answer? ==> calls[1] == Generate(p.content, p.isDirectQuestion)
    ensures |calls| <= 2
  {
    var p;
    p, calls := ChoosePath(topic, mode, lookup);
    if !p.Answer? {
      return ErrorResponse(topic, p), calls;
    }
    calls := calls + [Generate(p.content, p.isDirectQuestion)];
    var aiResponse, _, _ := GenerateAIResponse(p.content, mode, p.isDirectQuestion, openai, gemini, parse, t);
    res := StudyResult(topic, mode, aiResponse, p.source);
  }

  // ---------------------------------------------------------------------------
  // Properties of the handler
  // ---------------------------------------------------------------------------

  /** A rejected query never looks at the lookup's outcome: any two outcomes give
      the same rejection. */
  lemma RejectionIgnoresLookup(topic: QueryParam, mode: QueryParam, f1: Result<WikiData>, f2: Result<WikiData>)
    requires !ValidateInput(topic, mode).valid
    ensures Route(topic, mode, f1) == Route(topic, mode, f2) == RejectInput(ValidateInput(topic, mode).message)
  {
  }

  /** Wikipedia's "not found" is thrown by the client, so for a plain topic it
      ends as a 500 carrying the client's message, not as a 404. */
  lemma WikipediaNotFoundIsServerError(topic: string, mode: QueryParam, encodedTopic: string, page: Fetched<string>)
    requires ValidateInput(Text(topic), mode).valid && !IsQuestionLike(topic) && !IsMathMode(mode)
    ensures var fetch := FetchWikipediaData(topic, encodedTopic, Fetched.Failed(HttpError(404, "Not Found")), page);
      Route(Text(topic), mode, fetch) == ServerError(NotFoundMessage(topic))
      && ErrorResponse(Text(topic), Route(Text(topic), mode, fetch))
         == Response(500, ErrorBody(InternalError, NotFoundMessage(topic)))
  {
    var fetch := FetchWikipediaData(topic, encodedTopic, Fetched.Failed(HttpError(404, "Not Found")), page);
    assert fetch == Err(NotFoundMessage(topic));
    assert NotFoundMessage(topic)[0] == 'T';
  }

  /** The worked example: with no provider configured and a lookup that throws,
      "3x + 5 = 20" goes to the local generator as a direct question, which
      answers with the solution x = 5 and a worked solution. */
  lemma WorkedExampleRequest(mode: QueryParam, fetch: Result<WikiData>, parse: string -> Option<ParsedReply>, t: MockTexts)
    requires ValidTexts(t) && ValidateInput(Text("3x + 5 = 20"), mode).valid && fetch.Err?
    ensures Route(Text("3x + 5 = 20"), mode, fetch) == Answer("3x + 5 = 20", true, GeneratedSource)
    ensures var a := AIResponse("3x + 5 = 20", mode, true, NoClient, NoClient, parse, t);
      |a.summary| == 3 && a.summary[1] == t.direct.solutionLead + "x = 5" && a.solution.Some?
  {
    EquationIsQuestion();
    WorkedExampleAnswer(t.direct);
  }
}
