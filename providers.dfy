/** The language-model side of the response generator (services/aiService.js):
    the prompt each provider is sent, how a provider's reply is turned into the
    text handed to the JSON parser (code-fence stripping, and for Gemini the
    `{...}` extraction), the normalisation of the parsed object, and the
    fallback chain OpenAI, then Gemini, then the local generator.

    The SDK calls and `JSON.parse` are not modelled: a configured client is a
    function from the prompt to its reply, and the parser is a function from
    text to the parsed object, if any. */
module Providers {
  import opened JsString
  import opened StudyData
  import opened MockGenerator

  // ---------------------------------------------------------------------------
  // Prompts
  // ---------------------------------------------------------------------------

  /** Non-question prompts quote at most this many characters of the content. */
  const ExcerptLength := 1000

  /** The three prompt templates: a question quoted in full (asking for a worked
      solution in math mode), or an excerpt of the content in the math or the
      normal topic template. */
  datatype Prompt = QuestionPrompt(question: string, asksForSteps: bool)
                  | MathPrompt(excerpt: string)
                  | TopicPrompt(excerpt: string)

  /** The template both providers choose, with `content.substring(0, 1000)` as the
      excerpt. */
  function ChoosePrompt(content: string, mode: QueryParam, isDirectQuestion: bool): (p: Prompt)
    ensures p.QuestionPrompt? <==> isDirectQuestion
    ensures p.QuestionPrompt? ==> p.question == content && (p.asksForSteps <==> IsMathMode(mode))
    ensures !p.QuestionPrompt? ==>
      (p.MathPrompt? <==> IsMathMode(mode))
      && |p.excerpt| == Min(ExcerptLength, |content|) && StartsWith(content, p.excerpt)
  {
    if isDirectQuestion then QuestionPrompt(content, IsMathMode(mode))
    else if IsMathMode(mode) then MathPrompt(Substring(content, 0, ExcerptLength))
    else TopicPrompt(Substring(content, 0, ExcerptLength))
  }

  // ---------------------------------------------------------------------------
  // From the reply to the JSON text
  // ---------------------------------------------------------------------------

  const Fence := "```"
  const JsonFence := "```json"

  /** `s.replace(/<marker>\n?/g, '')`: scanning from the left, each occurrence of
      `marker` is removed together with a newline right after it. */
  function RemoveAll(s: string, marker: string): (r: string)
    requires marker != []
    ensures |r| <= |s|
    decreases |s|
  {
    if s == [] then []
    else if StartsWith(s, marker) then
      var rest := s[|marker|..];
      RemoveAll(if rest != [] && rest[0] == '\n' then rest[1..] else rest, marker)
    else [s[0]] + RemoveAll(s[1..], marker)
  }

  /** Text without the marker is left as it is. */
  lemma {:induction false} RemoveAbsent(s: string, marker: string)
    requires marker != [] && !Contains(s, marker)
    ensures RemoveAll(s, marker) == s
    decreases |s|
  {
    if s != [] {
      assert !StartsWith(s[0..], marker);
      assert s[0..] == s;
      assert !Contains(s[1..], marker) by {
        forall i | 0 <= i <= |s[1..]| - |marker|
          ensures !StartsWith(s[1..][i..], marker)
        {
          assert s[1..][i..] == s[i + 1..];
        }
      }
      RemoveAbsent(s[1..], marker);
    }
  }

  /** Text that holds no occurrence of the marker is kept character for character
      in front of whatever the rest becomes. */
  lemma {:induction false} RemoveAllSkips(a: string, b: string, marker: string)
    requires marker != []
    requires forall i :: 0 <= i < |a| ==> !StartsWith((a + b)[i..], marker)
    ensures RemoveAll(a + b, marker) == a + RemoveAll(b, marker)
    decreases |a|
  {
    if a == [] {
      assert a + b == b;
    } else {
      var s := a + b;
      assert s[0..] == s;
      assert s[1..] == a[1..] + b;
      forall i | 0 <= i < |a[1..]|
        ensures !StartsWith((a[1..] + b)[i..], marker)
      {
        assert (a[1..] + b)[i..] == s[i + 1..];
      }
      RemoveAllSkips(a[1..], b, marker);
      assert a == [a[0]] + a[1..];
    }
  }

  /** A marker at the front is dropped together with one newline right after it. */
  lemma RemoveAllAtMarker(marker: string, b: string)
    requires marker != []
    ensures RemoveAll(marker + b, marker) == RemoveAll(if b != [] && b[0] == '\n' then b[1..] else b, marker)
  {
    var s := marker + b;
    assert s[..|marker|] == marker;
    assert s[|marker|..] == b;
  }

  /** A marker that opens with a backtick cannot start before the first backtick. */
  lemma NoMarkerBeforeTick(s: string, k: nat, marker: string)
    requires k <= |s| && marker != [] && marker[0] == '`'
    requires forall j :: 0 <= j < k ==> s[j] != '`'
    ensures forall i :: 0 <= i < k ==> !StartsWith(s[i..], marker)
  {
    forall i | 0 <= i < k
      ensures !StartsWith(s[i..], marker)
    {
      assert s[i..][0] == s[i];
    }
  }

  /** Three backticks in a row start at index `i`. */
  predicate TicksAt(s: string, i: nat)
    requires i + 2 < |s|
  {
    s[i] == '`' && s[i + 1] == '`' && s[i + 2] == '`'
  }

  /** No three backticks in a row. */
  predicate FenceFree(s: string) {
    forall i: nat :: i + 2 < |s| ==> !TicksAt(s, i)
  }

  lemma FenceAt(s: string)
    ensures StartsWith(s, Fence) <==> |s| >= 3 && s[0] == '`' && s[1] == '`' && s[2] == '`'
  {
    if |s| >= 3 && s[0] == '`' && s[1] == '`' && s[2] == '`' {
      assert s[..3] == Fence;
    }
  }

  lemma FenceFreeHasNoFence(s: string)
    ensures FenceFree(s) <==> !Contains(s, Fence)
  {
    if !FenceFree(s) {
      var i: nat :| i + 2 < |s| && TicksAt(s, i);
      FenceAt(s[i..]);
    } else {
      forall i | 0 <= i <= |s| - |Fence|
        ensures !StartsWith(s[i..], Fence)
      {
        assert !TicksAt(s, i);
        FenceAt(s[i..]);
      }
    }
  }

  /** Removing every fence leaves none behind: the scan would have matched a fence
      that two joined pieces formed at its first character. The result starts with
      one or two backticks only where the input does. */
  lemma {:induction false} RemovedFencesStayRemoved(s: string)
    ensures FenceFree(RemoveAll(s, Fence))
    ensures var r := RemoveAll(s, Fence); r != [] && r[0] == '`' ==> s != [] && s[0] == '`'
    ensures var r := RemoveAll(s, Fence);
      |r| >= 2 && r[0] == '`' && r[1] == '`' ==> |s| >= 2 && s[0] == '`' && s[1] == '`'
    decreases |s|
  {
    FenceAt(s);
    if s == [] {
    } else if StartsWith(s, Fence) {
      var rest := s[|Fence|..];
      RemovedFencesStayRemoved(if rest != [] && rest[0] == '\n' then rest[1..] else rest);
    } else {
      var tail := RemoveAll(s[1..], Fence);
      RemovedFencesStayRemoved(s[1..]);
      var r := [s[0]] + tail;
      assert RemoveAll(s, Fence) == r;
      forall i: nat | i + 2 < |r|
        ensures !TicksAt(r, i)
      {
        if i > 0 {
          assert r[i] == tail[i - 1] && r[i + 1] == tail[i] && r[i + 2] == tail[i + 1];
          assert !TicksAt(tail, i - 1);
        }
      }
    }
  }

  lemma SliceFenceFree(s: string, a: nat, b: nat)
    requires FenceFree(s) && a <= b <= |s|
    ensures FenceFree(s[a..b])
  {
    var t := s[a..b];
    forall i: nat | i + 2 < |t|
      ensures !TicksAt(t, i)
    {
      assert t[i] == s[a + i] && t[i + 1] == s[a + i + 1] && t[i + 2] == s[a + i + 2];
      assert !TicksAt(s, a + i);
    }
  }

  lemma TrimFenceFree(s: string)
    requires FenceFree(s)
    ensures FenceFree(Trim(s))
  {
    var t := Trim(s);
    var k := |s| - |TrimStart(s)|;
    TrimIsSlice(s);
    SliceFenceFree(s, k, k + |t|);
    assert FenceFree(s[k..k + |t|]);
    assert t == s[k..k + |t|];
  }

  /** The fence handling applied to a trimmed reply: a reply opening with
      "```json" loses every "```json" and then every "```" (each with a newline
      right after it), one opening with "```" loses every "```"; the result is
      trimmed again. Any other reply is kept. */
  function StripFences(reply: string): (json: string)
    ensures !StartsWith(reply, Fence) ==> json == reply
  {
    JsonFenceIsFence(reply);
    if StartsWith(reply, JsonFence) then Trim(RemoveAll(RemoveAll(reply, JsonFence), Fence))
    else if StartsWith(reply, Fence) then Trim(RemoveAll(reply, Fence))
    else reply
  }

  /** A reply fenced as a whole, with the fences on their own lines, comes out as
      the body between the fences, whether the opening fence is "```json" or
      "```", provided the body has no backtick and no whitespace at either end. */
  lemma FencedBodyKept(body: string)
    requires '`' !in body
    requires body == [] || (!IsSpace(body[0]) && !IsSpace(body[|body| - 1]))
    ensures StripFences(JsonFence + "\n" + body + "\n" + Fence) == body
    ensures StripFences(Fence + "\n" + body + "\n" + Fence) == body
  {
    ClosingFenceRemoved(body);
    TrimNewline(body);
    JsonFenceOnlyInFront(body);
    OpeningDropped(JsonFence, body, Fence);
    OpeningDropped(Fence, body, Fence);
    DiffersAt(Fence + "\n" + body + "\n" + Fence, JsonFence, 3);
  }

  /** An opening marker on its own line is dropped with its newline. */
  lemma OpeningDropped(marker: string, body: string, closing: string)
    requires marker != []
    ensures var s := marker + "\n" + body + "\n" + closing;
      StartsWith(s, marker) && s[|marker|] == '\n'
      && RemoveAll(s, marker) == RemoveAll(body + "\n" + closing, marker)
  {
    var rest := "\n" + body + "\n" + closing;
    var s := marker + "\n" + body + "\n" + closing;
    assert s == marker + rest;
    RemoveAllAtMarker(marker, rest);
    assert rest[1..] == body + "\n" + closing;
  }

  lemma DiffersAt(s: string, p: string, k: nat)
    requires k < |p| && k < |s| && s[k] != p[k]
    ensures !StartsWith(s, p)
  {
    if |p| <= |s| {
      assert s[..|p|][k] == s[k];
    }
  }

  /** The body and its newline hold no backtick, so the closing fence is the
      only one, and removing it leaves the body and its newline. */
  lemma ClosingFenceRemoved(body: string)
    requires '`' !in body
    ensures RemoveAll(body + "\n" + Fence, Fence) == body + "\n"
  {
    var inner := body + "\n" + Fence;
    BodyHasNoTick(body);
    NoMarkerBeforeTick(inner, |body| + 1, Fence);
    assert inner == (body + "\n") + Fence;
    RemoveAllSkips(body + "\n", Fence, Fence);
    assert Fence == Fence + [];
    RemoveAllAtMarker(Fence, []);
  }

  /** "```json" does not fit anywhere in the body, its newline and the closing fence. */
  lemma JsonFenceOnlyInFront(body: string)
    requires '`' !in body
    ensures RemoveAll(body + "\n" + Fence, JsonFence) == body + "\n" + Fence
  {
    var inner := body + "\n" + Fence;
    BodyHasNoTick(body);
    NoMarkerBeforeTick(inner, |body| + 1, JsonFence);
    assert !Contains(inner, JsonFence);
    RemoveAbsent(inner, JsonFence);
  }

  lemma BodyHasNoTick(body: string)
    requires '`' !in body
    ensures var inner := body + "\n" + Fence; forall j :: 0 <= j < |body| + 1 ==> inner[j] != '`'
  {
    var inner := body + "\n" + Fence;
    forall j | 0 <= j < |body| + 1
      ensures inner[j] != '`'
    {
      if j < |body| {
        assert inner[j] == body[j];
      }
    }
  }

  /** A text without whitespace at either end is what trimming it plus a final newline gives. */
  lemma TrimNewline(body: string)
    requires body == [] || (!IsSpace(body[0]) && !IsSpace(body[|body| - 1]))
    ensures Trim(body + "\n") == body
  {
    var s := body + "\n";
    assert IsSpace('\n');
    if body == [] {
      assert TrimStart(s) == TrimStart(s[1..]) && s[1..] == [];
    } else {
      assert s[0] == body[0];
      assert TrimStart(s) == s;
      assert s[..|s| - 1] == body;
      assert TrimEnd(s) == TrimEnd(body);
      assert TrimEnd(body) == body;
    }
  }

  /** The reply "```json\n{}\n```" is parsed as "{}"; so is "```\n{}\n```". */
  lemma FencedObjectExample()
    ensures StripFences(JsonFence + "\n" + "{}" + "\n" + Fence) == "{}"
    ensures StripFences(Fence + "\n" + "{}" + "\n" + Fence) == "{}"
  {
    FencedBodyKept("{}");
  }

  lemma JsonFenceIsFence(s: string)
    ensures StartsWith(s, JsonFence) ==> StartsWith(s, Fence)
  {
    if StartsWith(s, JsonFence) {
      assert s[..3] == s[..7][..3];
    }
  }

  /** A fenced reply comes out without any fence. */
  lemma StrippedHasNoFence(reply: string)
    requires StartsWith(reply, Fence)
    ensures FenceFree(StripFences(reply)) && !Contains(StripFences(reply), Fence)
  {
    var inner := if StartsWith(reply, JsonFence) then RemoveAll(reply, JsonFence) else reply;
    assert StripFences(reply) == Trim(RemoveAll(inner, Fence));
    RemovedFencesStayRemoved(inner);
    TrimFenceFree(RemoveAll(inner, Fence));
    FenceFreeHasNoFence(StripFences(reply));
  }

  /** Stripping twice is stripping once. */
  lemma StripFencesIdempotent(reply: string)
    ensures StripFences(StripFences(reply)) == StripFences(reply)
  {
    if StartsWith(reply, Fence) {
      var json := StripFences(reply);
      StrippedHasNoFence(reply);
      FenceAt(json);
      if |json| >= 3 {
        assert !TicksAt(json, 0);
      }
    }
  }

  /** `text.match(/\{[\s\S]*\}/)` finds something: a `}` follows the first `{`. */
  predicate HasObject(text: string) {
    '{' in text && '}' in text[IndexOf(text, '{')..]
  }

  /** The span from `text[i] == '{'` to `text[j] == '}'` with no `{` before it and
      no `}` after it. */
  predicate IsObjectSpan(text: string, i: int, j: int) {
    0 <= i < j < |text| && text[i] == '{' && text[j] == '}' && '{' !in text[..i] && '}' !in text[j + 1..]
  }

  /** Gemini's extraction: the greedy match from the first `{` to the last `}`
      replaces the text when there is one. */
  function ExtractObject(text: string): (r: string)
    ensures HasObject(text) ==>
      var i, j := IndexOf(text, '{'), LastIndexOf(text, '}');
      IsObjectSpan(text, i, j) && r == text[i..j + 1]
    ensures !HasObject(text) ==> r == text
  {
    if HasObject(text) then
      var i, j := IndexOf(text, '{'), LastIndexOf(text, '}');
      ObjectSpanFound(text);
      text[i..j + 1]
    else text
  }

  /** When a `}` follows the first `{`, the last `}` does too. */
  lemma ObjectSpanFound(text: string)
    requires HasObject(text)
    ensures IsObjectSpan(text, IndexOf(text, '{'), LastIndexOf(text, '}'))
  {
    var i, j := IndexOf(text, '{'), LastIndexOf(text, '}');
    var k :| i <= k < |text| && text[k] == '}';
    assert k <= j;
    assert i != k;
  }

  /** Extracting twice is extracting once: the span found already starts at its
      first `{` and ends at its last `}`. */
  lemma ExtractObjectIdempotent(text: string)
    ensures ExtractObject(ExtractObject(text)) == ExtractObject(text)
  {
    if HasObject(text) {
      var i, j := IndexOf(text, '{'), LastIndexOf(text, '}');
      assert IsObjectSpan(text, i, j) && ExtractObject(text) == text[i..j + 1];
      SpanIsWhole(text, i, j);
    } else {
      assert ExtractObject(text) == text;
    }
  }

  /** The span from the first `{` to the last `}` is its own span. */
  lemma SpanIsWhole(text: string, i: int, j: int)
    requires IsObjectSpan(text, i, j)
    ensures ExtractObject(text[i..j + 1]) == text[i..j + 1]
  {
    var r := text[i..j + 1];
    assert IndexOf(r, '{') == 0;
    assert LastIndexOf(r, '}') == |r| - 1;
    assert r[0..][|r| - 1] == '}';
    assert r[0..|r|] == r;
  }

  // ---------------------------------------------------------------------------
  // Normalisation of the parsed object
  // ---------------------------------------------------------------------------

  /** The parsed reply: each field is absent when the object lacks it or holds a
      falsy value. */
  datatype ParsedReply = ParsedReply(summary: Option<seq<string>>, quiz: Option<seq<QuizItem>>,
                                     studyTip: Option<string>, solution: Option<Solution>)

  function OrElse<T>(o: Option<T>, default: T): (r: T)
    ensures o.Some? ==> r == o.value
    ensures o.None? ==> r == default
  {
    if o.Some? then o.value else default
  }

  /** The structure check: missing summary and quiz become `[]` and a missing tip
      `''`; the solution is kept in math mode and dropped in every other mode. */
  function Normalize(p: ParsedReply, mode: QueryParam): (a: Artifact)
    ensures a.solution.Some? ==> IsMathMode(mode) && a.solution == p.solution
    ensures IsMathMode(mode) ==> a.solution == p.solution
    ensures a.summary == OrElse(p.summary, []) && a.quiz == OrElse(p.quiz, [])
    ensures a.studyTip == OrElse(p.studyTip, "")
  {
    if IsMathMode(mode) then
      Artifact(OrElse(p.summary, []), OrElse(p.quiz, []), OrElse(p.studyTip, ""), p.solution)
    else
      Artifact(OrElse(p.summary, []), OrElse(p.quiz, []), OrElse(p.studyTip, ""), None)
  }

  /** The object a normalised artifact would parse back to. */
  function AsParsed(a: Artifact): ParsedReply {
    ParsedReply(Some(a.summary), Some(a.quiz), Some(a.studyTip), a.solution)
  }

  /** Normalising a normalised reply again changes nothing. */
  lemma NormalizeIdempotent(p: ParsedReply, mode: QueryParam)
    ensures Normalize(AsParsed(Normalize(p, mode)), mode) == Normalize(p, mode)
  {
  }

  /** The mode decides only the solution. */
  lemma ModeOnlyAffectsSolution(p: ParsedReply, mode1: QueryParam, mode2: QueryParam)
    ensures var a, b := Normalize(p, mode1), Normalize(p, mode2);
      a.summary == b.summary && a.quiz == b.quiz && a.studyTip == b.studyTip
    ensures !IsMathMode(mode1) ==> Normalize(p, mode1).solution == None
  {
  }

  // ---------------------------------------------------------------------------
  // The providers and the fallback chain
  // ---------------------------------------------------------------------------

  datatype Provider = OpenAI | Gemini

  /** What a provider's SDK call ends in: an exception, or the reply's text. */
  datatype Reply = Failed | Replied(text: string)

  /** A provider client: absent (no API key), or present and answering each
      prompt with a reply. */
  datatype Client = NoClient | Client(answer: Prompt -> Reply)

  /** The text `JSON.parse` receives: the trimmed reply with its fences stripped,
      and for Gemini the `{...}` span of that. */
  function JsonText(p: Provider, reply: string): (json: string)
    ensures p == OpenAI ==> json == StripFences(Trim(reply))
    ensures p == Gemini ==> json == ExtractObject(StripFences(Trim(reply)))
  {
    var stripped := StripFences(Trim(reply));
    if p == Gemini then ExtractObject(stripped) else stripped
  }

  /** What one provider call returns: nothing when the SDK call throws or the text
      does not parse, the normalised object otherwise. */
  function ProviderArtifact(p: Provider, answer: Prompt -> Reply, parse: string -> Option<ParsedReply>,
                            content: string, mode: QueryParam, isDirectQuestion: bool): (r: Option<Artifact>)
    ensures var reply := answer(ChoosePrompt(content, mode, isDirectQuestion));
      r.Some? <==> reply.Replied? && parse(JsonText(p, reply.text)).Some?
    ensures r.Some? ==> r.value.solution.Some? ==> IsMathMode(mode)
    // the artifact is the parsed reply, normalised
    ensures var reply := answer(ChoosePrompt(content, mode, isDirectQuestion));
      r.Some? ==> r.value == Normalize(parse(JsonText(p, reply.text)).value, mode)
  {
    match answer(ChoosePrompt(content, mode, isDirectQuestion))
    case Failed => None
    case Replied(text) =>
      match parse(JsonText(p, text))
      case None => None
      case Some(obj) => Some(Normalize(obj, mode))
  }

  /** Trying a provider: nothing without a client. */
  function Attempt(p: Provider, c: Client, parse: string -> Option<ParsedReply>,
                   content: string, mode: QueryParam, isDirectQuestion: bool): (r: Option<Artifact>)
    ensures c.NoClient? ==> r.None?
    ensures c.Client? ==> r == ProviderArtifact(p, c.answer, parse, content, mode, isDirectQuestion)
    ensures r.Some? && !IsMathMode(mode) ==> r.value.solution.None?
  {
    if c.NoClient? then None else ProviderArtifact(p, c.answer, parse, content, mode, isDirectQuestion)
  }

  /** What `generateAIResponse` returns: OpenAI's artifact if it yields one, else
      Gemini's, else the local generator's. */
  function AIResponse(content: string, mode: QueryParam, isDirectQuestion: bool,
                      openai: Client, gemini: Client, parse: string -> Option<ParsedReply>, t: MockTexts): (a: Artifact)
    requires ValidTexts(t)
    ensures openai.NoClient? && gemini.NoClient? ==> a == MockArtifact(content, mode, isDirectQuestion, t)
    // when neither provider yields an artifact, whether absent or failing, the local generator answers
    ensures Attempt(OpenAI, openai, parse, content, mode, isDirectQuestion).None?
      && Attempt(Gemini, gemini, parse, content, mode, isDirectQuestion).None?
      ==> a == MockArtifact(content, mode, isDirectQuestion, t)
    // outside math mode a topic never gets a solution, whoever answers
    ensures !isDirectQuestion && !IsMathMode(mode) ==> a.solution.None?
  {
    var first := Attempt(OpenAI, openai, parse, content, mode, isDirectQuestion);
    if first.Some? then first.value
    else
      var second := Attempt(Gemini, gemini, parse, content, mode, isDirectQuestion);
      if second.Some? then second.value
      else MockArtifact(content, mode, isDirectQuestion, t)
  }

  /** The reply's text as the source prepares it for the parser: trimmed, fences
      stripped, and for Gemini narrowed to the `{...}` span when there is one. */
  method PrepareJson(p: Provider, reply: string) returns (jsonText: string)
    ensures jsonText == JsonText(p, reply)
  {
    var responseText := Trim(reply);
    jsonText := responseText;
    if StartsWith(responseText, JsonFence) {
      jsonText := Trim(RemoveAll(RemoveAll(responseText, JsonFence), Fence));
    } else if StartsWith(responseText, Fence) {
      jsonText := Trim(RemoveAll(responseText, Fence));
    }
    assert jsonText == StripFences(responseText);
    if p == Gemini && HasObject(jsonText) {
      jsonText := ExtractObject(jsonText);
    }
  }

  /** One provider call as the source writes it: choose the prompt, call the
      SDK, prepare the text, parse, normalise. */
  method CallProvider(p: Provider, answer: Prompt -> Reply, parse: string -> Option<ParsedReply>,
                      content: string, mode: QueryParam, isDirectQuestion: bool) returns (r: Option<Artifact>)
    ensures r == ProviderArtifact(p, answer, parse, content, mode, isDirectQuestion)
  {
    var prompt := ChoosePrompt(content, mode, isDirectQuestion);
    var reply := answer(prompt);
    if reply.Failed? {
      return None;
    }
    var jsonText := PrepareJson(p, reply.text);
    match parse(jsonText)
    case None => return None;
    case Some(obj) => r := Some(Normalize(obj, mode));
  }

  /** `generateAIResponse`: OpenAI first, then Gemini, each only when its client
      exists and at most once, then the local generator. `askedOpenAI` and
      `askedGemini` say which providers were called: Gemini only after OpenAI
      yielded nothing. */
  method GenerateAIResponse(content: string, mode: QueryParam, isDirectQuestion: bool,
                            openai: Client, gemini: Client, parse: string -> Option<ParsedReply>, t: MockTexts)
    returns (r: Artifact, askedOpenAI: bool, askedGemini: bool)
    requires ValidTexts(t)
    ensures r == AIResponse(content, mode, isDirectQuestion, openai, gemini, parse, t)
    ensures askedOpenAI == openai.Client?
    ensures askedGemini == (gemini.Client? && Attempt(OpenAI, openai, parse, content, mode, isDirectQuestion).None?)
  {
    askedOpenAI, askedGemini := false, false;
    var first := None;
    if openai.Client? {
      askedOpenAI := true;
      first := CallProvider(OpenAI, openai.answer, parse, content, mode, isDirectQuestion);
    }
    assert first == Attempt(OpenAI, openai, parse, content, mode, isDirectQuestion);
    if first.Some? {
      return first.value, askedOpenAI, askedGemini;
    }
    var second := None;
    if gemini.Client? {
      askedGemini := true;
      second := CallProvider(Gemini, gemini.answer, parse, content, mode, isDirectQuestion);
    }
    assert second == Attempt(Gemini, gemini, parse, content, mode, isDirectQuestion);
    if second.Some? {
      return second.value, askedOpenAI, askedGemini;
    }
    r := GenerateMockResponse(content, mode, isDirectQuestion, t);
  }

  // ---------------------------------------------------------------------------
  // Properties of the chain
  // ---------------------------------------------------------------------------

  /** The first provider that yields an artifact decides the response: OpenAI's
      answer wins whatever Gemini would have said, and Gemini's wins over the
      local generator. */
  lemma FirstSuccessWins(content: string, mode: QueryParam, isDirectQuestion: bool,
                         openai: Client, gemini: Client, parse: string -> Option<ParsedReply>, t: MockTexts)
    requires ValidTexts(t)
    ensures var first := Attempt(OpenAI, openai, parse, content, mode, isDirectQuestion);
      first.Some? ==> AIResponse(content, mode, isDirectQuestion, openai, gemini, parse, t) == first.value
    ensures var first := Attempt(OpenAI, openai, parse, content, mode, isDirectQuestion);
      var second := Attempt(Gemini, gemini, parse, content, mode, isDirectQuestion);
      first.None? && second.Some? ==> AIResponse(content, mode, isDirectQuestion, openai, gemini, parse, t) == second.value
    ensures var first := Attempt(OpenAI, openai, parse, content, mode, isDirectQuestion);
      var second := Attempt(Gemini, gemini, parse, content, mode, isDirectQuestion);
      first.None? && second.None? ==> AIResponse(content, mode, isDirectQuestion, openai, gemini, parse, t) == MockArtifact(content, mode, isDirectQuestion, t)
  {
  }

  /** Configured providers whose calls both throw leave the answer to the local
      generator, just as absent ones do. */
  lemma FailingProvidersFallBack(content: string, mode: QueryParam, isDirectQuestion: bool,
                                 parse: string -> Option<ParsedReply>, t: MockTexts)
    requires ValidTexts(t)
    ensures var down := Client(_ => Failed);
      AIResponse(content, mode, isDirectQuestion, down, down, parse, t) == MockArtifact(content, mode, isDirectQuestion, t)
  {
  }

  /** A reply the parser rejects counts as a failure: the next provider, and then
      the local generator, answers. */
  lemma UnparsedReplyFallsThrough(content: string, mode: QueryParam, isDirectQuestion: bool,
                                  openai: Client, gemini: Client, t: MockTexts)
    requires ValidTexts(t)
    ensures AIResponse(content, mode, isDirectQuestion, openai, gemini, _ => None, t) == MockArtifact(content, mode, isDirectQuestion, t)
  {
  }

  /** A fenced reply reaches the parser without fences, from either provider. */
  lemma ParserSeesNoFence(p: Provider, reply: string)
    requires StartsWith(Trim(reply), Fence)
    ensures !Contains(JsonText(p, reply), Fence)
  {
    var stripped := StripFences(Trim(reply));
    StrippedHasNoFence(Trim(reply));
    ExtractKeepsFenceFree(stripped);
    FenceFreeHasNoFence(JsonText(p, reply));
  }

  lemma ExtractKeepsFenceFree(s: string)
    requires FenceFree(s)
    ensures FenceFree(ExtractObject(s))
  {
    if HasObject(s) {
      SliceFenceFree(s, IndexOf(s, '{'), LastIndexOf(s, '}') + 1);
    }
  }
}
