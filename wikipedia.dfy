/** The deterministic parts of the Wikipedia client (services/wikipediaService.js):
    which of the two responses supplies the content, the title and the source
    link, how an HTML page is flattened to text, and which message each failure
    is reported with. The two HTTP requests are inputs: their outcomes are given. */
module Wikipedia {
  import opened JsString
  import opened StudyData

  const PageBase := "https://en.wikipedia.org/wiki/"

  /** The longest flattened page text kept. */
  const MaxTextLength := 2000

  // Long messages are written as two literals joined.
  const AccessDenied := "Wikipedia API access denied. " + "Please check your User-Agent configuration."
  const TooManyRequests := "Too many requests. " + "Please wait a moment and try again."
  const TimedOut := "Request timeout. Please try again."
  const CannotConnect := "Unable to connect to Wikipedia. " + "Please check your internet connection."
  const NoContent := "No content found"

  /** What the client hands back to the request handler. */
  datatype WikiData = WikiData(content: string, title: string, source: string)

  /** The fields of a page-summary response that the client reads; an absent field is "". */
  datatype SummaryPage = SummaryPage(extract: string, title: string, desktopPage: string)

  /** Why a request threw: the server answered with a non-success status, or
      there was no response (with the error's `code`, "" when it has none, and
      its message). */
  datatype FetchFailure = HttpError(status: int, statusText: string) | NoResponse(code: string, message: string)

  /** The outcome of one HTTP request. */
  datatype Fetched<T> = Received(data: T) | Failed(failure: FetchFailure)

  // ---------------------------------------------------------------------------
  // Flattening an HTML page to text

  /** `replace(/<[^>]*>/g, ' ')`: every `<` that has a `>` after it starts a tag,
      which runs to the first such `>` and becomes one space; a `<` with no `>`
      after it stays. */
  function StripTags(s: string): (r: string)
    ensures |r| <= |s|
    decreases |s|
  {
    if s == [] then []
    else if s[0] == '<' && '>' in s[1..] then " " + StripTags(s[IndexOf(s[1..], '>') + 2..])
    else [s[0]] + StripTags(s[1..])
  }

  /** `replace(/\s+/g, ' ')`: every maximal run of whitespace becomes one space. */
  function CollapseSpaces(s: string): (r: string)
    ensures |r| <= |s|
    ensures r == [] || (IsSpace(r[0]) <==> IsSpace(s[0]))
  {
    if s == [] then []
    else if IsSpace(s[0]) then " " + CollapseSpaces(TrimStart(s[1..]))
    else [s[0]] + CollapseSpaces(s[1..])
  }

  /** The page text: tags replaced, whitespace collapsed, trimmed, and cut to
      2000 characters. */
  function FlattenHtml(html: string): (r: string)
    ensures |r| <= MaxTextLength
    ensures var text := Trim(CollapseSpaces(StripTags(html)));
      |r| <= |text| && r == text[..|r|] && (|text| <= MaxTextLength ==> r == text) && (|text| > MaxTextLength ==> |r| == MaxTextLength)
  {
    var text := Trim(CollapseSpaces(StripTags(html)));
    SubstringPrefix(text, MaxTextLength);
    Substring(text, 0, MaxTextLength)
  }

  /** Two whitespace characters in a row start at index `i`. */
  predicate SpacePair(s: string, i: nat)
    requires i + 1 < |s|
  {
    IsSpace(s[i]) && IsSpace(s[i + 1])
  }

  predicate NoDoubleSpace(s: string) {
    forall i: nat :: i + 1 < |s| ==> !SpacePair(s, i)
  }

  /** No `<` is followed, anywhere later, by a `>`. */
  predicate NoTagLeft(s: string) {
    forall i: nat, j: nat :: i < j < |s| ==> !TagPair(s, i, j)
  }

  /** A `<` at index `i` and a `>` at the later index `j`. */
  predicate TagPair(s: string, i: nat, j: nat)
    requires i < j < |s|
  {
    s[i] == '<' && s[j] == '>'
  }

  /** The flattened text is at most 2000 characters, starts with a non-space,
      never has two whitespace characters in a row and holds nothing that looks
      like a tag. It may end with a space: the cut comes after the trim. */
  lemma FlattenedText(html: string)
    ensures var r := FlattenHtml(html);
      |r| <= MaxTextLength && (r == [] || !IsSpace(r[0])) && NoDoubleSpace(r) && NoTagLeft(r)
  {
    var stripped := StripTags(html);
    var collapsed := CollapseSpaces(stripped);
    assert NoDoubleSpace(collapsed) && NoTagLeft(collapsed) by {
      StripTagsLeavesNoTag(html);
      CollapsedHasNoDoubleSpace(stripped);
      CollapseKeepsNoTag(stripped);
    }
    var text := Trim(collapsed);
    assert NoDoubleSpace(text) && NoTagLeft(text) by {
      TrimKeeps(collapsed);
    }
    PrefixKeeps(text, FlattenHtml(html));
  }

  lemma TrimKeeps(s: string)
    requires NoDoubleSpace(s) && NoTagLeft(s)
    ensures NoDoubleSpace(Trim(s)) && NoTagLeft(Trim(s))
  {
    var t := Trim(s);
    var k := TrimSlice(s);
    SliceIsKept(s, t, k, k + |t|);
  }

  /** A prefix of text without double whitespace or tags, starting with a
      non-space, has the same three properties. */
  lemma PrefixKeeps(u: string, r: string)
    requires |r| <= |u| && r == u[..|r|]
    requires NoDoubleSpace(u) && NoTagLeft(u) && (u == [] || !IsSpace(u[0]))
    ensures NoDoubleSpace(r) && NoTagLeft(r) && (r == [] || !IsSpace(r[0]))
  {
    assert u[..|r|] == u[0..|r|];
    SliceIsKept(u, r, 0, |r|);
    if r != [] {
      assert r[0] == u[0];
    }
  }

  lemma SliceIsKept(s: string, t: string, a: nat, b: nat)
    requires a <= b <= |s| && t == s[a..b]
    requires NoDoubleSpace(s) && NoTagLeft(s)
    ensures NoDoubleSpace(t) && NoTagLeft(t)
  {
    SliceKeeps(s, a, b);
  }

  lemma SliceKeeps(s: string, a: nat, b: nat)
    requires a <= b <= |s|
    ensures NoDoubleSpace(s) ==> NoDoubleSpace(s[a..b])
    ensures NoTagLeft(s) ==> NoTagLeft(s[a..b])
  {
    var t := s[a..b];
    if NoDoubleSpace(s) {
      forall i: nat | i + 1 < |t| ensures !SpacePair(t, i) {
        assert t[i] == s[a + i] && t[i + 1] == s[a + i + 1];
        assert !SpacePair(s, a + i);
      }
    }
    if NoTagLeft(s) {
      forall i: nat, j: nat | i < j < |t| ensures !TagPair(t, i, j) {
        assert t[i] == s[a + i] && t[j] == s[a + j];
        assert !TagPair(s, a + i, a + j);
      }
    }
  }

  lemma {:induction false} CollapsedHasNoDoubleSpace(s: string)
    ensures NoDoubleSpace(CollapseSpaces(s))
    decreases |s|
  {
    if s == [] {
    } else if IsSpace(s[0]) {
      var rest := TrimStart(s[1..]);
      CollapsedHasNoDoubleSpace(rest);
      ConsKeepsNoDoubleSpace(' ', CollapseSpaces(rest));
    } else {
      CollapsedHasNoDoubleSpace(s[1..]);
      ConsKeepsNoDoubleSpace(s[0], CollapseSpaces(s[1..]));
    }
  }

  /** A character in front of a text without double whitespace makes one only
      if both it and the text's first character are whitespace. */
  lemma ConsKeepsNoDoubleSpace(c: char, t: string)
    requires NoDoubleSpace(t) && (IsSpace(c) ==> t == [] || !IsSpace(t[0]))
    ensures NoDoubleSpace([c] + t)
  {
    var r := [c] + t;
    forall i: nat | i + 1 < |r| ensures !SpacePair(r, i) {
      assert r[i + 1] == t[i];
      if i > 0 {
        assert r[i] == t[i - 1];
        assert !SpacePair(t, i - 1);
      }
    }
  }

  /** Collapsing whitespace keeps every other character where it was in order,
      so a `>` comes out only if one went in. */
  lemma {:induction false} CollapseKeepsNonSpace(s: string, c: char)
    requires !IsSpace(c)
    ensures c in CollapseSpaces(s) ==> c in s
    decreases |s|
  {
    if s == [] {
    } else if IsSpace(s[0]) {
      var t := TrimStart(s[1..]);
      CollapseKeepsNonSpace(t, c);
      assert t == s[1..][|s[1..]| - |t|..];
    } else {
      CollapseKeepsNonSpace(s[1..], c);
    }
  }

  lemma {:induction false} CollapseKeepsNoTag(s: string)
    requires NoTagLeft(s)
    ensures NoTagLeft(CollapseSpaces(s))
    decreases |s|
  {
    if s == [] {
      return;
    }
    var rest, k := CollapseRest(s);
    SliceKeeps(s, k, |s|);
    CollapseKeepsNoTag(rest);
    if IsSpace(s[0]) {
      ConsKeepsNoTag(' ', CollapseSpaces(rest));
      return;
    }
    if s[0] == '<' {
      NoCloseAfterOpen(s, k);
      CollapseKeepsNonSpace(rest, '>');
    }
    ConsKeepsNoTag(s[0], CollapseSpaces(rest));
  }

  /** What `CollapseSpaces` recurses on after the first character is a suffix
      of the text. */
  lemma CollapseRest(s: string) returns (rest: string, k: nat)
    requires s != []
    ensures rest == if IsSpace(s[0]) then TrimStart(s[1..]) else s[1..]
    ensures 1 <= k <= |s| && rest == s[k..|s|]
  {
    if IsSpace(s[0]) {
      var t := s[1..];
      rest := TrimStart(t);
      DropDrop(s, 1, |t| - |rest|);
      k := 1 + (|t| - |rest|);
    } else {
      rest := s[1..];
      DropDrop(s, 1, 0);
      k := 1;
    }
  }

  /** In a text without tags that starts with `<`, no `>` follows. */
  lemma NoCloseAfterOpen(s: string, k: nat)
    requires NoTagLeft(s) && s != [] && s[0] == '<' && 1 <= k <= |s|
    ensures '>' !in s[k..]
  {
    var rest := s[k..];
    forall m | 0 <= m < |rest| ensures rest[m] != '>' {
      assert rest[m] == s[k + m];
      assert !TagPair(s, 0, k + m);
    }
  }

  /** A character in front of a text without tags makes a tag only if it is a
      `<` and a `>` follows. */
  lemma ConsKeepsNoTag(c: char, t: string)
    requires NoTagLeft(t) && (c == '<' ==> '>' !in t)
    ensures NoTagLeft([c] + t)
  {
    var r := [c] + t;
    forall i: nat, j: nat | i < j < |r| ensures !TagPair(r, i, j) {
      assert r[j] == t[j - 1];
      if i > 0 {
        assert r[i] == t[i - 1];
        assert !TagPair(t, i - 1, j - 1);
      }
    }
  }

  lemma NoCloseNoTag(s: string)
    requires '>' !in s
    ensures NoTagLeft(s)
  {
    forall i: nat, j: nat | i < j < |s| ensures !TagPair(s, i, j) {
      assert s[j] in s;
    }
  }

  /** Without a `>`, nothing is a tag. */
  lemma {:induction false} StripTagsWithoutClose(s: string)
    requires '>' !in s
    ensures StripTags(s) == s
    decreases |s|
  {
    if s != [] {
      StripTagsWithoutClose(s[1..]);
    }
  }

  lemma {:induction false} StripTagsLeavesNoTag(s: string)
    ensures NoTagLeft(StripTags(s))
    decreases |s|
  {
    if s == [] {
      return;
    }
    if s[0] == '<' && '>' in s[1..] {
      var rest := s[IndexOf(s[1..], '>') + 2..];
      StripTagsLeavesNoTag(rest);
      ConsKeepsNoTag(' ', StripTags(rest));
    } else if s[0] == '<' {
      StripTagsWithoutClose(s[1..]);
      NoCloseNoTag(s[1..]);
      ConsKeepsNoTag('<', s[1..]);
    } else {
      StripTagsLeavesNoTag(s[1..]);
      ConsKeepsNoTag(s[0], StripTags(s[1..]));
    }
  }

  /** A tag is replaced by a single space, not deleted. */
  lemma TagBecomesSpace(inner: string, after: string)
    requires '>' !in inner
    ensures StripTags("<" + inner + ">" + after) == " " + StripTags(after)
  {
    var s := "<" + inner + ">" + after;
    assert s[1..] == inner + ">" + after;
    assert s[1..][|inner|] == '>';
    var k := IndexOf(s[1..], '>');
    assert k == |inner|;
    assert s[k + 2..] == after;
  }

  /** Text before the first `<` passes tag stripping unchanged and in place. */
  lemma {:induction false} TextBeforeTagKept(a: string, b: string)
    requires '<' !in a
    ensures StripTags(a + b) == a + StripTags(b)
    decreases |a|
  {
    if a == [] {
      assert a + b == b;
    } else {
      assert a[0] in a;
      assert (a + b)[0] == a[0] && (a + b)[1..] == a[1..] + b;
      TextBeforeTagKept(a[1..], b);
      assert [a[0]] + (a[1..] + StripTags(b)) == a + StripTags(b);
    }
  }

  /** Text without whitespace passes collapsing unchanged and in place. */
  lemma {:induction false} WordKept(a: string, b: string)
    requires NoneOf(a, IsSpace)
    ensures CollapseSpaces(a + b) == a + CollapseSpaces(b)
    decreases |a|
  {
    if a == [] {
      assert a + b == b;
    } else {
      assert (a + b)[0] == a[0] && (a + b)[1..] == a[1..] + b;
      WordKept(a[1..], b);
      assert [a[0]] + (a[1..] + CollapseSpaces(b)) == a + CollapseSpaces(b);
    }
  }

  /** A maximal run of whitespace becomes a single space. */
  lemma RunBecomesSpace(d: string, rest: string)
    requires d != [] && AllSpaces(d) && (rest == [] || !IsSpace(rest[0]))
    ensures CollapseSpaces(d + rest) == " " + CollapseSpaces(rest)
  {
    assert (d + rest)[0] == d[0] && (d + rest)[1..] == d[1..] + rest;
    TrimStartAfterSpaces(d[1..], rest);
  }

  // ---------------------------------------------------------------------------
  // Failure messages

  /** The message the client throws for a failed request about `topic`. */
  function FailureMessage(topic: string, f: FetchFailure): string {
    match f
    case HttpError(status, statusText) =>
      if status == 404 then NotFoundMessage(topic)
      else if status == 403 then AccessDenied
      else if status == 429 then TooManyRequests
      else "Wikipedia API error: " + IntText(status) + " - " + statusText
    case NoResponse(code, message) =>
      if code == "ECONNABORTED" then TimedOut
      else if code == "ENOTFOUND" || code == "ECONNREFUSED" then CannotConnect
      else "Failed to fetch data: " + message
  }

  function NotFoundMessage(topic: string): string {
    "Topic \"" + topic + "\" not found on Wikipedia"
  }

  /** The kinds of failure the client tells apart. */
  datatype Cause = NotFound | Forbidden | RateLimited | BadStatus | Timeout | Unreachable | Other

  /** The kind of a failure, as a table over status and code. */
  function CauseOf(f: FetchFailure): Cause {
    match f
    case HttpError(status, _) =>
      if status == 404 then NotFound else if status == 403 then Forbidden
      else if status == 429 then RateLimited else BadStatus
    case NoResponse(code, _) =>
      if code == "ECONNABORTED" then Timeout
      else if code == "ENOTFOUND" || code == "ECONNREFUSED" then Unreachable else Other
  }

  /** The kind of failure a caller can read off a message alone. */
  function CauseOfMessage(m: string): Cause {
    if StartsWith(m, "Topic \"") then NotFound
    else if m == AccessDenied then Forbidden
    else if m == TooManyRequests then RateLimited
    else if StartsWith(m, "Wikipedia API error: ") then BadStatus
    else if m == TimedOut then Timeout
    else if m == CannotConnect then Unreachable
    else Other
  }

  /** Each message names its kind of failure: reading the message back gives the
      kind that produced it, so no two kinds share a message. */
  lemma MessageNamesCause(topic: string, f: FetchFailure)
    ensures CauseOfMessage(FailureMessage(topic, f)) == CauseOf(f)
  {
    var m := FailureMessage(topic, f);
    match f
    case HttpError(status, statusText) =>
      if status == 404 {
        assert m[..7] == "Topic \"";
      } else if status == 403 {
        DifferentFirstChar(m, "Topic \"");
      } else if status == 429 {
        assert m[2] == 'o';
        assert !StartsWith(m, "Topic \"");
        assert m != AccessDenied && !StartsWith(m, "Wikipedia API error: ") by {
          DifferentFirstChar(m, AccessDenied);
          DifferentFirstChar(m, "Wikipedia API error: ");
        }
      } else {
        assert m[..21] == "Wikipedia API error: ";
        assert m[0] == 'W' && m[14] == 'e';
      }
    case NoResponse(code, message) =>
      assert m[0] in {'F', 'R', 'U'};
      DifferentFirstChar(m, "Topic \"");
      DifferentFirstChar(m, AccessDenied);
      DifferentFirstChar(m, TooManyRequests);
      DifferentFirstChar(m, "Wikipedia API error: ");
      if m != TimedOut {
        assert m[0] != 'R';
        DifferentFirstChar(m, TimedOut);
      }
      if m != CannotConnect {
        assert m[0] != 'U';
        DifferentFirstChar(m, CannotConnect);
      }
  }

  lemma DifferentFirstChar(m: string, p: string)
    requires m != [] && p != [] && m[0] != p[0]
    ensures !StartsWith(m, p) && m != p
  {
  }

  // ---------------------------------------------------------------------------
  // fetchWikipediaData

  /** The summary response carries a non-empty extract (`response.data && response.data.extract`). */
  predicate HasExtract(summary: Fetched<Option<SummaryPage>>) {
    summary.Received? && summary.data.Some? && summary.data.value.extract != ""
  }

  /** `fetchWikipediaData(topic)`, given the outcome of the page-summary request
      and of the page-HTML request (consulted only when the summary has no
      extract); `encodedTopic` is `encodeURIComponent(topic)`. */
  function FetchWikipediaData(topic: string, encodedTopic: string,
                              summary: Fetched<Option<SummaryPage>>, page: Fetched<string>): (r: Result<WikiData>)
    // the summary answers when it carries an extract; its own link wins over the constructed one
    ensures HasExtract(summary) ==>
      var p := summary.data.value;
      r == Ok(WikiData(p.extract, p.title, if p.desktopPage != "" then p.desktopPage else PageBase + encodedTopic))
    // otherwise the HTML page answers, titled with the topic and linked by the constructed URL
    ensures r.Ok? && !HasExtract(summary) ==>
      page.Received? && page.data != "" && r.value.title == topic && r.value.source == PageBase + encodedTopic
      && r.value.content == FlattenHtml(page.data)
    ensures summary.Received? && !HasExtract(summary) && page.Received? && page.data != "" ==> r.Ok?
    ensures r.Ok? ==> r.value.source != ""
    // a failed summary request is reported by its own failure; the page is not consulted
    ensures summary.Failed? ==> r == Err(FailureMessage(topic, summary.failure))
    // a failed page request, reached only without an extract, is reported by its failure
    ensures summary.Received? && !HasExtract(summary) && page.Failed? ==> r == Err(FailureMessage(topic, page.failure))
    // an empty page body is the internal "No content found" failure
    ensures summary.Received? && !HasExtract(summary) && page == Received("") ==> r == Err("Failed to fetch data: " + NoContent)
    ensures r.Err? ==> exists f :: r.message == FailureMessage(topic, f)
  {
    match summary
    case Failed(f) => Err(FailureMessage(topic, f))
    case Received(d) =>
      if d.Some? && d.value.extract != "" then
        var p := d.value;
        Ok(WikiData(p.extract, p.title, if p.desktopPage != "" then p.desktopPage else PageBase + encodedTopic))
      else
        match page
        case Failed(f) => Err(FailureMessage(topic, f))
        case Received(html) =>
          if html != "" then Ok(WikiData(FlattenHtml(html), topic, PageBase + encodedTopic))
          else Err(FailureMessage(topic, NoResponse("", NoContent)))
  }

  /** A 404 from either request is reported as the topic not being found: the
      summary's own, or the page's when the summary has no extract. */
  lemma NotFoundFromEitherRequest(topic: string, encodedTopic: string,
                                  summary: Fetched<Option<SummaryPage>>, page: Fetched<string>, statusText: string)
    requires summary == Failed(HttpError(404, statusText))
      || (summary.Received? && !HasExtract(summary) && page == Failed(HttpError(404, statusText)))
    ensures FetchWikipediaData(topic, encodedTopic, summary, page) == Err(NotFoundMessage(topic))
  {
  }

  /** Content is empty only when it comes from an HTML page that flattens to
      nothing; a summary extract is never empty. */
  lemma EmptyContentOnlyFromPage(topic: string, encodedTopic: string,
                                 summary: Fetched<Option<SummaryPage>>, page: Fetched<string>)
    requires var r := FetchWikipediaData(topic, encodedTopic, summary, page); r.Ok? && r.value.content == ""
    ensures !HasExtract(summary) && page.Received? && page.data != "" && FlattenHtml(page.data) == ""
    ensures FetchWikipediaData(topic, encodedTopic, summary, page).value.title == topic
  {
  }
}
