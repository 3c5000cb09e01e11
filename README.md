# Study assistant backend: a verified model of its deterministic core

The study assistant backend answers `GET /api/study?topic=…&mode=…`. It works in five steps:

1. It validates the query.
2. It decides whether the topic reads like a question.
3. It looks the topic up on Wikipedia.
4. It hands the content, or the bare question, to a response generator.
5. It answers with a study artifact: a three-entry summary, a three-item quiz, a study tip and, in math mode, a worked solution.

The response generator tries three sources in turn: OpenAI, then Gemini, then a local generator built from string heuristics.

This project models that pipeline in Dafny and proves what each part promises.

The files and their modules:

- `jsstring.dfy` (`JsString`): the JavaScript string operations the code relies on:
  - `trim` and the `\s` class;
  - `substring`;
  - `split` on a character class;
  - `filter` and `slice`;
  - first and last occurrence of a character, which stand in for the patterns `/<[^>]*>/g` (services/wikipediaService.js:37) and `/\{[\s\S]*\}/` (services/aiService.js:481);
  - `parseInt` and `String(n)` for integers.
- `study_data.dfy` (`StudyData`): query parameters (absent, a string, or a structured value), `Option`/`Result`, quiz items and the study artifact.
- `validation.dfy` (`Validation`): `validateInput` (utils/validation.js).
- `wikipedia.dfy` (`Wikipedia`): the deterministic parts of `fetchWikipediaData` (services/wikipediaService.js):
  - the choice between summary and page;
  - HTML flattening;
  - the failure messages.
- `equation.dfy` (`LinearEquation`): the linear-equation matcher and solver of the local generator.
- `mock.dfy` (`MockGenerator`): `generateMockResponse`, with its summary backfill loop as a method.
- `providers.dfy` (`Providers`):
  - prompt choice;
  - fence stripping and `{…}` extraction;
  - normalisation of the parsed reply;
  - the OpenAI → Gemini → local generator chain (`generateAIResponse`), as a method.
- `controller.dfy` (`StudyController`): `getStudyData`, covering the classifier, the path it takes, and the 400/404/500/200 responses.

**How the imperative code is modelled**

- Where the source changes local state step by step, the model is a method, proved equal to a specification function. The properties are then proved about that function. This covers:
  - the summary backfill loop (`BackfillSummary`, `SummariseTopic`);
  - the provider reply handling (`PrepareJson`, `CallProvider`);
  - the fallback chain (`GenerateAIResponse`);
  - the request handler (`ChoosePath`, `GetStudyData`).
- The fixed wording of the local generator is a value, `MockGenerator.Texts`. The generator and everything built on it take the wording as a parameter `t` and require only its shape (`ValidTexts`).

**Where the code and its own tests or comments disagree, the model follows the code**

- Wikipedia "not found" on a plain topic:
  - The client throws for a 404, so on the plain-topic path the handler's outer `catch` answers 500 with the client's message (`StudyController.WikipediaNotFoundIsServerError`).
  - A 404 comes only from a lookup that returns empty content.
- The local generator gives a direct question that holds an equation a worked solution in every mode, not only in math mode (`MockGenerator.DirectAnswerIsConsistent`, `MockGenerator.MockArtifact`). A provider's reply has a solution only in math mode, and a topic gets one only in math mode whoever answers (`Providers.ProviderArtifact`, `Providers.AIResponse`).
- `x` is printed by JavaScript's number formatting: "3x + 5 = 20" gives `x = 5`, not `x = 5.0` (`MockGenerator.WorkedExampleAnswer`).
- A sentence is kept when its trimmed length is more than 20 characters, not at least 20.
- The test suite expects a `mathQuestion` field and an empty quiz in math mode. The handler never produces either, so no property is taken from that test.

## Model

| member | source | states |
|---|---|---|
| JsString.Trim | utils/validation.js:11 | the trimmed text is no longer than the input and neither starts nor ends with whitespace |
| JsString.TrimStartDropsSpaces | utils/validation.js:11 | what trimming drops at the front is whitespace only |
| JsString.TrimEndDropsSpaces | utils/validation.js:11 | what trimming drops at the back is whitespace only |
| JsString.TrimEmptyIffSpaces | utils/validation.js:11-12 | trimming leaves nothing exactly when the text is all whitespace |
| JsString.TrimIsSlice | services/wikipediaService.js:39 | the trimmed text is the contiguous slice of the input between its leading and its trailing whitespace |
| JsString.TrimSlice | services/wikipediaService.js:39 | the trimmed text is the slice of the input starting at some index k, of its own length |
| JsString.TrimStartAfterSpaces | services/wikipediaService.js:38-39 | leading whitespace in front of text starting with a non-space is exactly what trimming at the front drops |
| JsString.Substring | services/aiService.js:95-97 | `substring` clamps both bounds to the length and swaps them when reversed: the result is the slice between the clamped bounds in either order, and within bounds exactly `s[a..b]` |
| JsString.SubstringPrefix | services/wikipediaService.js:40 | `substring(0, n)` is a prefix of the text: all of it when it has at most n characters, else exactly n characters |
| JsString.SubstringEmpty | services/aiService.js:82-83 | `substring(a, b)` with a < b is empty exactly when the text ends at or before a |
| JsString.Split | services/aiService.js:80 | `split` on a run of a character class gives at least one piece, and no piece holds a delimiter |
| JsString.SplitAtRun | services/aiService.js:80 | a maximal run of delimiters ends a piece: a delimiter-free piece, a non-empty run, then text not starting with a delimiter splits as that piece followed by the split of the rest |
| JsString.SplitKeepsText | services/aiService.js:80 | the pieces, joined in order, are the text with its delimiters removed: splitting loses nothing else and keeps the order |
| JsString.WithoutIsFilter | services/aiService.js:80 | removing the delimiters is filtering the characters by "not a delimiter": every other character stays, in order |
| JsString.SplitWithoutDelimiter | services/aiService.js:80 | text without a delimiter splits into itself alone |
| JsString.Filter | services/aiService.js:80 | `filter` keeps exactly the elements that pass the test: every kept element passes and comes from the input, every passing element is kept |
| JsString.FilterAppend | services/aiService.js:80 | filtering a concatenation is the concatenation of the filtered parts, so order is kept |
| JsString.FilterFirst | services/aiService.js:80 | the first element kept is the first element that passes |
| JsString.FilterNone | services/aiService.js:80 | when no element passes, nothing is kept |
| JsString.Take | services/aiService.js:105-107 | `slice(0, n)` is the prefix of length min(n, length) |
| JsString.IndexOf | services/aiService.js:481 | the first occurrence: the character is there and not before it |
| JsString.LastIndexOf | services/aiService.js:481 | the last occurrence: the character is there and not after it |
| JsString.NatText | services/aiService.js:35 | `String(n)` is non-empty decimal digits with no leading zero |
| JsString.ParseNatText | services/aiService.js:31-35 | `parseInt` of the decimal text of n gives n back |
| Validation.ValidateInput | utils/validation.js:1-38 | valid exactly when all four checks pass (presence, non-blank, trimmed length ≤ 200, mode falsy or "math"/"normal"), and then the message is "Input is valid" |
| Validation.FirstFailedFrom | utils/validation.js:3-33 | the search for the first failing check in order finds a failing check with every earlier one passing, or finds that all pass |
| Validation.FirstFailureReported | utils/validation.js:3-38 | the verdict is invalid exactly when some check fails, and its message is the complaint of the first failing check in order |
| Validation.ValidMeansWellFormed | utils/validation.js:3-33 | a valid request has a string topic whose trimmed length is 1..200 and a mode that is absent, "", "math" or "normal" |
| Validation.TopicErrorsComeFirst | utils/validation.js:3-25 | when the topic fails, the verdict is invalid and does not depend on the mode |
| Validation.LengthBoundary | utils/validation.js:20-25 | a trimmed length of exactly 200 passes; more than 200 fails with the length message |
| Validation.BlankTopicIsEmpty | utils/validation.js:11-17 | "Topic cannot be empty" is the verdict exactly for a non-empty, all-whitespace topic, in every mode |
| Wikipedia.StripTags | services/wikipediaService.js:37 | removing tags never lengthens the text |
| Wikipedia.CollapseSpaces | services/wikipediaService.js:38 | collapsing never lengthens the text and keeps whether it starts with whitespace |
| Wikipedia.FlattenHtml | services/wikipediaService.js:36-40 | the page text is a prefix of the trimmed, collapsed, tag-stripped HTML: all of it when it has at most 2000 characters, else exactly its first 2000 |
| Wikipedia.FlattenedText | services/wikipediaService.js:36-40 | the flattened page text has at most 2000 characters, starts with a non-space, has no two adjacent whitespace characters and no `<` followed later by `>` |
| Wikipedia.TrimKeeps | services/wikipediaService.js:39 | trimming keeps "no double whitespace" and "no tag" |
| Wikipedia.PrefixKeeps | services/wikipediaService.js:40 | the 2000-character cut of text starting with a non-space, without double whitespace and without tags, keeps all three properties |
| Wikipedia.SliceIsKept | services/wikipediaService.js:39-40 | a slice of text without double whitespace or tags has neither |
| Wikipedia.SliceKeeps | services/wikipediaService.js:40 | any slice, including the 2000-character cut, keeps "no double whitespace" and "no tag" |
| Wikipedia.CollapsedHasNoDoubleSpace | services/wikipediaService.js:38 | after collapsing, no two whitespace characters are adjacent |
| Wikipedia.ConsKeepsNoDoubleSpace | services/wikipediaService.js:38 | one character in front keeps "no double whitespace" unless both it and the next are whitespace |
| Wikipedia.CollapseKeepsNonSpace | services/wikipediaService.js:38 | collapsing does not create a non-whitespace character that was not there |
| Wikipedia.CollapseKeepsNoTag | services/wikipediaService.js:37-38 | collapsing whitespace does not create a tag |
| Wikipedia.CollapseRest | services/wikipediaService.js:38 | after the first character, collapsing continues on a suffix of the text |
| Wikipedia.NoCloseAfterOpen | services/wikipediaService.js:37 | in tag-free text that starts with `<`, no `>` follows |
| Wikipedia.ConsKeepsNoTag | services/wikipediaService.js:37 | one character in front of tag-free text makes a tag only if it is `<` and a `>` follows |
| Wikipedia.NoCloseNoTag | services/wikipediaService.js:37 | text without `>` holds no tag |
| Wikipedia.StripTagsWithoutClose | services/wikipediaService.js:37 | text without `>` passes tag stripping unchanged, even with a lone `<` |
| Wikipedia.StripTagsLeavesNoTag | services/wikipediaService.js:37 | after tag stripping, no `<` is followed later by a `>` |
| Wikipedia.TagBecomesSpace | services/wikipediaService.js:37 | a tag is replaced by one space, not deleted |
| Wikipedia.TextBeforeTagKept | services/wikipediaService.js:37 | text without `<` in front of the rest passes tag stripping unchanged and in place |
| Wikipedia.WordKept | services/wikipediaService.js:38 | text without whitespace in front of the rest passes collapsing unchanged and in place |
| Wikipedia.RunBecomesSpace | services/wikipediaService.js:38 | a maximal run of whitespace before a non-space (or the end) becomes exactly one space |
| Wikipedia.MessageNamesCause | services/wikipediaService.js:52-70 | the failure message (`FailureMessage`) identifies its cause: reading the message back gives the kind of failure that produced it (404 → `Topic "<topic>" not found on Wikipedia`, 403, 429, other status, timeout, unreachable, anything else), so no two kinds share a message |
| Wikipedia.DifferentFirstChar | services/wikipediaService.js:51-71 | messages with different first characters differ and neither is a prefix of the other |
| Wikipedia.FetchWikipediaData | services/wikipediaService.js:3-71 | with a summary extract: content and title from the summary, source its own link else the constructed one; otherwise, with non-empty HTML: the flattened page, title = topic, the constructed link (and only then is the result from the page); an empty page is "Failed to fetch data: No content found"; a failed request of either kind gives `FailureMessage` of its failure; every error is a mapped failure message; the source is never empty |
| Wikipedia.EmptyContentOnlyFromPage | services/wikipediaService.js:16-47 | empty content comes only from a non-empty HTML page that flattens to nothing, when the summary had no extract; its title is then the topic |
| Wikipedia.NotFoundFromEitherRequest | services/wikipediaService.js:8-54 | a 404 from the summary request, or from the page request after a summary without an extract, ends as `Topic "<topic>" not found on Wikipedia` |
| LinearEquation.DigitsEnd | services/aiService.js:29 | `\d+` runs to the first non-digit |
| LinearEquation.SpacesEnd | services/aiService.js:29 | `\s*` runs to the first non-whitespace |
| LinearEquation.MatchAt | services/aiService.js:29 | a match at a position captures three non-empty digit runs, the first starting there |
| LinearEquation.MatchAtIffLayout | services/aiService.js:29 | `MatchAt` yields an equation exactly when the text from that position has the layout of the pattern: the coefficient digits, whitespace, `x` or `X`, whitespace, `+`, whitespace, the constant digits, whitespace, `=`, whitespace, the right-hand digits, each digit run maximal |
| LinearEquation.MatchAtHasLayout | services/aiService.js:29 | a match has the layout of the pattern |
| LinearEquation.LayoutMatches | services/aiService.js:29 | text laid out as the pattern matches, with those three captures |
| LinearEquation.Rest | services/aiService.js:29 | the remainder of the pattern, when it matches, captures one or two non-empty digit runs |
| LinearEquation.DigitsEndAt | services/aiService.js:29 | a run of digits that stops before a non-digit ends where the greedy `\d+` scan ends |
| LinearEquation.SpacesEndAt | services/aiService.js:29 | a run of whitespace that stops before a non-space ends where the greedy `\s*` scan ends |
| LinearEquation.FindFrom | services/aiService.js:29 | the match found is the leftmost one; when there is none, no position matches |
| LinearEquation.CoefficientIsWholeNumber | services/aiService.js:29-31 | the first capture is a whole number: the match never starts after a digit |
| LinearEquation.MatchExtendsLeft | services/aiService.js:29 | a match just after a digit also matches one position earlier |
| LinearEquation.Solve | services/aiService.js:31-34 | x = (c - b) / a as a rational; for a ≠ 0, a·x + b = c |
| LinearEquation.QuotientText | services/aiService.js:35 | an integral quotient prints as its decimal integer; the output is never empty |
| LinearEquation.Plus | services/aiService.js:47 | x + k over the same denominator: for a non-zero denominator the value is x + k, and a division by zero prints unchanged |
| LinearEquation.Times | services/aiService.js:47 | k·x, with a division by zero kept as such |
| LinearEquation.ProductIsDifference | services/aiService.js:73 | in exact rational arithmetic, a·x equals c - b, so the verification line prints c - b for a·x |
| LinearEquation.WorkedExampleMatch | services/aiService.js:29 | "3x + 5 = 20" matches at 0 with captures 3, 5, 20 |
| LinearEquation.WorkedExampleSolution | services/aiService.js:34-35 | its solution prints as "5" |
| MockGenerator.Or | services/aiService.js:81 | JavaScript's logical or on strings: the first operand unless it is empty, then the second |
| MockGenerator.Nth | services/aiService.js:81-83 | reading past the end of an array gives the falsy empty value |
| MockGenerator.Sentences | services/aiService.js:80 | sentences hold no terminator and have trimmed length > 20, and every such piece of the split is kept |
| MockGenerator.FirstSentenceIsFirstLongPiece | services/aiService.js:80-81 | the first sentence is the first piece of the split with trimmed length > 20, so the filter keeps order |
| MockGenerator.FirstSentence | services/aiService.js:81 | the first sentence trimmed, or the first 100 characters of the content when there is none |
| MockGenerator.SecondSentence | services/aiService.js:82 | the second sentence trimmed; else characters 100..200 of the only sentence when it is that long; else characters 100..200 of the content |
| MockGenerator.ThirdSentence | services/aiService.js:83 | the third sentence trimmed; else characters 200..300 of the second sentence when it is that long; else characters 200..300 of the content |
| MockGenerator.Truncate | services/aiService.js:87-89 | an entry over 150 characters becomes its first 150 plus "...", and only then; the result is at most 153 characters |
| MockGenerator.TruncateIdempotent | services/aiService.js:87-89 | cutting twice equals cutting once |
| MockGenerator.TruncateMarksCut | services/aiService.js:87-89 | for text without a full stop, the entry has one exactly when it was cut |
| MockGenerator.Candidates | services/aiService.js:86-90 | the kept candidates are exactly the truncated first, second and third sentences that are longer than 10 characters, in that order; each is at most 153 characters |
| MockGenerator.Fills | services/aiService.js:95-99 | the three backfills are content[0..150), content[150..300) and the filler, none over 150 characters |
| MockGenerator.BackfillSummary | services/aiService.js:93-101 | the loop appends the fills chosen by the current length until three entries exist |
| MockGenerator.Summary | services/aiService.js:86-101 | exactly 3 entries, each at most 153 characters: the kept candidates first, then the fill for each remaining slot |
| MockGenerator.EmptyContentSummary | services/aiService.js:80-101 | empty content gives two empty entries and the filler |
| MockGenerator.ImportantTerms | services/aiService.js:105-107 | at most `cap` terms, each longer than the limit, starting A-Z, with no whitespace |
| MockGenerator.FirstTermIsFirstQualifying | services/aiService.js:105-107 | the first term is the first word that starts A-Z and is longer than the limit |
| MockGenerator.LaterWordsIgnored | services/aiService.js:105-107 | once `cap` terms are found among the first words, the terms are exactly the first `cap` of them and later words do not matter |
| MockGenerator.TermsCompleteUnderCap | services/aiService.js:165-167 | below the cap, every qualifying token is kept |
| MockGenerator.Stem | services/aiService.js:112-114 | a sentence over the threshold is quoted as its first `threshold` characters plus "...?", otherwise the fixed question |
| MockGenerator.ThreeItemQuiz | services/aiService.js:110-147 | three items with four options and an answer in 0..3 form a well-formed quiz |
| MockGenerator.TermOptions | services/aiService.js:115-120 | each option is the term at its index, or its fallback when the term is missing or empty |
| MockGenerator.TopicQuiz | services/aiService.js:110-147 | three items with four options each; item k asks `Stem` of sentence k (the quoted excerpt when over the threshold, else the fixed question); answers 0, 1, 2 by slot; slots 0 and 2 offer terms 0-3 and 4-7, slot 1 the fixed options |
| MockGenerator.TopicArtifact | services/aiService.js:103-211 | a topic artifact: the three-entry topic summary, a well-formed 3-item quiz with answers 0/1/2, the mode's tip, and study steps exactly when the mode has them (math) |
| MockGenerator.Assignment | services/aiService.js:35 | the solution text is "x = " followed by the printed value |
| MockGenerator.WorkedSteps | services/aiService.js:65-74 | the worked solution has 8 steps, the 7th being "x = " and the solved value |
| MockGenerator.WorkedStepsAgree | services/aiService.js:65-74 | for a non-zero coefficient the steps agree: step 4 gives a·x = c - b, step 6 divides c - b by a, and the check substitutes x and prints a·x, in exact arithmetic, as c - b before adding b back to get c |
| MockGenerator.SolvedArtifact | services/aiService.js:38-75 | with an equation: 3 summary entries, the second reporting x; quiz answers all 0 with "x = <x>" first; an 8-step solution whose 7th step is "x = <x>" |
| MockGenerator.UnsolvedArtifact | services/aiService.js:38-76 | without an equation: 3 entries restating the question, quiz answers all 0, no solution |
| MockGenerator.DirectArtifact | services/aiService.js:24-76 | a direct answer: 3 entries, the first "Question: " + the question; a well-formed 3-item quiz, every answer 0; a solution exactly when the question holds an equation |
| MockGenerator.TextsValid | services/aiService.js:105-167 | the source's wording is well formed: normal mode has threshold 80 and terms of length > 6 capped at 10; math mode has threshold 100 and terms of length > 4 capped at 15 |
| MockGenerator.ModeWording | services/aiService.js:21 | `mode === 'math'` selects the wording with study steps |
| MockGenerator.GenerateMockResponse | services/aiService.js:20-212 | the generator returns the direct artifact for a question, and the topic artifact of the mode otherwise |
| MockGenerator.MockArtifact | services/aiService.js:20-212 | every local answer has 3 summary entries and a well-formed 3-item quiz; a direct question is restated first and solved exactly when it holds an equation; a topic gets a solution exactly in math mode |
| MockGenerator.SummariseTopic | services/aiService.js:79-161 | the topic branch, with its backfill loop, builds the topic artifact |
| MockGenerator.TopicQuizShape | services/aiService.js:110-147 | a topic quiz: 3 items × 4 options, answers 0/1/2, term options from the mode's term list |
| MockGenerator.QuizShape | services/aiService.js:44-206 | every generated quiz is well formed with 3 items; the answers are 0/0/0 on a question and 0/1/2 on a topic |
| MockGenerator.TopicSummaryShape | services/aiService.js:150 | a topic's summary is the 3-entry summary of its sentences, none over 153 characters |
| MockGenerator.SummaryShape | services/aiService.js:86-101 | every generated summary has exactly 3 entries; on a topic none exceeds 153 characters |
| MockGenerator.StepsQuoteSummary | services/aiService.js:153-160 | the four math steps open with "Key Concept: " + summary[0] and "Application: " + summary[1], or a default when an entry is empty |
| MockGenerator.StepsQuote | services/aiService.js:155-156 | the step builder quotes the first two entries |
| MockGenerator.DirectAnswerIsConsistent | services/aiService.js:28-75 | a direct question gets a solution exactly when it holds an equation; the solution has 8 steps, its 7th equals the quiz's correct option, and the summary reports the same value |
| MockGenerator.WorkedExampleAnswer | services/aiService.js:29-48 | "3x + 5 = 20" is answered "x = 5", offered first in the quiz, with a worked solution |
| Providers.ChoosePrompt | services/aiService.js:219-313 | a question is quoted whole, asking for steps exactly in math mode; otherwise the math or the topic template quotes the first min(1000, length) characters |
| Providers.RemoveAll | services/aiService.js:336 | removing every marker never lengthens the text |
| Providers.RemoveAllSkips | services/aiService.js:336 | a stretch where no marker starts passes through removal unchanged, in place |
| Providers.RemoveAllAtMarker | services/aiService.js:335-336 | a marker at the front is removed together with one newline after it |
| Providers.NoMarkerBeforeTick | services/aiService.js:336 | a fence cannot start before the first backtick |
| Providers.RemoveAbsent | services/aiService.js:336 | text without the marker is unchanged |
| Providers.FenceAt | services/aiService.js:335-337 | starting with a fence means starting with three backticks |
| Providers.FenceFreeHasNoFence | services/aiService.js:336-338 | no backtick triple at any index is the same as no fence occurring |
| Providers.RemovedFencesStayRemoved | services/aiService.js:336-338 | after removing every fence, none is left, even where removals bring backticks together |
| Providers.SliceFenceFree | services/aiService.js:481-483 | a slice of fence-free text is fence-free |
| Providers.TrimFenceFree | services/aiService.js:336-338 | trimming keeps text fence-free |
| Providers.StripFences | services/aiService.js:334-339 | an unfenced reply is passed on unchanged |
| Providers.FencedBodyKept | services/aiService.js:334-339 | a reply made of "```json" or "```", a newline, a body, a newline and a closing "```" is passed on as exactly the body, when the body has no backtick and neither starts nor ends with whitespace |
| Providers.FencedObjectExample | services/aiService.js:334-339 | "```json\n{}\n```" and "```\n{}\n```" both become "{}" |
| Providers.OpeningDropped | services/aiService.js:335-336 | removing the opening marker and its newline leaves the rest to removal |
| Providers.ClosingFenceRemoved | services/aiService.js:336 | the closing "```" goes and the body and its newline stay |
| Providers.JsonFenceOnlyInFront | services/aiService.js:335 | "```json" removal does not touch a body without backticks or its closing "```" |
| Providers.TrimNewline | services/aiService.js:336 | trimming drops the newline left after the body and nothing of the body |
| Providers.JsonFenceIsFence | services/aiService.js:335-337 | a "```json" opening is also a "```" opening |
| Providers.StrippedHasNoFence | services/aiService.js:334-339 | a fenced reply comes out with no fence left |
| Providers.StripFencesIdempotent | services/aiService.js:334-339 | stripping twice equals stripping once |
| Providers.ExtractObject | services/aiService.js:480-484 | with a `{` followed by a `}`, the text becomes the span from the first `{` to the last `}`; otherwise it is unchanged |
| Providers.ObjectSpanFound | services/aiService.js:481 | when a `}` follows the first `{`, the last `}` comes after the first `{` |
| Providers.ExtractObjectIdempotent | services/aiService.js:480-484 | extracting twice equals extracting once |
| Providers.SpanIsWhole | services/aiService.js:480-484 | the extracted span is its own span |
| Providers.OrElse | services/aiService.js:346-348 | an optional field's value when present, else the default |
| Providers.Normalize | services/aiService.js:344-358 | summary/quiz default to [], the tip to ''; the solution is the parsed one in math mode and none otherwise |
| Providers.NormalizeIdempotent | services/aiService.js:489-503 | normalising a normalised reply changes nothing |
| Providers.ModeOnlyAffectsSolution | services/aiService.js:489-503 | the mode changes only the solution, which is none outside math mode |
| Providers.JsonText | services/aiService.js:331-339 | OpenAI parses the trimmed, fence-stripped reply; Gemini the `{…}` span of it (lines 470-484) |
| Providers.Attempt | services/aiService.js:514-528 | a provider without a client yields nothing; with a client, its result is that provider's call on the client's answers; outside math mode a provider's artifact has no solution |
| Providers.PrepareJson | services/aiService.js:331-339 | the step-by-step reassignment of `jsonText` computes the text the parser receives (Gemini: lines 470-484) |
| Providers.CallProvider | services/aiService.js:215-358 | one provider call: prompt, SDK reply, text preparation, parse, normalisation; a failure at any step yields nothing |
| Providers.ProviderArtifact | services/aiService.js:215-358 | a provider yields an artifact exactly when its SDK replied and the parser accepted the prepared text, and the artifact is the parsed object normalised for the mode; its solution is present only in math mode |
| Providers.GenerateAIResponse | services/aiService.js:512-534 | the result is OpenAI's artifact, else Gemini's, else the local generator's; OpenAI is called exactly when its client exists; Gemini exactly when its client exists and OpenAI yielded nothing |
| Providers.AIResponse | services/aiService.js:512-534 | when neither provider yields an artifact, because its client is absent, its call throws or its reply does not parse, the local generator answers; outside math mode a topic never gets a solution, whoever answers |
| Providers.FirstSuccessWins | services/aiService.js:514-533 | the first provider that yields an artifact decides the response, whatever the later ones would say; when neither yields one, the local generator answers |
| Providers.FailingProvidersFallBack | services/aiService.js:514-533 | two configured providers whose calls both throw leave the answer to the local generator |
| Providers.UnparsedReplyFallsThrough | services/aiService.js:514-533 | when no reply parses, the local generator answers, whatever the clients reply |
| Providers.ParserSeesNoFence | services/aiService.js:334-341 | a fenced reply reaches `JSON.parse` without any fence, from either provider |
| Providers.ExtractKeepsFenceFree | services/aiService.js:481-486 | the `{…}` extraction keeps fence-free text fence-free |
| StudyController.PrefixNotWord | controllers/studyController.js:19 | the lead-word test is case-insensitive and a prefix test: "Whole numbers" and "WHY is the sky blue" are question-like |
| StudyController.LeadWordMakesQuestion | controllers/studyController.js:19 | a topic that opens with any of the nine lead words, in any letter case, is question-like whatever follows |
| StudyController.NoMarkNoLeadIsPlain | controllers/studyController.js:19 | a topic with no `?`, no `=`, and a first letter that no lead word starts with is not question-like |
| StudyController.EquationIsQuestion | controllers/studyController.js:19 | "3x + 5 = 20" is question-like because of its `=` |
| StudyController.PlainTopic | controllers/studyController.js:19 | "Photosynthesis" is not question-like |
| StudyController.Route | controllers/studyController.js:10-53 | rejected exactly when invalid, with the validator's message; a valid question or math request always reaches the generator, with the bare question as a direct question when the lookup threw; 404 exactly for a valid plain topic whose lookup has empty content; 500 exactly for a valid plain topic whose lookup threw, carrying its message; looked-up content always goes to the generator as content |
| StudyController.ModeName | controllers/studyController.js:58 | a non-empty mode is echoed; an absent or empty mode becomes "normal" |
| StudyController.ErrorResponse | controllers/studyController.js:12-15 | a rejected query is 400 "Invalid input"; missing content is 404 "Topic not found", naming the topic; a thrown lookup is 500 "Internal server error" with its message (lines 35-42, 66-71) |
| StudyController.StudyResult | controllers/studyController.js:56-64 | 200 with the topic echoed, the defaulted mode, the generator's fields and the source |
| StudyController.ChoosePath | controllers/studyController.js:10-44 | the `wikipediaData`/`useDirectAI` flags lead to the path of `Route` for the lookup's outcome; the lookup is called exactly for a valid query, once, with the topic |
| StudyController.UseLookup | controllers/studyController.js:19-44 | for a valid query, the flag logic after the lookup reaches the path of `Route` |
| StudyController.RejectionIgnoresLookup | controllers/studyController.js:10-16 | an invalid query is rejected with the validator's message, whatever the lookup would have returned |
| StudyController.GetStudyData | controllers/studyController.js:5-73 | the response is the error response of the path, or 200 with the generator's artifact and the source (`'AI-generated response'` when the lookup gave none); the lookup is called exactly for a valid query and first; the generator is called, second and last, exactly when the path reaches it, with the chosen content; a 404 or 500 makes only the lookup |
| StudyController.WikipediaNotFoundIsServerError | controllers/studyController.js:35 | Wikipedia's 404 for a valid plain topic ends as 500 with `Topic "<topic>" not found on Wikipedia`, not as 404 |
| StudyController.WorkedExampleRequest | controllers/studyController.js:19-50 | "3x + 5 = 20" with a failed lookup goes to the generator as a direct question; with no provider configured it is answered "x = 5" with a worked solution |

## Left out

- The OpenAI and Gemini SDK calls, client construction from the environment, and the HTTP requests to Wikipedia. A client is a function from prompt to reply. The two Wikipedia requests are given as their outcomes (`Fetched`), and the handler's lookup is a parameter `lookup` from topic to `Result<WikiData>`, so it answers the same topic the same way.
- `JSON.parse`: a parameter `parse` from text to an optional parsed object. Parsed fields of the wrong JSON type are not modelled: a field is present or absent.
- `encodeURIComponent`: the caller passes the encoded topic.
- The wording of the long prompt templates: only which template is chosen and the 1000-character excerpt are modelled.
- LinearEquation.QuotientText: JavaScript prints a non-integral x as a decimal and a zero coefficient as `Infinity`/`NaN`. The model prints an integral x exactly and any other rational as a fraction, because floating-point formatting is not modelled. The distractors `x + 1`, `x - 1` and `2x` are affected in the same way.
- MockGenerator.GenerateMockResponse: the generator's fixed wording is the parameter `t`, with `Texts` as the source's wording. The proofs hold for any wording of the same shape.
- Providers.GenerateAIResponse: the log of which providers were tried is two booleans, not a list of calls.
- LinearEquation.ProductIsDifference: the verification line's product `a * ((c - b) / a)` is computed in floating point by the source, which can differ from c - b when x is not a whole number ("49x + 0 = 1" prints `0.9999999999999999`); the model computes it exactly and prints c - b.
- MockGenerator.WorkedStepsAgree: the same floating-point product; when a divides c - b and c - b is below 2^53 the printed text is the source's; otherwise the model's exact value stands in for the rounded one.
- Split: the function's own contract states only the shape of the pieces; where each piece ends is stated by `JsString.SplitAtRun`, and what they hold by `JsString.SplitKeepsText` and `JsString.WithoutIsFilter`.
- Without: the function's own contract states only the length bound and that no delimiter remains; that every other character stays, in order, is stated by `JsString.WithoutIsFilter`.
- StripTags: the function's own contract states only the length bound; what it keeps is stated by `Wikipedia.TextBeforeTagKept`, `Wikipedia.TagBecomesSpace` and `Wikipedia.StripTagsWithoutClose`.
- CollapseSpaces: the function's own contract states only the length bound and the leading character; what it keeps is stated by `Wikipedia.WordKept` and `Wikipedia.RunBecomesSpace`.
- Lengths are counted in characters, not in UTF-16 code units.
- JsString.ParseDigits: `parseInt` returns a double, which loses precision above 2^53; the model parses digits to an unbounded integer.
- JsString.IntText: JavaScript prints an integer of magnitude 10^21 or more in exponent form (`1e+21`); the model always prints all its digits. `LinearEquation.QuotientText` is affected in the same way for c - b and x.
- The regular expressions `/<[^>]*>/g` (services/wikipediaService.js:37) and `/\{[\s\S]*\}/` (services/aiService.js:481) are modelled by scans: tag stripping walks the text to the next `>`, and the `{…}` match is the span from `indexOf('{')` to `lastIndexOf('}')`, which is what the greedy pattern selects.
- Providers.FencedBodyKept: the exact round trip is stated for a body without backticks that neither starts nor ends with whitespace; other bodies lose their backtick triples and their outer whitespace, as `StrippedHasNoFence` and `Trim` state.
- Regular-expression case folding uses ASCII only, which is all the patterns need.
- All `console` logging.
- The 7-W prompt file: a constant template that nothing imports.
- The Express routes and authentication middleware.
- The Jest configuration.
- The HTTP integration tests.
