/** The local study-artifact generator used when no language-model provider
    answers (`generateMockResponse` in services/aiService.js). A direct question
    is answered by the linear-equation solver; a topic's content is cut into
    sentences, summarised in three entries and quizzed on its capitalised terms. */
module MockGenerator {
  import opened JsString
  import opened StudyData
  import opened LinearEquation

  // ---------------------------------------------------------------------------
  // JavaScript's `||` on strings and `a[k]` past the end of an array
  // ---------------------------------------------------------------------------

  /** `a || b` for strings: `a` unless it is empty. */
  function Or(a: string, b: string): (r: string)
    ensures a != [] ==> r == a
    ensures a == [] ==> r == b
  {
    if a != [] then a else b
  }

  /** `xs[k]`, with `undefined` (which is falsy, like `""`) past the end. */
  function Nth(xs: seq<string>, k: nat): (r: string)
    ensures k < |xs| ==> r == xs[k]
    ensures k >= |xs| ==> r == []
  {
    if k < |xs| then xs[k] else []
  }

  // ---------------------------------------------------------------------------
  // Sentences and the three-entry summary
  // ---------------------------------------------------------------------------

  predicate IsTerminator(c: char) { c == '.' || c == '!' || c == '?' }

  /** Sentences keep more than this many characters once trimmed. */
  const MinSentenceLength := 20
  /** Summary entries longer than this are cut. */
  const MaxEntryLength := 150
  /** Candidate entries of this length or less are dropped. */
  const MinEntryLength := 10

  const Filler := "This topic contains important information " + "that requires careful study and understanding."

  predicate LongEnoughSentence(s: string) { |Trim(s)| > MinSentenceLength }

  /** `content.split(/[.!?]+/).filter(s => s.trim().length > 20)`. */
  function Sentences(content: string): (ss: seq<string>)
    ensures forall k :: 0 <= k < |ss| ==> LongEnoughSentence(ss[k]) && NoneOf(ss[k], IsTerminator)
    ensures forall p :: p in Split(content, IsTerminator) && LongEnoughSentence(p) ==> p in ss
  {
    Filter(Split(content, IsTerminator), LongEnoughSentence)
  }

  /** The sentences come in the order of the text: the first is the first piece
      between terminators that is long enough. */
  lemma FirstSentenceIsFirstLongPiece(content: string, k: nat)
    requires var pieces := Split(content, IsTerminator);
      k < |pieces| && LongEnoughSentence(pieces[k]) && forall j :: 0 <= j < k ==> !LongEnoughSentence(pieces[j])
    ensures Sentences(content) != [] && Sentences(content)[0] == Split(content, IsTerminator)[k]
  {
    FilterFirst(Split(content, IsTerminator), LongEnoughSentence, k);
  }

  /** `sentences[0]?.trim() || content.substring(0, 100)`: the first sentence,
      trimmed, or the first 100 characters when there is none. */
  function FirstSentence(content: string): (r: string)
    ensures var ss := Sentences(content);
      (ss != [] ==> r == Trim(ss[0])) && (ss == [] ==> r == Substring(content, 0, 100))
  {
    var ss := Sentences(content);
    Or(Trim(Nth(ss, 0)), Substring(content, 0, 100))
  }

  /** `sentences[1]?.trim() || sentences[0]?.substring(100, 200) || content.substring(100, 200)`:
      the second sentence, else the overflow of a first sentence longer than 100
      characters, else characters 100 to 200 of the text. */
  function SecondSentence(content: string): (r: string)
    ensures var ss := Sentences(content);
      (|ss| >= 2 ==> r == Trim(ss[1]))
      && (|ss| == 1 && |ss[0]| > 100 ==> r == Substring(ss[0], 100, 200))
      && (|ss| == 1 && |ss[0]| <= 100 ==> r == Substring(content, 100, 200))
      && (ss == [] ==> r == Substring(content, 100, 200))
  {
    var ss := Sentences(content);
    var sentence := Trim(Nth(ss, 1));
    assert |ss| > 1 ==> LongEnoughSentence(ss[1]) && sentence != [];
    var overflow := Substring(Nth(ss, 0), 100, 200);
    SubstringEmpty(Nth(ss, 0), 100, 200);
    Or(sentence, Or(overflow, Substring(content, 100, 200)))
  }

  /** `sentences[2]?.trim() || sentences[1]?.substring(200, 300) || content.substring(200, 300)`:
      the third sentence, else the overflow of a second sentence longer than 200
      characters, else characters 200 to 300 of the text. */
  function ThirdSentence(content: string): (r: string)
    ensures var ss := Sentences(content);
      (|ss| >= 3 ==> r == Trim(ss[2]))
      && (|ss| == 2 && |ss[1]| > 200 ==> r == Substring(ss[1], 200, 300))
      && (|ss| == 2 && |ss[1]| <= 200 ==> r == Substring(content, 200, 300))
      && (|ss| < 2 ==> r == Substring(content, 200, 300))
  {
    var ss := Sentences(content);
    var sentence := Trim(Nth(ss, 2));
    assert |ss| > 2 ==> LongEnoughSentence(ss[2]) && sentence != [];
    var overflow := Substring(Nth(ss, 1), 200, 300);
    SubstringEmpty(Nth(ss, 1), 200, 300);
    Or(sentence, Or(overflow, Substring(content, 200, 300)))
  }

  /** A long entry is cut to 150 characters and marked with "...". */
  function Truncate(s: string): (r: string)
    ensures |r| <= MaxEntryLength + 3
    ensures |s| <= MaxEntryLength ==> r == s
    ensures |s| > MaxEntryLength ==> r == s[..MaxEntryLength] + "..."
  {
    if |s| > MaxEntryLength then Substring(s, 0, MaxEntryLength) + "..." else s
  }

  /** Cutting an entry twice gives the same entry as cutting it once. */
  lemma TruncateIdempotent(s: string)
    ensures Truncate(Truncate(s)) == Truncate(s)
  {
    if |s| > MaxEntryLength {
      var r := Truncate(s);
      assert r[..MaxEntryLength] == s[..MaxEntryLength];
    }
  }

  /** An entry gains a "." only by being cut: for text without a full stop, the
      entry has one exactly when the text was longer than 150 characters. */
  lemma TruncateMarksCut(s: string)
    requires '.' !in s
    ensures '.' in Truncate(s) <==> |s| > MaxEntryLength
  {
    if |s| > MaxEntryLength {
      var r := Truncate(s);
      assert r[|r| - 1] == '.';
    }
  }

  predicate LongEnoughEntry(s: string) { |s| > MinEntryLength }

  /** The truncated first, second and third sentences that are long enough. */
  function Candidates(first: string, second: string, third: string): (kept: seq<string>)
    ensures |kept| <= 3
    ensures forall k :: 0 <= k < |kept| ==> MinEntryLength < |kept[k]| <= MaxEntryLength + 3
    // every truncated sentence longer than 10 characters is kept, in order
    ensures var e1, e2, e3 := Truncate(first), Truncate(second), Truncate(third);
      kept == (if LongEnoughEntry(e1) then [e1] else []) + (if LongEnoughEntry(e2) then [e2] else [])
              + (if LongEnoughEntry(e3) then [e3] else [])
  {
    var e1, e2, e3 := Truncate(first), Truncate(second), Truncate(third);
    var entries := [e1, e2, e3];
    assert forall k :: 0 <= k < 3 ==> |entries[k]| <= MaxEntryLength + 3;
    FilterThree(e1, e2, e3, LongEnoughEntry);
    Filter(entries, LongEnoughEntry)
  }

  /** What the backfill loop pushes when the summary has 0, 1 or 2 entries. */
  function Fills(content: string): (f: seq<string>)
    ensures |f| == 3
    ensures forall k :: 0 <= k < 3 ==> |f[k]| <= MaxEntryLength
  {
    [Substring(content, 0, Min(150, |content|)), Substring(content, 150, Min(300, |content|)), Filler]
  }

  /** The summary after the backfill loop: the kept candidates, then the fills
      from the current length on. */
  function Backfilled(kept: seq<string>, content: string): seq<string>
    requires |kept| <= 3
  {
    kept + Fills(content)[|kept|..]
  }

  /** The backfill loop: while the summary has fewer than three entries, push the
      fill chosen by its current length. */
  method BackfillSummary(kept: seq<string>, content: string) returns (summary: seq<string>)
    requires |kept| <= 3
    ensures summary == Backfilled(kept, content)
  {
    summary := kept;
    while |summary| < 3
      invariant |kept| <= |summary| <= 3
      invariant summary == kept + Fills(content)[|kept|..|summary|]
      decreases 3 - |summary|
    {
      ghost var before := summary;
      if |summary| == 0 {
        summary := summary + [Substring(content, 0, Min(150, |content|))];
      } else if |summary| == 1 {
        summary := summary + [Substring(content, 150, Min(300, |content|))];
      } else {
        summary := summary + [Filler];
      }
      assert summary == before + [Fills(content)[|before|]];
      assert Fills(content)[|kept|..|summary|] == Fills(content)[|kept|..|before|] + [Fills(content)[|before|]];
    }
  }

  /** The summary built from the three sentences: exactly three entries, none
      longer than 153 characters, the kept candidates first and then the fill for
      each remaining slot. */
  function Summary(first: string, second: string, third: string, content: string): (summary: seq<string>)
    ensures |summary| == 3
    ensures forall k :: 0 <= k < 3 ==> |summary[k]| <= MaxEntryLength + 3
    ensures var kept := Candidates(first, second, third);
      summary[..|kept|] == kept && forall k :: |kept| <= k < 3 ==> summary[k] == Fills(content)[k]
  {
    var kept := Candidates(first, second, third);
    BackfilledShape(kept, content);
    Take(Backfilled(kept, content), 3)
  }

  /** The backfilled summary has three entries: the kept ones, then the fills. */
  lemma BackfilledShape(kept: seq<string>, content: string)
    requires |kept| <= 3 && forall k :: 0 <= k < |kept| ==> |kept[k]| <= MaxEntryLength + 3
    ensures var summary := Backfilled(kept, content);
      |summary| == 3 && summary[..|kept|] == kept
      && (forall k :: |kept| <= k < 3 ==> summary[k] == Fills(content)[k])
      && forall k :: 0 <= k < 3 ==> |summary[k]| <= MaxEntryLength + 3
  {
    var summary := Backfilled(kept, content);
    assert forall k :: |kept| <= k < 3 ==> summary[k] == Fills(content)[k];
  }

  /** The summary of a topic's content. */
  function TopicSummary(content: string): seq<string> {
    Summary(FirstSentence(content), SecondSentence(content), ThirdSentence(content), content)
  }

  /** Empty content gives two empty entries and the filler sentence. */
  lemma EmptyContentSummary()
    ensures TopicSummary("") == ["", "", Filler]
  {
    assert Sentences("") == [];
    assert Candidates("", "", "") == [];
  }

  // ---------------------------------------------------------------------------
  // Important terms and the topic quizzes
  // ---------------------------------------------------------------------------

  /** A term: more than `minLength` characters and an initial A-Z. */
  predicate IsTerm(w: string, minLength: nat) { |w| > minLength && IsAsciiUpper(w[0]) }

  /** `content.split(/\s+/).filter(w => w.length > minLength && /^[A-Z]/.test(w)).slice(0, cap)`. */
  function ImportantTerms(content: string, minLength: nat, cap: nat): (terms: seq<string>)
    ensures |terms| <= cap
    ensures forall k :: 0 <= k < |terms| ==> IsTerm(terms[k], minLength) && NoneOf(terms[k], IsSpace)
  {
    Take(Filter(Split(content, IsSpace), w => IsTerm(w, minLength)), cap)
  }

  /** When the content has no more than `cap` terms, every one of them is kept. */
  lemma TermsCompleteUnderCap(content: string, minLength: nat, cap: nat)
    requires |Filter(Split(content, IsSpace), w => IsTerm(w, minLength))| <= cap
    ensures forall w :: w in Split(content, IsSpace) && IsTerm(w, minLength) ==> w in ImportantTerms(content, minLength, cap)
  {
    var all := Filter(Split(content, IsSpace), w => IsTerm(w, minLength));
    assert Take(all, cap) == all;
  }

  /** The first term is the first capitalised word long enough, in the order of the text. */
  lemma FirstTermIsFirstQualifying(content: string, minLength: nat, cap: nat, k: nat)
    requires var words := Split(content, IsSpace);
      cap > 0 && k < |words| && IsTerm(words[k], minLength) && forall j :: 0 <= j < k ==> !IsTerm(words[j], minLength)
    ensures var terms := ImportantTerms(content, minLength, cap);
      terms != [] && terms[0] == Split(content, IsSpace)[k]
  {
    FilterFirst(Split(content, IsSpace), w => IsTerm(w, minLength), k);
  }

  /** The cap keeps the earliest terms: once the first `k` words hold `cap` terms,
      the words after them do not matter. */
  lemma LaterWordsIgnored(content: string, minLength: nat, cap: nat, k: nat)
    requires var words := Split(content, IsSpace);
      k <= |words| && |Filter(words[..k], w => IsTerm(w, minLength))| >= cap
    ensures ImportantTerms(content, minLength, cap) == Filter(Split(content, IsSpace)[..k], w => IsTerm(w, minLength))[..cap]
  {
    var words := Split(content, IsSpace);
    assert words == words[..k] + words[k..];
    FilterAppend(words[..k], words[k..], w => IsTerm(w, minLength));
  }

  /** `important-term || fallback` for one quiz option. */
  function TermOr(terms: seq<string>, k: nat, fallback: string): string {
    Or(Nth(terms, k), fallback)
  }

  /** A quiz question built from a sentence longer than `threshold`, or the fixed
      question otherwise. */
  function Stem(sentence: string, threshold: nat, lead: string, fixed: string): (q: string)
    ensures |sentence| > threshold ==> q == lead + sentence[..threshold] + Ellipsis + "?"
    ensures |sentence| <= threshold ==> q == fixed
  {
    if |sentence| > threshold then lead + Substring(sentence, 0, threshold) + Ellipsis + "?" else fixed
  }

  const Ellipsis := "..."

  /** The four study steps of a math topic: two lead-ins that quote the first two
      summary entries (with a default for an empty entry) and two fixed steps. */
  datatype StepWording = StepWording(keyConceptLead: string, keyConceptDefault: string,
                                     applicationLead: string, applicationDefault: string,
                                     practice: string, verification: string)

  /** The fixed wording of a topic artifact in one mode: how long a sentence must
      be to become a question, the length and number of important terms, the lead
      of each slot's question, the questions used otherwise, the eight fallbacks
      for the term options of slots 0 and 2, the four options of slot 1, the study
      tip, and the study steps when the mode has them. */
  datatype Wording = Wording(threshold: nat, termLength: nat, termCap: nat,
                             leads: seq<string>, questions: seq<string>, fallbacks: seq<string>,
                             fixedOptions: seq<string>, tip: string, steps: Option<StepWording>)

  predicate ValidWording(w: Wording) {
    |w.leads| == 3 && |w.questions| == 3 && |w.fallbacks| == 8 && |w.fixedOptions| == 4
  }

  /** How a sentence is introduced when it becomes the question of slot 0, 1 or 2. */
  const Leads := ["According to the content, ", "Based on the information, ", "The content suggests that "]

  const NormalWording := Wording(80, 6, 10, Leads,
    [ "What is a key concept mentioned in this topic?",
      "Which statement best describes this topic?",
      "What is an important aspect of this topic?" ],
    [ "The primary concept", "The secondary concept", "An important detail", "A related topic",
      "Historical context", "Modern applications", "Theoretical foundation", "Practical examples" ],
    [ "It is a fundamental concept", "It has practical applications",
      "It requires careful study", "It involves multiple aspects" ],
    "Break down complex topics into smaller chunks. "
    + "Use the Feynman technique: explain the concept in simple terms as if teaching someone else. "
    + "Review the key points regularly.",
    None)

  const MathWording := Wording(100, 4, 15, Leads,
    [ "What is a fundamental mathematical concept mentioned in this topic?",
      "Which mathematical operation is most relevant to this topic?",
      "What is an important application of the mathematical concepts in this topic?" ],
    [ "Core mathematical principle", "Key calculation method", "Important mathematical formula",
      "Mathematical application", "Problem-solving", "Data analysis", "Modeling", "Optimization" ],
    [ "Basic arithmetic", "Algebraic manipulation", "Calculus operations", "Statistical analysis" ],
    "For math topics, focus on understanding the step-by-step process rather than memorizing formulas. "
    + "Practice solving similar problems to build confidence. "
    + "Work through examples methodically and understand why each step is necessary.",
    Some(StepWording("Key Concept: ", "Understanding the fundamentals is essential",
                     "Application: ", "Apply the concepts to solve problems",
                     "Practice: Work through multiple examples to build proficiency",
                     "Verification: Always check your work and understand each step")))

  lemma ThreeItemQuiz(a: QuizItem, b: QuizItem, c: QuizItem)
    requires |a.options| == 4 && 0 <= a.correctAnswer < 4
    requires |b.options| == 4 && 0 <= b.correctAnswer < 4
    requires |c.options| == 4 && 0 <= c.correctAnswer < 4
    ensures WellFormedQuiz([a, b, c])
  {
  }

  /** Four term options: the terms from position `from` on, each replaced by its
      fallback where the term list has run out. */
  function TermOptions(t: seq<string>, from: nat, fallbacks: seq<string>): (options: seq<string>)
    requires from + 4 <= |fallbacks|
    ensures |options| == 4
    ensures forall j :: 0 <= j < 4 ==> options[j] == (if from + j < |t| && t[from + j] != [] then t[from + j] else fallbacks[from + j])
  {
    [ TermOr(t, from, fallbacks[from]), TermOr(t, from + 1, fallbacks[from + 1]),
      TermOr(t, from + 2, fallbacks[from + 2]), TermOr(t, from + 3, fallbacks[from + 3]) ]
  }

  /** The topic quiz on the three sentences and the important terms `t`: three
      items answered by slot (0, 1, 2); slot 0 offers the first four terms and
      slot 2 the next four, each replaced by its fallback where the terms run out;
      slot 1 offers the fixed options. */
  function TopicQuiz(first: string, second: string, third: string, t: seq<string>, w: Wording): (quiz: seq<QuizItem>)
    requires ValidWording(w)
    ensures |quiz| == 3 && WellFormedQuiz(quiz)
    ensures quiz[0].correctAnswer == 0 && quiz[1].correctAnswer == 1 && quiz[2].correctAnswer == 2
    ensures quiz[0].options == TermOptions(t, 0, w.fallbacks) && quiz[2].options == TermOptions(t, 4, w.fallbacks)
    ensures quiz[1].options == w.fixedOptions
    // each item asks about its own sentence
    ensures quiz[0].question == Stem(first, w.threshold, w.leads[0], w.questions[0])
    ensures quiz[1].question == Stem(second, w.threshold, w.leads[1], w.questions[1])
    ensures quiz[2].question == Stem(third, w.threshold, w.leads[2], w.questions[2])
  {
    var q0 := QuizItem(Stem(first, w.threshold, w.leads[0], w.questions[0]), TermOptions(t, 0, w.fallbacks), 0);
    var q1 := QuizItem(Stem(second, w.threshold, w.leads[1], w.questions[1]), w.fixedOptions, 1);
    var q2 := QuizItem(Stem(third, w.threshold, w.leads[2], w.questions[2]), TermOptions(t, 4, w.fallbacks), 2);
    ThreeItemQuiz(q0, q1, q2);
    [q0, q1, q2]
  }

  /** The four study steps, quoting the first two summary entries. */
  function StudySteps(summary: seq<string>, s: StepWording): seq<string> {
    [ s.keyConceptLead + Or(Nth(summary, 0), s.keyConceptDefault),
      s.applicationLead + Or(Nth(summary, 1), s.applicationDefault),
      s.practice,
      s.verification ]
  }

  /** The artifact for a topic's content in the given wording: the three-entry
      summary, the quiz, the tip, and the study steps when the wording has them. */
  function TopicArtifact(content: string, w: Wording): (a: Artifact)
    requires ValidWording(w)
    ensures a.summary == TopicSummary(content) && |a.summary| == 3
    ensures |a.quiz| == 3 && WellFormedQuiz(a.quiz)
    ensures a.quiz[0].correctAnswer == 0 && a.quiz[1].correctAnswer == 1 && a.quiz[2].correctAnswer == 2
    ensures a.studyTip == w.tip
    ensures a.solution.Some? <==> w.steps.Some?
  {
    var first, second, third := FirstSentence(content), SecondSentence(content), ThirdSentence(content);
    var summary := Summary(first, second, third, content);
    Artifact(summary, TopicQuiz(first, second, third, ImportantTerms(content, w.termLength, w.termCap), w), w.tip,
             if w.steps.Some? then Some(Solution(StudySteps(summary, w.steps.value))) else None)
  }

  // ---------------------------------------------------------------------------
  // Direct questions
  // ---------------------------------------------------------------------------

  /** `x = <x>` for a number. */
  function Assignment(x: Quotient): (r: string)
    ensures StartsWith(r, AssignmentLead) && r[|AssignmentLead|..] == QuotientText(x)
  {
    AssignmentLead + QuotientText(x)
  }

  const AssignmentLead := "x = "

  /** The fixed lines of the eight-step worked solution. */
  datatype WorkedWording = WorkedWording(given: string, subtract: string, fromBothSides: string,
                                         divide: string, check: string)

  /** The fixed wording of the direct-question artifact. */
  datatype DirectWording = DirectWording(
    questionLead: string, solutionLead: string, valueQuestion: string,
    substituteLead: string, substituteTail: string,
    firstStepItem: QuizItem, typeItem: QuizItem, approachItem: QuizItem, principleItem: QuizItem,
    unsolvedTail: seq<string>, equationTip: string, problemTip: string, worked: WorkedWording)

  /** A fixed item with four options whose first one is correct. */
  predicate FirstIsCorrect(q: QuizItem) { |q.options| == 4 && q.correctAnswer == 0 }

  predicate ValidDirectWording(d: DirectWording) {
    FirstIsCorrect(d.firstStepItem) && FirstIsCorrect(d.typeItem) && FirstIsCorrect(d.approachItem)
    && FirstIsCorrect(d.principleItem) && |d.unsolvedTail| == 2
  }

  const DirectTexts := DirectWording(
    "Question: ", "Solution: ", "What is the value of x in the equation ",
    "Verification: Substitute x = ", " back into the equation to confirm",
    QuizItem("What is the first step to solve this equation?",
      ["Isolate the variable term", "Multiply both sides", "Add to both sides", "Square both sides"], 0),
    QuizItem("What type of problem is this?", ["Mathematical", "Logical", "Analytical", "Conceptual"], 0),
    QuizItem("How should you approach this problem?", ["Break it down", "Guess randomly", "Skip it", "Give up"], 0),
    QuizItem("What mathematical principle is being applied?",
      ["Algebraic manipulation", "Geometric reasoning", "Statistical analysis", "Calculus"], 0),
    [ "This appears to be a question or problem that requires analysis.",
      "Please provide more context or rephrase the question for better assistance." ],
    "For linear equations, always isolate the variable by performing inverse operations on both sides. "
    + "Work step-by-step and check your answer by substituting back into the original equation.",
    "Break down complex problems into smaller steps. "
    + "Identify what you know and what you need to find. "
    + "Look for patterns and apply relevant formulas or concepts.",
    WorkedWording("Given equation: ", "Step 1: Subtract ", " from both sides",
                  "Step 2: Divide both sides by ", "\nVerification: "))

  const XPlus := "x + "
  const XEquals := "x = "
  const PlusSign := " + "
  const MinusSign := " - "
  const EqualsSign := " = "
  const DivideSign := " ÷ "
  const CheckMark := " ✓"

  /** The eight lines of the worked solution of `a x + b = c`, quoting the
      captured digit runs as written. */
  function WorkedSteps(e: Equation, w: WorkedWording): (steps: seq<string>)
    requires AllDigits(e.coefficient) && AllDigits(e.constant) && AllDigits(e.rhs)
    ensures |steps| == 8 && steps[6] == Assignment(Solve(e))
  {
    var x := Solve(e);
    var a, b, c := e.coefficient, e.constant, e.rhs;
    var difference := IntText(ParseDigits(c) - ParseDigits(b));
    [ w.given + a + XPlus + b + EqualsSign + c,
      w.subtract + b + w.fromBothSides,
      a + XEquals + c + MinusSign + b,
      a + XEquals + difference,
      w.divide + a,
      AssignmentLead + difference + DivideSign + a,
      Assignment(x),
      w.check + a + "(" + QuotientText(x) + ")" + PlusSign + b + EqualsSign
        + QuotientText(Quotient(x.den * x.num, x.den)) + PlusSign + b + EqualsSign + c + CheckMark ]
  }

  /** With a non-zero coefficient the worked solution is consistent: the
      difference c - b that steps 4 and 6 divide is also what the verification
      line shows for a·x, before adding b back to reach c. */
  lemma WorkedStepsAgree(e: Equation, w: WorkedWording)
    requires AllDigits(e.coefficient) && AllDigits(e.constant) && AllDigits(e.rhs)
    requires ParseDigits(e.coefficient) != 0
    ensures var steps := WorkedSteps(e, w);
      var a, b, c := e.coefficient, e.constant, e.rhs;
      var difference := IntText(ParseDigits(c) - ParseDigits(b));
      steps[3] == a + XEquals + difference
      && steps[5] == AssignmentLead + difference + DivideSign + a
      && steps[7] == w.check + a + "(" + QuotientText(Solve(e)) + ")" + PlusSign + b + EqualsSign
                     + difference + PlusSign + b + EqualsSign + c + CheckMark
  {
    ProductIsDifference(e);
  }

  /** The artifact for a question holding the equation `e`: the summary reports
      `x = <x>`, the first quiz item offers it first among x + 1, x - 1 and 2x,
      and the worked solution has eight steps. */
  function SolvedArtifact(question: string, e: Equation, d: DirectWording): (a: Artifact)
    requires AllDigits(e.coefficient) && AllDigits(e.constant) && AllDigits(e.rhs)
    requires ValidDirectWording(d)
    ensures |a.summary| == 3 && a.summary[0] == d.questionLead + question
    ensures a.summary[1] == d.solutionLead + Assignment(Solve(e))
    ensures |a.quiz| == 3 && WellFormedQuiz(a.quiz)
    ensures a.quiz[0].correctAnswer == 0 && a.quiz[1].correctAnswer == 0 && a.quiz[2].correctAnswer == 0
    ensures a.quiz[0].options[0] == Assignment(Solve(e))
    ensures a.solution.Some? && |a.solution.value.steps| == 8 && a.solution.value.steps[6] == Assignment(Solve(e))
  {
    var x := Solve(e);
    var solution := Assignment(x);
    var q0 := QuizItem(d.valueQuestion + question + "?",
                       [solution, Assignment(Plus(x, 1)), Assignment(Plus(x, -1)), Assignment(Times(2, x))], 0);
    ThreeItemQuiz(q0, d.firstStepItem, d.principleItem);
    Artifact(
      [ d.questionLead + question,
        d.solutionLead + solution,
        d.substituteLead + QuotientText(x) + d.substituteTail ],
      [q0, d.firstStepItem, d.principleItem],
      d.equationTip,
      Some(Solution(WorkedSteps(e, d.worked))))
  }

  /** The artifact for a question without an equation: generic advice and no solution. */
  function UnsolvedArtifact(question: string, d: DirectWording): (a: Artifact)
    requires ValidDirectWording(d)
    ensures |a.summary| == 3 && a.summary[0] == d.questionLead + question
    ensures |a.quiz| == 3 && WellFormedQuiz(a.quiz)
    ensures a.quiz[0].correctAnswer == 0 && a.quiz[1].correctAnswer == 0 && a.quiz[2].correctAnswer == 0
    ensures a.solution == None
  {
    ThreeItemQuiz(d.typeItem, d.approachItem, d.principleItem);
    Artifact([d.questionLead + question] + d.unsolvedTail,
             [d.typeItem, d.approachItem, d.principleItem],
             d.problemTip,
             None)
  }

  /** The artifact for a question asked directly: solved when it holds a linear
      equation, generic advice otherwise. */
  function DirectArtifact(question: string, d: DirectWording): (a: Artifact)
    requires ValidDirectWording(d)
    ensures |a.summary| == 3 && a.summary[0] == d.questionLead + question
    ensures |a.quiz| == 3 && WellFormedQuiz(a.quiz)
    ensures a.quiz[0].correctAnswer == 0 && a.quiz[1].correctAnswer == 0 && a.quiz[2].correctAnswer == 0
    ensures a.solution.Some? <==> FindEquation(question).Some?
  {
    match FindEquation(question)
    case Some(m) => SolvedArtifact(question, m.equation, d)
    case None => UnsolvedArtifact(question, d)
  }

  // ---------------------------------------------------------------------------
  // The generator
  // ---------------------------------------------------------------------------

  /** All fixed wording of the generator: the direct-question texts and the topic
      wording of normal and of math mode. */
  datatype MockTexts = MockTexts(direct: DirectWording, normal: Wording, math: Wording)

  /** Only math mode has study steps. */
  predicate ValidTexts(t: MockTexts) {
    ValidDirectWording(t.direct) && ValidWording(t.normal) && ValidWording(t.math)
    && t.normal.steps.None? && t.math.steps.Some?
  }

  const Texts := MockTexts(DirectTexts, NormalWording, MathWording)

  /** The generator's wording is well formed; math mode takes shorter terms, more
      of them, and a longer question threshold than normal mode. */
  lemma TextsValid()
    ensures ValidTexts(Texts)
    ensures Texts.normal.threshold == 80 && Texts.normal.termLength == 6 && Texts.normal.termCap == 10
    ensures Texts.math.threshold == 100 && Texts.math.termLength == 4 && Texts.math.termCap == 15
  {
  }

  /** The topic wording of the mode: `mode === 'math'` selects math mode. */
  function ModeWording(mode: QueryParam, t: MockTexts): (w: Wording)
    requires ValidTexts(t)
    ensures ValidWording(w)
    ensures w.steps.Some? <==> IsMathMode(mode)
  {
    if IsMathMode(mode) then t.math else t.normal
  }

  /** What `generateMockResponse(content, mode, isDirectQuestion)` returns in the
      wording `t`. The mode plays no part in a direct question. */
  function MockArtifact(content: string, mode: QueryParam, isDirectQuestion: bool, t: MockTexts): (a: Artifact)
    requires ValidTexts(t)
    ensures |a.summary| == 3 && |a.quiz| == 3 && WellFormedQuiz(a.quiz)
    ensures isDirectQuestion ==> a.summary[0] == t.direct.questionLead + content
    ensures isDirectQuestion ==> (a.solution.Some? <==> FindEquation(content).Some?)
    ensures !isDirectQuestion ==> (a.solution.Some? <==> IsMathMode(mode))
  {
    if isDirectQuestion then DirectArtifact(content, t.direct) else TopicArtifact(content, ModeWording(mode, t))
  }

  /** `generateMockResponse` in the wording `t` (the source's wording is
      `Texts`): a direct question is answered at once; a topic is summarised by
      `SummariseTopic`. */
  method GenerateMockResponse(content: string, mode: QueryParam, isDirectQuestion: bool, t: MockTexts) returns (r: Artifact)
    requires ValidTexts(t)
    ensures r == MockArtifact(content, mode, isDirectQuestion, t)
  {
    if isDirectQuestion {
      return DirectArtifact(content, t.direct);
    }
    r := SummariseTopic(content, ModeWording(mode, t));
  }

  /** The topic branch: runs the backfill loop on the kept candidates and
      assembles the artifact in the wording of the mode. */
  method SummariseTopic(content: string, w: Wording) returns (r: Artifact)
    requires ValidWording(w)
    ensures r == TopicArtifact(content, w)
  {
    var first, second, third := FirstSentence(content), SecondSentence(content), ThirdSentence(content);
    var filled := BackfillSummary(Candidates(first, second, third), content);
    var summary := Take(filled, 3);
    assert summary == Summary(first, second, third, content);
    var quiz := TopicQuiz(first, second, third, ImportantTerms(content, w.termLength, w.termCap), w);
    if w.steps.Some? {
      r := Artifact(summary, quiz, w.tip, Some(Solution(StudySteps(summary, w.steps.value))));
    } else {
      r := Artifact(summary, quiz, w.tip, None);
    }
  }

  // ---------------------------------------------------------------------------
  // Properties of the generator
  // ---------------------------------------------------------------------------

  /** A topic quiz has three items of four options, answered by slot (0, 1, 2);
      slots 0 and 2 offer the important terms of the mode, or their fallbacks. */
  lemma TopicQuizShape(content: string, w: Wording)
    requires ValidWording(w)
    ensures var quiz := TopicArtifact(content, w).quiz;
      |quiz| == 3 && WellFormedQuiz(quiz)
      && quiz[0].correctAnswer == 0 && quiz[1].correctAnswer == 1 && quiz[2].correctAnswer == 2
      && quiz[0].options == TermOptions(ImportantTerms(content, w.termLength, w.termCap), 0, w.fallbacks)
      && quiz[2].options == TermOptions(ImportantTerms(content, w.termLength, w.termCap), 4, w.fallbacks)
  {
  }

  /** Every quiz the generator returns has three items of four options, with the
      correct answer at the item's slot on a topic and at 0 on a direct question. */
  lemma QuizShape(content: string, mode: QueryParam, isDirectQuestion: bool, t: MockTexts)
    requires ValidTexts(t)
    ensures var quiz := MockArtifact(content, mode, isDirectQuestion, t).quiz;
      |quiz| == 3 && WellFormedQuiz(quiz) && quiz[0].correctAnswer == 0
      && quiz[1].correctAnswer == (if isDirectQuestion then 0 else 1)
      && quiz[2].correctAnswer == (if isDirectQuestion then 0 else 2)
  {
    if !isDirectQuestion {
      TopicQuizShape(content, ModeWording(mode, t));
    }
  }

  /** A topic's summary is the three-entry summary of its sentences, in every mode. */
  lemma TopicSummaryShape(content: string, w: Wording)
    requires ValidWording(w)
    ensures var s := TopicArtifact(content, w).summary;
      |s| == 3 && (forall k :: 0 <= k < 3 ==> |s[k]| <= MaxEntryLength + 3)
      && s == TopicSummary(content)
  {
  }

  /** Every summary the generator returns has three entries; on a topic none
      exceeds 153 characters. */
  lemma SummaryShape(content: string, mode: QueryParam, isDirectQuestion: bool, t: MockTexts)
    requires ValidTexts(t)
    ensures var summary := MockArtifact(content, mode, isDirectQuestion, t).summary;
      |summary| == 3 && (!isDirectQuestion ==> forall k :: 0 <= k < 3 ==> |summary[k]| <= MaxEntryLength + 3)
  {
    if !isDirectQuestion {
      TopicSummaryShape(content, ModeWording(mode, t));
    }
  }

  /** With study steps, the first two steps quote the first two summary entries
      (or a default sentence when an entry is empty). */
  lemma StepsQuoteSummary(content: string, w: Wording)
    requires ValidWording(w) && w.steps.Some?
    ensures var a := TopicArtifact(content, w); var s := w.steps.value;
      a.solution.Some? && |a.solution.value.steps| == 4
      && a.solution.value.steps[0] == s.keyConceptLead + Or(a.summary[0], s.keyConceptDefault)
      && a.solution.value.steps[1] == s.applicationLead + Or(a.summary[1], s.applicationDefault)
  {
    var a := TopicArtifact(content, w);
    var summary := Summary(FirstSentence(content), SecondSentence(content), ThirdSentence(content), content);
    assert a.summary == summary;
    assert a.solution == Some(Solution(StudySteps(summary, w.steps.value)));
    StepsQuote(summary, w.steps.value);
  }

  lemma StepsQuote(summary: seq<string>, s: StepWording)
    requires |summary| == 3
    ensures var steps := StudySteps(summary, s);
      |steps| == 4
      && steps[0] == s.keyConceptLead + Or(summary[0], s.keyConceptDefault)
      && steps[1] == s.applicationLead + Or(summary[1], s.applicationDefault)
  {
  }

  /** On a direct question the solution is present exactly when the question holds
      an equation; its eight steps end with the same `x = <x>` that the summary
      reports and that the first quiz item marks correct. */
  lemma DirectAnswerIsConsistent(question: string, d: DirectWording)
    requires ValidDirectWording(d)
    ensures var a := DirectArtifact(question, d);
      a.solution.Some? <==> FindEquation(question).Some?
    ensures var a := DirectArtifact(question, d);
      a.solution.Some? ==>
        |a.solution.value.steps| == 8
        && a.solution.value.steps[6] == a.quiz[0].options[a.quiz[0].correctAnswer]
        && a.summary[1] == d.solutionLead + a.solution.value.steps[6]
  {
  }

  /** "3x + 5 = 20" asked directly is answered "x = 5", with a worked solution. */
  lemma WorkedExampleAnswer(d: DirectWording)
    requires ValidDirectWording(d)
    ensures var a := DirectArtifact("3x + 5 = 20", d);
      a.summary[1] == d.solutionLead + "x = 5" && a.quiz[0].options[0] == "x = 5" && a.solution.Some?
  {
    var e := Equation("3", "5", "20");
    WorkedExampleMatch();
    WorkedExampleSolution();
    assert DirectArtifact("3x + 5 = 20", d) == SolvedArtifact("3x + 5 = 20", e, d);
    assert Assignment(Solve(e)) == "x = 5";
  }
}
