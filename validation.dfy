/** The query validator: an ordered chain of checks on `topic` and `mode`
    (utils/validation.js). */
module Validation {
  import opened JsString
  import opened StudyData

  const TopicRequired := "Topic parameter is required"
  const TopicEmpty := "Topic cannot be empty"
  const TopicTooLong := "Topic must be 200 characters or less"
  const BadMode := "Mode must be either \"math\" or \"normal\" (or omitted)"
  const InputValid := "Input is valid"

  /** The longest topic accepted, measured after trimming. */
  const MaxTopicLength := 200

  datatype Verdict = Verdict(valid: bool, message: string)

  /** The checks, in the order the validator runs them. */
  datatype Check = Presence | NonBlank | Length | ModeValue

  const CheckOrder: seq<Check> := [Presence, NonBlank, Length, ModeValue]

  /** Whether `topic`/`mode` pass one check taken on its own. */
  predicate Passes(c: Check, topic: QueryParam, mode: QueryParam) {
    match c
    case Presence => topic.Text? && topic.s != ""
    case NonBlank => topic.Text? && Trim(topic.s) != ""
    case Length => topic.Text? && |Trim(topic.s)| <= MaxTopicLength
    case ModeValue => !Truthy(mode) || mode == Text("math") || mode == Text("normal")
  }

  function Complaint(c: Check): string {
    match c
    case Presence => TopicRequired
    case NonBlank => TopicEmpty
    case Length => TopicTooLong
    case ModeValue => BadMode
  }

  /** `validateInput(topic, mode)`: the input is valid exactly when every check
      passes, and then the message says so. */
  function ValidateInput(topic: QueryParam, mode: QueryParam): (r: Verdict)
    ensures r.valid <==> Passes(Presence, topic, mode) && Passes(NonBlank, topic, mode)
                         && Passes(Length, topic, mode) && Passes(ModeValue, topic, mode)
    ensures r.valid ==> r.message == InputValid
  {
    if !topic.Text? || topic.s == "" then
      Verdict(false, TopicRequired)
    else
      var trimmed := Trim(topic.s);
      if |trimmed| == 0 then
        Verdict(false, TopicEmpty)
      else if |trimmed| > MaxTopicLength then
        Verdict(false, TopicTooLong)
      else if Truthy(mode) && mode != Text("math") && mode != Text("normal") then
        Verdict(false, BadMode)
      else
        Verdict(true, InputValid)
  }

  /** Check number `k` fails and every earlier one passes. */
  predicate FirstFailure(k: nat, topic: QueryParam, mode: QueryParam)
    requires k < |CheckOrder|
  {
    !Passes(CheckOrder[k], topic, mode) && forall j :: 0 <= j < k ==> Passes(CheckOrder[j], topic, mode)
  }

  /** The position in `CheckOrder` of the first check that fails, searching from
      `i` on; `|CheckOrder|` when none does. */
  function FirstFailedFrom(i: nat, topic: QueryParam, mode: QueryParam): (k: nat)
    requires i <= |CheckOrder|
    requires forall j :: 0 <= j < i ==> Passes(CheckOrder[j], topic, mode)
    ensures i <= k <= |CheckOrder|
    ensures k < |CheckOrder| ==> FirstFailure(k, topic, mode)
    ensures k == |CheckOrder| ==> forall j :: 0 <= j < |CheckOrder| ==> Passes(CheckOrder[j], topic, mode)
    decreases |CheckOrder| - i
  {
    if i == |CheckOrder| || !Passes(CheckOrder[i], topic, mode) then i
    else FirstFailedFrom(i + 1, topic, mode)
  }

  /** The validator, read as "report the first failing check in order": the input
      is invalid exactly when some check fails, and the message is that of the
      first one. */
  lemma FirstFailureReported(topic: QueryParam, mode: QueryParam)
    ensures var k := FirstFailedFrom(0, topic, mode);
      (k < |CheckOrder| <==> !ValidateInput(topic, mode).valid)
      && (k < |CheckOrder| ==> ValidateInput(topic, mode).message == Complaint(CheckOrder[k]))
  {
    var k := FirstFailedFrom(0, topic, mode);
    if !Passes(Presence, topic, mode) {
      assert k == 0;
    } else if !Passes(NonBlank, topic, mode) {
      assert k == 1;
    } else if !Passes(Length, topic, mode) {
      assert k == 2;
    } else if !Passes(ModeValue, topic, mode) {
      assert k == 3;
    } else {
      assert k == 4;
    }
  }

  /** A valid request carries a string topic whose trimmed form has 1 to 200
      characters and a mode that is absent, empty, "math" or "normal". */
  lemma ValidMeansWellFormed(topic: QueryParam, mode: QueryParam)
    requires ValidateInput(topic, mode).valid
    ensures topic.Text? && 0 < |Trim(topic.s)| <= MaxTopicLength
    ensures mode == Missing || mode == Text("") || mode == Text("math") || mode == Text("normal")
  {
  }

  /** When the topic fails a check, the verdict does not depend on the mode:
      topic errors take precedence over mode errors. */
  lemma TopicErrorsComeFirst(topic: QueryParam, mode1: QueryParam, mode2: QueryParam)
    requires !(topic.Text? && 0 < |Trim(topic.s)| <= MaxTopicLength)
    ensures ValidateInput(topic, mode1) == ValidateInput(topic, mode2)
    ensures !ValidateInput(topic, mode1).valid
  {
  }

  /** The length limit is inclusive and applies to the trimmed topic. */
  lemma LengthBoundary(s: string)
    requires s != []
    ensures |Trim(s)| == MaxTopicLength ==> ValidateInput(Text(s), Missing).valid
    ensures |Trim(s)| > MaxTopicLength ==> ValidateInput(Text(s), Missing).message == TopicTooLong
  {
    assert Passes(Presence, Text(s), Missing);
    assert Passes(ModeValue, Text(s), Missing);
    if |Trim(s)| == MaxTopicLength {
      assert Passes(NonBlank, Text(s), Missing);
      assert Passes(Length, Text(s), Missing);
    }
  }

  /** "Topic cannot be empty" is the verdict exactly for a non-empty topic made
      only of whitespace, whatever the mode. */
  lemma BlankTopicIsEmpty(s: string, mode: QueryParam)
    ensures s != [] && AllSpaces(s) <==> ValidateInput(Text(s), mode) == Verdict(false, TopicEmpty)
  {
    var v := ValidateInput(Text(s), mode);
    TrimEmptyIffSpaces(s);
    if s == [] {
      assert v.message == TopicRequired && |TopicRequired| != |TopicEmpty|;
    } else if Trim(s) != [] {
      assert v.valid || v.message == TopicTooLong || v.message == BadMode;
      assert |TopicEmpty| != |TopicTooLong| && |TopicEmpty| != |BadMode|;
    }
  }
}
