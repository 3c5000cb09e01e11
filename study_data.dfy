/** Values that flow between the request handler, the validator, the Wikipedia
    client and the response generator. */
module StudyData {

  datatype Option<T> = None | Some(value: T)

  /** A JavaScript operation that either yields a value or throws an `Error`
      carrying a message. */
  datatype Result<T> = Ok(value: T) | Err(message: string)

  /** A query-string parameter as the HTTP framework hands it over: absent
      (`undefined`), a string, or a structured value (an array or object, which
      is truthy and not a string). */
  datatype QueryParam = Missing | Text(s: string) | Structured

  /** JavaScript truthiness of a query parameter: only `undefined` and `""` are falsy. */
  predicate Truthy(p: QueryParam) {
    p.Structured? || (p.Text? && p.s != "")
  }

  /** `mode === 'math'`. */
  predicate IsMathMode(mode: QueryParam) {
    mode == Text("math")
  }

  /** A multiple-choice question; `correctAnswer` indexes `options`. */
  datatype QuizItem = QuizItem(question: string, options: seq<string>, correctAnswer: int)

  /** A worked solution, `{ steps: [...] }`. */
  datatype Solution = Solution(steps: seq<string>)

  /** What the response generator hands back to the request handler. A missing
      `solution` key and `solution: null` are both `None`. */
  datatype Artifact = Artifact(summary: seq<string>, quiz: seq<QuizItem>, studyTip: string, solution: Option<Solution>)

  /** Every item has exactly four options and a correct answer that indexes one of them. */
  predicate WellFormedQuiz(quiz: seq<QuizItem>) {
    forall k :: 0 <= k < |quiz| ==> |quiz[k].options| == 4 && 0 <= quiz[k].correctAnswer < 4
  }
}
