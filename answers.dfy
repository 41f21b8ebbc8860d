// The answer record the multiple-choice assessment builds: question id to a string,
// a list of strings or a number, with JavaScript truthiness where the code tests it.
module AssessmentAnswers {

  datatype Answer = Text(text: string) | Choices(items: seq<string>) | Rating(value: int)

  type Answers = map<int, Answer>

  /** JavaScript truthiness of a stored value: '' and 0 are falsy, every array is truthy. */
  predicate Truthy(a: Answer)
  {
    match a
    case Text(t) => t != ""
    case Choices(_) => true
    case Rating(n) => n != 0
  }

  /** `answers[id] || d`. */
  function OrDefault(answers: Answers, id: int, d: Answer): (r: Answer)
    ensures id in answers && Truthy(answers[id]) ==> r == answers[id]
    ensures !(id in answers && Truthy(answers[id])) ==> r == d
  {
    if id in answers && Truthy(answers[id]) then answers[id] else d
  }

  /**
   * The kinds the assessment's questions produce: 1, 3 and 5 are single choices (strings),
   * 2 is a multiple choice (a list) and 4 a rating (a number).
   */
  predicate WellTyped(answers: Answers)
  {
    (1 in answers ==> answers[1].Text?) && (2 in answers ==> answers[2].Choices?)
    && (3 in answers ==> answers[3].Text?) && (4 in answers ==> answers[4].Rating?)
    && (5 in answers ==> answers[5].Text?)
  }

  /** The string stored for a single-choice question, if any. */
  function TextAt(answers: Answers, id: int): (r: string)
    ensures id in answers && answers[id].Text? ==> r == answers[id].text
    ensures !(id in answers && answers[id].Text?) ==> r == ""
  {
    if id in answers && answers[id].Text? then answers[id].text else ""
  }
}
