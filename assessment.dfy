// The multiple-choice learning assessment: five questions answered one at a time, with
// navigation, answer toggling, a local style analysis and the logged-in submit guard.
module LearningAssessment {
  import opened Wrappers
  import opened AssessmentAnswers
  import StyleTransformer

  datatype Kind = Single | Multiple | RatingScale

  datatype Question = Question(id: int, kind: Kind, options: seq<string>)

  const Questions: seq<Question> := [
    Question(1, Single, ["Reading text", "Watching videos", "Interactive exercises", "Listening to audio"]),
    Question(2, Multiple, ["Programming", "Design", "Business", "Data Science", "Mathematics"]),
    Question(3, Single, ["Not important", "Somewhat important", "Very important", "Essential"]),
    Question(4, RatingScale, ["1", "2", "3", "4", "5"]),
    Question(5, Single, ["Strict deadlines", "Soft deadlines", "Completely flexible schedule"])
  ]

  /** `items.filter(item => item !== option)`. */
  function RemoveAll(items: seq<string>, option: string): (r: seq<string>)
    ensures option !in r
    ensures |r| <= |items|
    ensures forall x :: x in r <==> x in items && x != option
  {
    if items == [] then []
    else if items[0] == option then RemoveAll(items[1..], option)
    else [items[0]] + RemoveAll(items[1..], option)
  }

  lemma {:induction false} RemoveAllAbsent(items: seq<string>, option: string)
    requires option !in items
    ensures RemoveAll(items, option) == items
  {
    if items != [] {
      RemoveAllAbsent(items[1..], option);
    }
  }

  lemma {:induction false} RemoveAllAppend(items: seq<string>, extra: seq<string>, option: string)
    ensures RemoveAll(items + extra, option) == RemoveAll(items, option) + RemoveAll(extra, option)
  {
    if items != [] {
      assert (items + extra)[1..] == items[1..] + extra;
      RemoveAllAppend(items[1..], extra, option);
    } else {
      assert items + extra == extra;
    }
  }

  /** handleMultipleAnswer's list update: remove every copy of a chosen option, else append it. */
  function Toggle(items: seq<string>, option: string): (r: seq<string>)
    ensures option in items ==> option !in r && forall x :: x in r <==> x in items && x != option
    ensures option !in items ==> r == items + [option]
  {
    if option in items then RemoveAll(items, option) else items + [option]
  }

  /** Toggling an option that was not chosen and toggling it again restores the list. */
  lemma ToggleTwice(items: seq<string>, option: string)
    requires option !in items
    ensures Toggle(Toggle(items, option), option) == items
  {
    RemoveAllAppend(items, [option], option);
    RemoveAllAbsent(items, option);
  }

  /** The list stored for a multiple-choice question, `answers[id] || []`. */
  function ChoicesAt(answers: Answers, id: int): seq<string>
  {
    if id in answers && answers[id].Choices? then answers[id].items else []
  }

  datatype Preferences = Preferences(subjects: Answer, structuredLearning: Answer, focusAbility: Answer, schedulePreference: Answer)

  datatype Analysis = Analysis(primaryStyle: string, preferences: Preferences)

  /** analyzeLearningStyle: an if-chain on the content preference and four defaulted preferences. */
  function AnalyzeLearningStyle(answers: Answers): (r: Analysis)
    ensures r.preferences.subjects == OrDefault(answers, 2, Choices([]))
    ensures r.preferences.structuredLearning == OrDefault(answers, 3, Text("Somewhat important"))
    ensures r.preferences.focusAbility == OrDefault(answers, 4, Rating(3))
    ensures r.preferences.schedulePreference == OrDefault(answers, 5, Text("Flexible schedule"))
  {
    var content := TextAt(answers, 1);
    var primaryStyle :=
      if content == "Reading text" then "Reading/Writing Learner"
      else if content == "Watching videos" then "Visual Learner"
      else if content == "Interactive exercises" then "Kinesthetic Learner"
      else if content == "Listening to audio" then "Auditory Learner"
      else "Visual Learner";
    var preferences := Preferences(OrDefault(answers, 2, Choices([])), OrDefault(answers, 3, Text("Somewhat important")),
                                   OrDefault(answers, 4, Rating(3)), OrDefault(answers, 5, Text("Flexible schedule")));
    Analysis(primaryStyle, preferences)
  }

  /** The form's if-chain and the transformer's switch agree on the primary style. */
  lemma AnalysisMatchesTransformer(answers: Answers)
    requires WellTyped(answers)
    ensures AnalyzeLearningStyle(answers).primaryStyle == StyleTransformer.PrimaryStyle(answers)
  {
  }

  /**
   * isAnswered: a truthy answer is stored for the question, and for a multiple choice its
   * `length` is positive (a list's or a string's length; a number has none).
   */
  predicate Answered(answers: Answers, q: Question)
  {
    q.id in answers && Truthy(answers[q.id])
    && (q.kind == Multiple ==>
          match answers[q.id]
          case Choices(items) => |items| > 0
          case Text(t) => t != ""
          case Rating(_) => false)
  }

  /** The body of the PUT request that saves the result for a user. */
  datatype SaveRequest = SaveRequest(userId: string, learningStyle: string, preferences: Preferences)

  const NotLoggedIn := "You must be logged in to save your assessment results"

  class AssessmentForm {
    var index: nat
    var answers: Answers
    var isSubmitting: bool
    var error: Option<string>
    /** The save requests sent so far. */
    var sent: seq<SaveRequest>

    ghost predicate Valid()
      reads this
    {
      index < |Questions| && WellTyped(answers)
    }

    constructor ()
      ensures Valid() && index == 0 && answers == map[] && !isSubmitting && error == None && sent == []
    {
      index := 0;
      answers := map[];
      isSubmitting := false;
      error := None;
      sent := [];
    }

    function Current(): Question
      reads this
      requires Valid()
    {
      Questions[index]
    }

    /** isAnswered, which enables the Next button, on the current question. */
    predicate IsAnswered()
      reads this
      requires Valid()
    {
      Answered(answers, Current())
    }

    method SingleAnswer(option: string)
      requires Valid() && Current().kind == Single
      modifies this`answers
      ensures Valid()
      ensures answers == old(answers)[Current().id := Text(option)]
      ensures option != "" ==> IsAnswered()
    {
      answers := answers[Current().id := Text(option)];
    }

    method MultipleAnswer(option: string)
      requires Valid() && Current().kind == Multiple
      modifies this`answers
      ensures Valid()
      ensures answers == old(answers)[Current().id := Choices(Toggle(ChoicesAt(old(answers), Current().id), option))]
      ensures option !in ChoicesAt(old(answers), Current().id) ==> IsAnswered()
    {
      var id := Current().id;
      var currentAnswer := ChoicesAt(answers, id);
      if option in currentAnswer {
        answers := answers[id := Choices(RemoveAll(currentAnswer, option))];
      } else {
        answers := answers[id := Choices(currentAnswer + [option])];
      }
    }

    method RateCurrent(rating: int)
      requires Valid() && Current().kind == RatingScale
      modifies this`answers
      ensures Valid()
      ensures answers == old(answers)[Current().id := Rating(rating)]
    {
      answers := answers[Current().id := Rating(rating)];
    }

    method Previous()
      requires Valid()
      modifies this`index
      ensures Valid()
      ensures index == if old(index) > 0 then old(index) - 1 else old(index)
    {
      if index > 0 {
        index := index - 1;
      }
    }

    /** handleSubmit up to the request: refuse without a user, else mark submitting and send the analysis. */
    method Submit(user: Option<string>)
      requires Valid()
      modifies this`isSubmitting, this`error, this`sent
      ensures Valid()
      ensures user.None? ==> error == Some(NotLoggedIn) && sent == old(sent) && isSubmitting == old(isSubmitting)
      ensures user.Some? ==>
                isSubmitting && error == None
                && sent == old(sent) + [SaveRequest(user.value, AnalyzeLearningStyle(answers).primaryStyle,
                                                    AnalyzeLearningStyle(answers).preferences)]
    {
      if user.None? {
        error := Some(NotLoggedIn);
        return;
      }
      isSubmitting := true;
      error := None;
      var analysis := AnalyzeLearningStyle(answers);
      sent := sent + [SaveRequest(user.value, analysis.primaryStyle, analysis.preferences)];
    }

    /** The catch branch of handleSubmit: a failed save shows its message and re-enables the form. */
    method SaveFailed(message: string)
      requires Valid()
      modifies this`isSubmitting, this`error
      ensures Valid() && error == Some(message) && !isSubmitting
    {
      error := Some(message);
      isSubmitting := false;
    }

    /** handleNext: move on below the last question, submit on the last one. */
    method Next(user: Option<string>)
      requires Valid()
      modifies this
      ensures Valid() && answers == old(answers)
      ensures old(index) < |Questions| - 1 ==>
                index == old(index) + 1 && sent == old(sent) && error == old(error) && isSubmitting == old(isSubmitting)
      ensures old(index) == |Questions| - 1 ==> index == old(index)
      ensures old(index) == |Questions| - 1 && user.None? ==>
                error == Some(NotLoggedIn) && sent == old(sent) && isSubmitting == old(isSubmitting)
      ensures old(index) == |Questions| - 1 && user.Some? ==>
                isSubmitting && error == None
                && sent == old(sent) + [SaveRequest(user.value, AnalyzeLearningStyle(answers).primaryStyle,
                                                    AnalyzeLearningStyle(answers).preferences)]
    {
      if index < |Questions| - 1 {
        index := index + 1;
      } else {
        Submit(user);
      }
    }
  }

  /** Answering a single-choice question with a non-empty option marks it answered and leaves other questions alone. */
  lemma SingleAnswerAnswers(before: Answers, q: Question, option: string)
    requires q.kind == Single && option != ""
    ensures Answered(before[q.id := Text(option)], q)
    ensures var after := before[q.id := Text(option)];
            forall k :: k != q.id ==> (k in after <==> k in before) && (k in before ==> after[k] == before[k])
  {
  }

  /** Choosing a new option of a multiple-choice question leaves it answered, with the option chosen. */
  lemma ToggleNewOptionAnswers(before: Answers, q: Question, option: string)
    requires q.kind == Multiple && option !in ChoicesAt(before, q.id)
    ensures var items := Toggle(ChoicesAt(before, q.id), option);
            Answered(before[q.id := Choices(items)], q) && option in items
  {
  }

  /** Deselecting the only chosen option of a multiple-choice question leaves it unanswered. */
  lemma ToggleLastOptionUnanswers(before: Answers, q: Question, option: string)
    requires q.kind == Multiple && ChoicesAt(before, q.id) == [option]
    ensures !Answered(before[q.id := Choices(Toggle(ChoicesAt(before, q.id), option))], q)
  {
    assert option in [option];
  }
}
