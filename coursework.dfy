// The timed multiple-choice tests of a course (the chapter quiz and the course exam) and
// the paging of a chapter's learning content.

// What the quiz and the exam compute alike: the count of correct answers, the rounded
// percentage, the pass test and the clock display.
module TestScoring {
  import opened Text

  /** A question as the scoring sees it: only the index of its correct option matters. */
  datatype Question = Question(id: string, options: seq<string>, correctOption: int)

  /** The selection that stands for "no option chosen". */
  const Unanswered: int := -1

  /** The number of positions where the selected option is the correct one. */
  function CountCorrect(selected: seq<int>, questions: seq<Question>): (c: nat)
    requires |selected| == |questions|
    ensures c <= |questions|
  {
    if selected == [] then 0
    else CountCorrect(selected[..|selected| - 1], questions[..|questions| - 1])
         + (if selected[|selected| - 1] == questions[|questions| - 1].correctOption then 1 else 0)
  }

  /** When no option is chosen anywhere nothing counts, as long as correct options are real indices. */
  lemma {:induction false} UnansweredNeverCounts(selected: seq<int>, questions: seq<Question>)
    requires |selected| == |questions|
    requires forall i :: 0 <= i < |selected| ==> selected[i] == Unanswered
    requires forall i :: 0 <= i < |questions| ==> questions[i].correctOption >= 0
    ensures CountCorrect(selected, questions) == 0
  {
    if selected != [] {
      UnansweredNeverCounts(selected[..|selected| - 1], questions[..|questions| - 1]);
    }
  }

  /** Choosing every correct option counts every question. */
  lemma {:induction false} AllCorrectCountsAll(questions: seq<Question>)
    ensures CountCorrect(seq(|questions|, i requires 0 <= i < |questions| => questions[i].correctOption), questions) == |questions|
  {
    if questions != [] {
      var s := seq(|questions|, i requires 0 <= i < |questions| => questions[i].correctOption);
      var n := |questions| - 1;
      assert s[..n] == seq(n, i requires 0 <= i < n => questions[..n][i].correctOption);
      AllCorrectCountsAll(questions[..n]);
    }
  }

  /**
   * `Math.round(correct / n * 100)` taken over the rationals: the nearest integer to 100c/n,
   * halves rounded up, which is `(200c + n) div 2n`.
   */
  function Score(correct: nat, n: nat): (r: int)
    requires n >= 1
    ensures 2 * n * r - n <= 200 * correct < 2 * n * r + n
    ensures correct <= n ==> 0 <= r <= 100
  {
    var r := (200 * correct + n) / (2 * n);
    DivBounds(200 * correct + n, 2 * n);
    assert correct <= n ==> 0 <= r <= 100 by {
      if correct <= n {
        MulLess(2 * n, r, 101);
      }
    }
    r
  }

  lemma DivBounds(x: int, d: int)
    requires d > 0
    ensures d * (x / d) <= x < d * (x / d) + d
  {
  }

  lemma MulLess(d: int, a: int, b: int)
    requires d > 0 && d * a < d * b
    ensures a < b
  {
  }

  /** The completion screen's verdict. */
  predicate Passed(score: int, passingScore: int)
  {
    score >= passingScore
  }

  /**
   * Passing with the rounded score is reaching the passing share less half a percent:
   * the score is at least `passingScore` exactly when 100c/n >= passingScore - 1/2.
   */
  lemma PassedIffShare(correct: nat, n: nat, passingScore: int)
    requires n >= 1
    ensures Passed(Score(correct, n), passingScore) <==> 200 * correct >= (2 * passingScore - 1) * n
  {
    var r := Score(correct, n);
    if r >= passingScore {
      MulMono(2 * n, passingScore, r);
    } else {
      MulMono(2 * n, r + 1, passingScore);
    }
  }

  lemma MulMono(d: nat, a: int, b: int)
    requires a <= b
    ensures d * a <= d * b
  {
    assert d * b - d * a == d * (b - a);
  }

  /** The "Correct Answers" figure, `Math.round(score / 100 * n)`, over the rationals. */
  function ShownCorrect(score: int, n: nat): int
  {
    (2 * score * n + 100) / 200
  }

  /** With at most a hundred questions, the figure shown recovers the true number of correct answers. */
  lemma ShownCorrectIsExact(correct: nat, n: nat)
    requires 1 <= n <= 100 && correct <= n
    ensures ShownCorrect(Score(correct, n), n) == correct
  {
    var r := Score(correct, n);
    if n == 100 {
      assert r == correct;
    } else {
      assert 2 * r * n < 200 * correct + 100;
    }
    assert 200 * correct - 100 < 2 * r * n + 1;
    assert 200 * correct <= 2 * r * n + 100 < 200 * correct + 200;
  }

  /** `${mins}:${secs < 10 ? '0' : ''}${secs}`. */
  function FormatTime(seconds: nat): string
  {
    var mins := seconds / 60;
    var secs := seconds % 60;
    NatToString(mins) + ":" + (if secs < 10 then "0" else "") + NatToString(secs)
  }

  /** The clock always shows whole minutes, a colon, and the seconds as exactly two digits. */
  lemma FormatTimeDigits(seconds: nat)
    ensures FormatTime(seconds)
            == NatToString(seconds / 60) + ":" + [DigitChar(seconds % 60 / 10), DigitChar(seconds % 60 % 10)]
  {
    var secs := seconds % 60;
    if secs >= 10 {
      assert NatToString(secs) == NatToString(secs / 10) + [DigitChar(secs % 10)];
    }
  }

  /** A test's fixed data. */
  datatype Test = Test(id: string, courseId: string, courseName: string, timeLimit: nat, passingScore: int, questions: seq<Question>)
}

// The chapter quiz: answer one question at a time against a countdown, then see the score.
module ChapterQuiz {
  import opened TestScoring
  import opened Text

  /** The quiz defined for one chapter; the others are copies of it under other names. */
  datatype Quiz = Quiz(chapterId: string, chapterTitle: string, test: Test)

  /** The copy made for another chapter: only the names change. */
  function DerivedQuiz(base: Quiz, chapterId: string): (q: Quiz)
    ensures q.test.questions == base.test.questions && q.test.timeLimit == base.test.timeLimit
    ensures q.test.passingScore == base.test.passingScore
    ensures q.chapterId == chapterId && q.test.courseId == Split(chapterId, '-')[0]
  {
    var course := Split(chapterId, '-')[0];
    Quiz(chapterId, "Chapter Title for " + chapterId,
         base.test.(id := "quiz-" + chapterId, courseId := course, courseName := "Course Name for " + course))
  }

  class QuizSession {
    const test: Test
    var currentQuestionIndex: nat
    var selectedOptions: seq<int>
    var isSubmitted: bool
    var isQuizCompleted: bool
    var score: int
    var timeLeft: int
    var showExplanation: bool

    ghost predicate Valid()
      reads this
    {
      |test.questions| >= 1 && |selectedOptions| == |test.questions| && currentQuestionIndex < |test.questions|
    }

    /** The state once the quiz is loaded: full time, nothing chosen, first question. */
    constructor (t: Test)
      requires |t.questions| >= 1
      ensures Valid() && test == t && currentQuestionIndex == 0
      ensures selectedOptions == seq(|t.questions|, _ => Unanswered)
      ensures timeLeft == t.timeLimit * 60 && !isSubmitted && !isQuizCompleted && score == 0 && !showExplanation
    {
      test := t;
      currentQuestionIndex := 0;
      selectedOptions := seq(|t.questions|, _ => Unanswered);
      isSubmitted, isQuizCompleted, showExplanation := false, false, false;
      score := 0;
      timeLeft := t.timeLimit * 60;
    }

    /** handleOptionSelect: only the current question's choice changes, and not once submitted or completed. */
    method SelectOption(optionIndex: int)
      requires Valid()
      modifies this`selectedOptions
      ensures Valid()
      ensures isSubmitted || isQuizCompleted ==> selectedOptions == old(selectedOptions)
      ensures !isSubmitted && !isQuizCompleted ==>
                selectedOptions == old(selectedOptions)[currentQuestionIndex := optionIndex]
    {
      if isSubmitted || isQuizCompleted {
        return;
      }
      selectedOptions := selectedOptions[currentQuestionIndex := optionIndex];
    }

    method SubmitAnswer()
      modifies this`isSubmitted, this`showExplanation
      ensures isSubmitted && showExplanation
    {
      isSubmitted := true;
      showExplanation := true;
    }

    /** handleQuizCompletion: count the correct choices and record the rounded percentage. */
    method Complete()
      requires Valid()
      modifies this`score, this`isQuizCompleted
      ensures Valid() && isQuizCompleted
      ensures score == Score(CountCorrect(selectedOptions, test.questions), |test.questions|)
    {
      var correctAnswers := CountCorrectAnswers(selectedOptions, test.questions);
      score := Score(correctAnswers, |test.questions|);
      isQuizCompleted := true;
    }

    /** handleNextQuestion: hide the explanation, then advance below the last question or complete. */
    method NextQuestion()
      requires Valid()
      modifies this`showExplanation, this`isSubmitted, this`currentQuestionIndex, this`score, this`isQuizCompleted
      ensures Valid() && !showExplanation && !isSubmitted
      ensures old(currentQuestionIndex) < |test.questions| - 1 ==>
                currentQuestionIndex == old(currentQuestionIndex) + 1
                && isQuizCompleted == old(isQuizCompleted) && score == old(score)
      ensures old(currentQuestionIndex) == |test.questions| - 1 ==>
                currentQuestionIndex == old(currentQuestionIndex) && isQuizCompleted
                && score == Score(CountCorrect(selectedOptions, test.questions), |test.questions|)
    {
      showExplanation := false;
      isSubmitted := false;
      if currentQuestionIndex < |test.questions| - 1 {
        currentQuestionIndex := currentQuestionIndex + 1;
      } else {
        Complete();
      }
    }

    /** One second of the countdown, which runs only while the quiz is open and time remains. */
    method Tick()
      requires Valid()
      modifies this`timeLeft, this`score, this`isQuizCompleted
      ensures Valid()
      ensures old(isQuizCompleted) || old(timeLeft) <= 0 ==>
                timeLeft == old(timeLeft) && isQuizCompleted == old(isQuizCompleted) && score == old(score)
      ensures !old(isQuizCompleted) && old(timeLeft) == 1 ==>
                timeLeft == 0 && isQuizCompleted
                && score == Score(CountCorrect(selectedOptions, test.questions), |test.questions|)
      ensures !old(isQuizCompleted) && old(timeLeft) > 1 ==>
                timeLeft == old(timeLeft) - 1 && !isQuizCompleted && score == old(score)
    {
      if isQuizCompleted || timeLeft <= 0 {
        return;
      }
      if timeLeft <= 1 {
        Complete();
        timeLeft := 0;
      } else {
        timeLeft := timeLeft - 1;
      }
    }
  }

  /** The `forEach` of handleQuizCompletion: one pass over the choices, bumping the counter. */
  method CountCorrectAnswers(selected: seq<int>, questions: seq<Question>) returns (correctAnswers: nat)
    requires |selected| == |questions|
    ensures correctAnswers == CountCorrect(selected, questions)
  {
    correctAnswers := 0;
    for index := 0 to |selected|
      invariant correctAnswers == CountCorrect(selected[..index], questions[..index])
    {
      assert selected[..index + 1][..index] == selected[..index];
      assert questions[..index + 1][..index] == questions[..index];
      if selected[index] == questions[index].correctOption {
        correctAnswers := correctAnswers + 1;
      }
    }
    assert selected[..|selected|] == selected && questions[..|questions|] == questions;
  }
}

// The course exam: the quiz's state machine, plus the certificate and the retake.
module CourseExam {
  import opened TestScoring

  /** The copy of the base exam made for another course: only the id and the names change. */
  function DerivedExam(base: Test, courseId: string): (e: Test)
    ensures e.questions == base.questions && e.timeLimit == base.timeLimit && e.passingScore == base.passingScore
    ensures e.courseId == courseId && e.id == "exam-" + courseId
  {
    base.(id := "exam-" + courseId, courseId := courseId, courseName := "Course Name for " + courseId)
  }

  /** The certificate block shows on a pass. */
  predicate ShowsCertificate(score: int, passingScore: int) { Passed(score, passingScore) }

  /** The retake button shows below the passing score. */
  predicate OffersRetake(score: int, passingScore: int) { score < passingScore }

  /** Exactly one of the certificate and the retake offer appears on the completion screen. */
  lemma CertificateOrRetake(score: int, passingScore: int)
    ensures ShowsCertificate(score, passingScore) != OffersRetake(score, passingScore)
  {
  }

  class ExamSession {
    const test: Test
    var currentQuestionIndex: nat
    var selectedOptions: seq<int>
    var isSubmitted: bool
    var isExamCompleted: bool
    var score: int
    var timeLeft: int
    var showExplanation: bool

    ghost predicate Valid()
      reads this
    {
      |test.questions| >= 1 && |selectedOptions| == |test.questions| && currentQuestionIndex < |test.questions|
    }

    constructor (t: Test)
      requires |t.questions| >= 1
      ensures Valid() && test == t && currentQuestionIndex == 0
      ensures selectedOptions == seq(|t.questions|, _ => Unanswered)
      ensures timeLeft == t.timeLimit * 60 && !isSubmitted && !isExamCompleted && score == 0 && !showExplanation
    {
      test := t;
      currentQuestionIndex := 0;
      selectedOptions := seq(|t.questions|, _ => Unanswered);
      isSubmitted, isExamCompleted, showExplanation := false, false, false;
      score := 0;
      timeLeft := t.timeLimit * 60;
    }

    method SelectOption(optionIndex: int)
      requires Valid()
      modifies this`selectedOptions
      ensures Valid()
      ensures isSubmitted || isExamCompleted ==> selectedOptions == old(selectedOptions)
      ensures !isSubmitted && !isExamCompleted ==>
                selectedOptions == old(selectedOptions)[currentQuestionIndex := optionIndex]
    {
      if isSubmitted || isExamCompleted {
        return;
      }
      selectedOptions := selectedOptions[currentQuestionIndex := optionIndex];
    }

    method SubmitAnswer()
      modifies this`isSubmitted, this`showExplanation
      ensures isSubmitted && showExplanation
    {
      isSubmitted := true;
      showExplanation := true;
    }

    /** handleExamCompletion. */
    method Complete()
      requires Valid()
      modifies this`score, this`isExamCompleted
      ensures Valid() && isExamCompleted
      ensures score == Score(CountCorrect(selectedOptions, test.questions), |test.questions|)
    {
      var correctAnswers := 0;
      for index := 0 to |selectedOptions|
        invariant correctAnswers == CountCorrect(selectedOptions[..index], test.questions[..index])
      {
        assert selectedOptions[..index + 1][..index] == selectedOptions[..index];
        assert test.questions[..index + 1][..index] == test.questions[..index];
        if selectedOptions[index] == test.questions[index].correctOption {
          correctAnswers := correctAnswers + 1;
        }
      }
      assert selectedOptions[..|selectedOptions|] == selectedOptions;
      assert test.questions[..|test.questions|] == test.questions;
      score := Score(correctAnswers, |test.questions|);
      isExamCompleted := true;
    }

    method NextQuestion()
      requires Valid()
      modifies this`showExplanation, this`isSubmitted, this`currentQuestionIndex, this`score, this`isExamCompleted
      ensures Valid() && !showExplanation && !isSubmitted
      ensures old(currentQuestionIndex) < |test.questions| - 1 ==>
                currentQuestionIndex == old(currentQuestionIndex) + 1
                && isExamCompleted == old(isExamCompleted) && score == old(score)
      ensures old(currentQuestionIndex) == |test.questions| - 1 ==>
                currentQuestionIndex == old(currentQuestionIndex) && isExamCompleted
                && score == Score(CountCorrect(selectedOptions, test.questions), |test.questions|)
    {
      showExplanation := false;
      isSubmitted := false;
      if currentQuestionIndex < |test.questions| - 1 {
        currentQuestionIndex := currentQuestionIndex + 1;
      } else {
        Complete();
      }
    }

    method Tick()
      requires Valid()
      modifies this`timeLeft, this`score, this`isExamCompleted
      ensures Valid()
      ensures old(isExamCompleted) || old(timeLeft) <= 0 ==>
                timeLeft == old(timeLeft) && isExamCompleted == old(isExamCompleted) && score == old(score)
      ensures !old(isExamCompleted) && old(timeLeft) == 1 ==>
                timeLeft == 0 && isExamCompleted
                && score == Score(CountCorrect(selectedOptions, test.questions), |test.questions|)
      ensures !old(isExamCompleted) && old(timeLeft) > 1 ==>
                timeLeft == old(timeLeft) - 1 && !isExamCompleted && score == old(score)
    {
      if isExamCompleted || timeLeft <= 0 {
        return;
      }
      if timeLeft <= 1 {
        Complete();
        timeLeft := 0;
      } else {
        timeLeft := timeLeft - 1;
      }
    }

    /**
     * The retake button: back to the first question with nothing chosen and the full time.
     * The submitted flag, the explanation and the old score are left as they were.
     */
    method Retake()
      requires Valid()
      modifies this`isExamCompleted, this`currentQuestionIndex, this`selectedOptions, this`timeLeft
      ensures Valid() && !isExamCompleted && currentQuestionIndex == 0
      ensures selectedOptions == seq(|test.questions|, _ => Unanswered)
      ensures timeLeft == test.timeLimit * 60
    {
      isExamCompleted := false;
      currentQuestionIndex := 0;
      selectedOptions := seq(|test.questions|, _ => Unanswered);
      timeLeft := test.timeLimit * 60;
    }
  }
}

// Paging through a chapter's five pages of content.
module ChapterLearning {
  const TotalPages: nat := 5

  /** The quiz link replaces the Next button exactly on the last page. */
  predicate ShowsQuizLink(page: nat) { page == TotalPages }

  class ChapterPager {
    var currentPage: nat

    ghost predicate Valid()
      reads this
    {
      1 <= currentPage <= TotalPages
    }

    constructor ()
      ensures Valid() && currentPage == 1
    {
      currentPage := 1;
    }

    method NextPage()
      requires Valid()
      modifies this
      ensures Valid()
      ensures currentPage == if old(currentPage) < TotalPages then old(currentPage) + 1 else old(currentPage)
    {
      if currentPage < TotalPages {
        currentPage := currentPage + 1;
      }
    }

    method PrevPage()
      requires Valid()
      modifies this
      ensures Valid()
      ensures currentPage == if old(currentPage) > 1 then old(currentPage) - 1 else old(currentPage)
    {
      if currentPage > 1 {
        currentPage := currentPage - 1;
      }
    }

    /** The chapter navigation list: button `index` goes to page index + 1. */
    method SelectPage(index: nat)
      requires index < TotalPages
      modifies this
      ensures Valid() && currentPage == index + 1
    {
      currentPage := index + 1;
    }
  }
}
