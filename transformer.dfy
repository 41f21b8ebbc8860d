// The deterministic rules that turn raw assessment answers into a primary (VARK) style and
// four Felder-Silverman dimensions, with the preference getters and their defaults.
module StyleTransformer {
  import opened AssessmentAnswers

  const ReadingText := "Reading text"
  const WatchingVideos := "Watching videos"
  const InteractiveExercises := "Interactive exercises"
  const ListeningToAudio := "Listening to audio"

  const NotImportant := "Not important"
  const SomewhatImportant := "Somewhat important"
  const VeryImportant := "Very important"
  const Essential := "Essential"

  /** The content preference (question 1); '' stands for a missing answer, which no rule matches. */
  function Content(answers: Answers): string { TextAt(answers, 1) }

  /** The raw structured-learning answer (question 3), without the getter's default. */
  function Structured(answers: Answers): string { TextAt(answers, 3) }

  predicate RelaxedAboutStructure(s: string) { s == NotImportant || s == SomewhatImportant }
  predicate ValuesStructure(s: string) { s == VeryImportant || s == Essential }

  /** getSubjectsOfInterest: the chosen subjects, or none. */
  function Subjects(answers: Answers): (r: seq<string>)
    requires WellTyped(answers)
    ensures 2 in answers ==> r == answers[2].items
    ensures 2 !in answers ==> r == []
  {
    if 2 in answers then answers[2].items else []
  }

  /** getStructuredLearningPreference: the answer, or 'Somewhat important' when it is missing or ''. */
  function StructuredLearning(answers: Answers): (r: string)
    requires WellTyped(answers)
    ensures Structured(answers) != "" ==> r == Structured(answers)
    ensures Structured(answers) == "" ==> r == SomewhatImportant
  {
    OrDefault(answers, 3, Text(SomewhatImportant)).text
  }

  /** getFocusAbility: the rating, or 3 when it is missing or 0. */
  function FocusAbility(answers: Answers): (r: int)
    requires WellTyped(answers)
    ensures 4 in answers && answers[4].value != 0 ==> r == answers[4].value
    ensures !(4 in answers && answers[4].value != 0) ==> r == 3
  {
    OrDefault(answers, 4, Rating(3)).value
  }

  /** getSchedulePreference: the answer, or 'Flexible schedule'. */
  function SchedulePreference(answers: Answers): (r: string)
    requires WellTyped(answers)
    ensures TextAt(answers, 5) != "" ==> r == TextAt(answers, 5)
    ensures TextAt(answers, 5) == "" ==> r == "Flexible schedule"
  {
    OrDefault(answers, 5, Text("Flexible schedule")).text
  }

  /** determinePrimaryStyle: the four content preferences map to four VARK styles, anything else to visual. */
  function PrimaryStyle(answers: Answers): (r: string)
    requires WellTyped(answers)
    ensures r == "Reading/Writing Learner" <==> Content(answers) == ReadingText
    ensures r == "Kinesthetic Learner" <==> Content(answers) == InteractiveExercises
    ensures r == "Auditory Learner" <==> Content(answers) == ListeningToAudio
    ensures r == "Visual Learner" <==>
              Content(answers) !in {ReadingText, InteractiveExercises, ListeningToAudio}
  {
    var content := Content(answers);
    if content == "" then "Visual Learner"
    else if content == ReadingText then "Reading/Writing Learner"
    else if content == WatchingVideos then "Visual Learner"
    else if content == InteractiveExercises then "Kinesthetic Learner"
    else if content == ListeningToAudio then "Auditory Learner"
    else "Visual Learner"
  }

  /** determineProcessingStyle: two explicit rules, then the focus rating decides. */
  function ProcessingStyle(answers: Answers): (r: string)
    requires WellTyped(answers)
    ensures r == "Active" || r == "Reflective"
    ensures Content(answers) == InteractiveExercises && RelaxedAboutStructure(Structured(answers)) ==> r == "Active"
    ensures ((Content(answers) == ReadingText || Content(answers) == ListeningToAudio)
             && ValuesStructure(Structured(answers))) ==> r == "Reflective"
    ensures (!(Content(answers) == InteractiveExercises && RelaxedAboutStructure(Structured(answers)))
             && !((Content(answers) == ReadingText || Content(answers) == ListeningToAudio)
                  && ValuesStructure(Structured(answers))))
            ==> (r == "Reflective" <==> FocusAbility(answers) >= 4)
  {
    var content := Content(answers);
    var structured := Structured(answers);
    if content == InteractiveExercises && (structured == NotImportant || structured == SomewhatImportant) then "Active"
    else if (content == ReadingText || content == ListeningToAudio) && (structured == VeryImportant || structured == Essential) then "Reflective"
    else if OrDefault(answers, 4, Rating(3)).value >= 4 then "Reflective"
    else "Active"
  }

  /** determinePerceptionStyle: concrete subjects give Sensing, and they win over abstract ones. */
  function PerceptionStyle(answers: Answers): (r: string)
    requires WellTyped(answers)
    ensures r == "Sensing" || r == "Intuitive"
    ensures r == "Sensing" <==> ("Programming" in Subjects(answers) || "Business" in Subjects(answers))
  {
    var subjects := if 2 in answers then answers[2].items else [];
    if "Programming" in subjects || "Business" in subjects then "Sensing"
    else if "Design" in subjects || "Mathematics" in subjects then "Intuitive"
    else "Intuitive"
  }

  /** determineInputStyle: reading or listening gives Verbal, everything else Visual. */
  function InputStyle(answers: Answers): (r: string)
    requires WellTyped(answers)
    ensures r == "Visual" || r == "Verbal"
    ensures r == "Verbal" <==> (Content(answers) == ReadingText || Content(answers) == ListeningToAudio)
  {
    var content := Content(answers);
    if content == WatchingVideos then "Visual"
    else if content == ReadingText || content == ListeningToAudio then "Verbal"
    else "Visual"
  }

  /** determineUnderstandingStyle: little concern for structure gives Global, everything else Sequential. */
  function UnderstandingStyle(answers: Answers): (r: string)
    requires WellTyped(answers)
    ensures r == "Sequential" || r == "Global"
    ensures r == "Global" <==> RelaxedAboutStructure(Structured(answers))
  {
    var structured := Structured(answers);
    if structured == VeryImportant || structured == Essential then "Sequential"
    else if structured == NotImportant || structured == SomewhatImportant then "Global"
    else "Sequential"
  }

  datatype Preferences = Preferences(subjects: seq<string>, structuredLearning: string, focusAbility: int, schedulePreference: string)

  datatype LearningStyleResult = LearningStyleResult(
    primaryStyle: string,
    processingStyle: string,
    perceptionStyle: string,
    inputStyle: string,
    understandingStyle: string,
    preferences: Preferences)

  /** transformLearningStyle: one field per rule; the defaults object it builds first is never returned. */
  function TransformLearningStyle(answers: Answers): (r: LearningStyleResult)
    requires WellTyped(answers)
    ensures r.primaryStyle == PrimaryStyle(answers)
    ensures r.processingStyle in {"Active", "Reflective"} && r.perceptionStyle in {"Sensing", "Intuitive"}
    ensures r.inputStyle in {"Visual", "Verbal"} && r.understandingStyle in {"Sequential", "Global"}
    ensures r.processingStyle == ProcessingStyle(answers) && r.perceptionStyle == PerceptionStyle(answers)
    ensures r.inputStyle == InputStyle(answers) && r.understandingStyle == UnderstandingStyle(answers)
    ensures r.preferences == Preferences(Subjects(answers), StructuredLearning(answers), FocusAbility(answers), SchedulePreference(answers))
  {
    var preferences := Preferences(Subjects(answers), StructuredLearning(answers), FocusAbility(answers), SchedulePreference(answers));
    LearningStyleResult(PrimaryStyle(answers), ProcessingStyle(answers), PerceptionStyle(answers),
                        InputStyle(answers), UnderstandingStyle(answers), preferences)
  }

  /** With no answers at all the result is the visual/active/intuitive/visual/sequential profile with every default preference. */
  lemma NoAnswers()
    ensures TransformLearningStyle(map[]) ==
            LearningStyleResult("Visual Learner", "Active", "Intuitive", "Visual", "Sequential",
                                Preferences([], SomewhatImportant, 3, "Flexible schedule"))
  {
  }

  /**
   * A skipped structure question is reported as 'Somewhat important' in the preferences, yet the
   * understanding rule reads the raw answer and yields Sequential, where 'Somewhat important'
   * itself would yield Global.
   */
  lemma SkippedStructureQuestion(answers: Answers)
    requires WellTyped(answers) && 3 !in answers
    ensures StructuredLearning(answers) == SomewhatImportant
    ensures UnderstandingStyle(answers) == "Sequential"
    ensures UnderstandingStyle(answers[3 := Text(SomewhatImportant)]) == "Global"
  {
  }
}
