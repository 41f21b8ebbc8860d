// src/components/learning/CourseChatWindow.tsx: the course chat panel's own state (the
// simulated bot reply, scrolling and the dropdown open flags are not modelled).
module CourseChat {
  import opened Text
  import opened Wrappers

  datatype ChatMessage = ChatMessage(id: string, content: string, isUser: bool, accentColor: string)
  datatype Module = Module(id: string, title: string)
  datatype Course = Course(id: string, title: string, modules: seq<Module>)

  const Accent: string := "var(--primary)"

  /** The built-in course list; the first course and its first module are selected initially. */
  const Catalogue: seq<Course> := [
    Course("react", "React Fundamentals",
      [Module("react-1", "Getting Started"), Module("react-2", "Components & Props"),
       Module("react-3", "State & Lifecycle")]),
    Course("javascript", "JavaScript Essentials",
      [Module("js-1", "Basic Concepts"), Module("js-2", "Functions & Objects"),
       Module("js-3", "Async Programming")]),
    Course("python", "Python for Beginners",
      [Module("py-1", "Python Basics"), Module("py-2", "Data Structures"),
       Module("py-3", "Functions & Modules")])
  ]

  const GeneralWelcome: string := "Hi there! I'm your AI learning assistant. How can I help you today?"
  const ChapterWelcome: string := "Welcome to this chapter! I'm your AI tutor and I'll guide you through the learning material. Feel free to ask me any questions about the topic."
  const ChapterOpening: string := "Let's start by understanding the key concepts in this chapter. What specific aspect would you like to explore first?"

  /** An optional string property as a JavaScript condition sees it. */
  predicate Given(s: Option<string>)
  {
    s.Some? && s.value != ""
  }

  /**
   * The conversation shown when the course or chapter changes: inside a chapter a chapter
   * welcome and an opening question, elsewhere one general greeting; all from the bot.
   */
  function WelcomeMessages(courseId: Option<string>, chapterId: Option<string>): (r: seq<ChatMessage>)
    ensures |r| == (if Given(courseId) && Given(chapterId) then 2 else 1)
    ensures forall m :: m in r ==> !m.isUser && m.accentColor == Accent
    ensures r[0].id == "1" && (|r| == 2 ==> r[1].id == "2")
    ensures r[0].content == (if |r| == 2 then ChapterWelcome else GeneralWelcome)
  {
    if Given(courseId) && Given(chapterId) then
      [ChatMessage("1", ChapterWelcome, false, Accent), ChatMessage("2", ChapterOpening, false, Accent)]
    else
      [ChatMessage("1", GeneralWelcome, false, Accent)]
  }

  class ChatWindow {
    var messages: seq<ChatMessage>
    var inputMessage: string
    var isInitialState: bool
    var selectedCourse: Course
    var selectedModule: Module

    /** The selected module always belongs to the selected course. */
    ghost predicate Valid()
      reads this
    {
      selectedModule in selectedCourse.modules
    }

    constructor ()
      ensures Valid()
      ensures messages == [] && inputMessage == "" && isInitialState
      ensures selectedCourse == Catalogue[0] && selectedModule == Catalogue[0].modules[0]
    {
      messages := [];
      inputMessage := "";
      isInitialState := true;
      selectedCourse := Catalogue[0];
      selectedModule := Catalogue[0].modules[0];
    }

    /** The effect run on mount and whenever the course or chapter id changes. */
    method Initialise(courseId: Option<string>, chapterId: Option<string>)
      modifies this
      ensures messages == WelcomeMessages(courseId, chapterId)
      ensures inputMessage == old(inputMessage) && isInitialState == old(isInitialState)
      ensures selectedCourse == old(selectedCourse) && selectedModule == old(selectedModule)
    {
      messages := WelcomeMessages(courseId, chapterId);
    }

    /**
     * Sending `text` at clock time `now` (milliseconds): blank text is ignored; otherwise the
     * untrimmed text is appended as the user's message, the input box is cleared and the
     * welcome layout is left.
     */
    method HandleSendMessage(text: string, now: nat)
      modifies this
      ensures Trim(text) == "" ==>
                messages == old(messages) && inputMessage == old(inputMessage) && isInitialState == old(isInitialState)
      ensures Trim(text) != "" ==>
                messages == old(messages) + [ChatMessage(NatToString(now), text, true, Accent)]
                && inputMessage == "" && !isInitialState
      ensures selectedCourse == old(selectedCourse) && selectedModule == old(selectedModule)
    {
      if Trim(text) != "" {
        messages := messages + [ChatMessage(NatToString(now), text, true, Accent)];
        inputMessage := "";
        isInitialState := false;
      }
    }

    /** Choosing a course also selects that course's first module. */
    method HandleCourseChange(course: Course)
      requires |course.modules| > 0
      modifies this
      ensures Valid()
      ensures selectedCourse == course && selectedModule == course.modules[0]
      ensures messages == old(messages) && inputMessage == old(inputMessage) && isInitialState == old(isInitialState)
    {
      selectedCourse := course;
      selectedModule := course.modules[0];
    }

    /** The module dropdown offers the selected course's modules; choosing one keeps the course. */
    method HandleModuleChange(m: Module)
      requires Valid() && m in selectedCourse.modules
      modifies this
      ensures Valid()
      ensures selectedModule == m && selectedCourse == old(selectedCourse)
      ensures messages == old(messages) && inputMessage == old(inputMessage) && isInitialState == old(isInitialState)
    {
      selectedModule := m;
    }
  }
}

// src/components/dashboard/DashboardHeader.tsx: the greeting and the learning-profile load.
module DashboardHeader {
  import opened Wrappers

  /** The greeting for the local hour of day. */
  function Greeting(hour: int): (r: string)
    ensures hour < 12 <==> r == "Good Morning"
    ensures 12 <= hour < 18 <==> r == "Good Afternoon"
    ensures 18 <= hour <==> r == "Good Evening"
  {
    if hour < 12 then "Good Morning"
    else if hour < 18 then "Good Afternoon"
    else "Good Evening"
  }

  datatype LearningProfile = LearningProfile(learningStyle: string, assessmentDate: string)

  /**
   * What the profile endpoint gave back: an HTTP answer whose JSON body is read as the profile
   * (success) or for its `error` field ("" when absent), or a failure before any answer.
   */
  datatype Response = Http(status: int, profile: LearningProfile, errorField: string) | Thrown

  datatype HeaderState = HeaderState(profile: Option<LearningProfile>, loading: bool, error: Option<string>)

  const InitialHeader: HeaderState := HeaderState(None, true, None)

  predicate IsOk(status: int) { 200 <= status < 300 }

  /**
   * The load effect. With no signed-in user it returns before anything, so loading is never
   * cleared; otherwise loading always ends. A 404 (no assessment taken yet) is no error, every
   * other failure records a non-empty message, and only a success sets the profile.
   */
  function AfterLoad(s: HeaderState, hasUser: bool, response: Response): (r: HeaderState)
    ensures !hasUser ==> r == s
    ensures hasUser ==> !r.loading
    ensures hasUser && response.Http? && IsOk(response.status) ==>
              r.profile == Some(response.profile) && r.error == s.error
    ensures hasUser && response.Http? && response.status == 404 ==> r.profile == s.profile && r.error == s.error
    ensures hasUser && (response.Thrown? || (!IsOk(response.status) && response.status != 404)) ==>
              r.profile == s.profile && r.error.Some? && r.error.value != ""
  {
    if !hasUser then s
    else
      match response
      case Thrown => s.(loading := false, error := Some("Unable to load your learning profile"))
      case Http(status, profile, errorField) =>
        if IsOk(status) then s.(loading := false, profile := Some(profile))
        else if status != 404 then
          s.(loading := false, error := Some(if errorField != "" then errorField else "Failed to load learning profile"))
        else s.(loading := false)
  }
}
