// The chat-style assessment page: the local length guard, the handling of the server's
// replies, the mapping of the server's result keys onto four profile fields, and the
// start, retake and cancel controls.
module ChatbotAssessment {
  import opened Wrappers
  import opened Text
  import Server = LearningStyleServer

  datatype Role = UserRole | BotRole

  datatype ChatMessage = ChatMessage(role: Role, content: string)

  datatype StyleInfo = StyleInfo(processingStyle: string, perceptionStyle: string, inputStyle: string, understandingStyle: string)

  /** The body posted to the server's answer endpoint. */
  datatype AnswerRequest = AnswerRequest(responses: seq<string>, newAnswer: string)

  /**
   * What the answer request came back with: a non-OK status with the error body's `detail`
   * (or '' when it has none), a failure that raised with a message, or an OK body whose
   * `question` is '' when absent and whose `learning_style` keys are listed in order.
   */
  datatype ServerReply =
    | HttpError(detail: string)
    | Failure(message: string)
    | Body(question: string, learningStyle: Option<seq<string>>, responses: seq<string>)

  /** What the start endpoint gave: a question ('' when absent), or a failure. */
  datatype StartReply = Started(question: string) | StartFailed

  /** A stored profile as the profile endpoint returns it; '' stands for a missing field. */
  datatype StoredProfile = StoredProfile(processingStyle: string, perceptionStyle: string, inputStyle: string, understandingStyle: string)

  const TooShortMessage := "Please provide a more detailed response (at least 5 characters)."
  const GenericError := "An error occurred during assessment."
  const StartError := "Error starting assessment. Please ensure the assessment server is running."

  /** `keys.find(k => k === a || k === b) || d`: the first key of the pair, else the default. */
  function FindEither(keys: seq<string>, a: string, b: string, d: string): (r: string)
    ensures r == a || r == b || r == d
    ensures (a in keys || b in keys) ==> r in keys && (r == a || r == b)
    ensures !(a in keys || b in keys) ==> r == d
  {
    if keys == [] then d
    else if keys[0] == a || keys[0] == b then keys[0]
    else
      assert (a in keys || b in keys) ==> a in keys[1..] || b in keys[1..];
      FindEither(keys[1..], a, b, d)
  }

  /** The key at `j` is found when it is the first of the two labels in the list. */
  lemma {:induction false} FindEitherFirst(keys: seq<string>, a: string, b: string, d: string, j: nat)
    requires j < |keys| && (keys[j] == a || keys[j] == b)
    requires forall i :: 0 <= i < j ==> keys[i] != a && keys[i] != b
    ensures FindEither(keys, a, b, d) == keys[j]
  {
    if j > 0 {
      assert keys[0] != a && keys[0] != b;
      FindEitherFirst(keys[1..], a, b, d, j - 1);
    }
  }

  /** The four profile fields taken from the result's keys, with Active/Intuitive/Visual/Sequential defaults. */
  function MapStyles(keys: seq<string>): (r: StyleInfo)
    ensures r.processingStyle in {"Active", "Reflective"} && r.perceptionStyle in {"Sensing", "Intuitive"}
    ensures r.inputStyle in {"Visual", "Verbal"} && r.understandingStyle in {"Sequential", "Global"}
    ensures "Reflective" !in keys ==> r.processingStyle == "Active"
    ensures "Sensing" !in keys ==> r.perceptionStyle == "Intuitive"
    ensures "Verbal" !in keys ==> r.inputStyle == "Visual"
    ensures "Global" !in keys ==> r.understandingStyle == "Sequential"
  {
    StyleInfo(FindEither(keys, "Active", "Reflective", "Active"),
              FindEither(keys, "Sensing", "Intuitive", "Intuitive"),
              FindEither(keys, "Visual", "Verbal", "Visual"),
              FindEither(keys, "Sequential", "Global", "Sequential"))
  }

  /** On the server's result, one key per axis, every profile field is the label the server chose. */
  lemma MappingRecoversServerResult(p: Server.Prediction)
    ensures MapStyles(Server.ResultKeys(p)) ==
            StyleInfo(Server.Label(p, 2), Server.Label(p, 0), Server.Label(p, 1), Server.Label(p, 3))
  {
    var keys := Server.ResultKeys(p);
    assert keys == [Server.Label(p, 0), Server.Label(p, 1), Server.Label(p, 2), Server.Label(p, 3)];
    Server.OtherAxisLabel(p, 2, 0);
    Server.OtherAxisLabel(p, 2, 1);
    Server.OtherAxisLabel(p, 1, 0);
    Server.OtherAxisLabel(p, 3, 0);
    Server.OtherAxisLabel(p, 3, 1);
    Server.OtherAxisLabel(p, 3, 2);
    FindEitherFirst(keys, "Active", "Reflective", "Active", 2);
    FindEitherFirst(keys, "Sensing", "Intuitive", "Intuitive", 0);
    FindEitherFirst(keys, "Visual", "Verbal", "Visual", 1);
    FindEitherFirst(keys, "Sequential", "Global", "Sequential", 3);
  }

  /** The completion message listing the four fields. */
  function Summary(s: StyleInfo): string
  {
    "Test complete! Your learning style profile:\n            \n"
    + "\U{2022} Processing: " + s.processingStyle + "\n"
    + "\U{2022} Perception: " + s.perceptionStyle + "\n"
    + "\U{2022} Input: " + s.inputStyle + "\n"
    + "\U{2022} Understanding: " + s.understandingStyle + "\n\n"
    + "This information will help us personalize your learning experience."
  }

  /** The existing-profile test: a profile whose four style fields are all present. */
  predicate IsComplete(profile: Option<StoredProfile>)
  {
    profile.Some? && profile.value.processingStyle != "" && profile.value.perceptionStyle != ""
    && profile.value.inputStyle != "" && profile.value.understandingStyle != ""
  }

  /** The page's state fields. */
  datatype Chat = Chat(
    messages: seq<ChatMessage>,
    responses: seq<string>,
    input: string,
    isLoading: bool,
    error: Option<string>,
    testComplete: bool,
    learningStyle: Option<StyleInfo>,
    hasExistingProfile: bool,
    assessmentStarted: bool,
    saved: seq<(string, StyleInfo)>)

  /** The try block of handleSend once the request is out: apply the server's reply. */
  function ApplyReply(c: Chat, reply: ServerReply, sentInput: string, user: Option<string>): (r: Chat)
    ensures reply.HttpError? ==>
              r == c.(error := Some(if reply.detail != "" then reply.detail else GenericError))
    ensures reply.Failure? ==> r == c.(error := Some(reply.message))
    ensures reply.Body? && reply.question != "" ==>
              r == c.(responses := reply.responses,
                      messages := c.messages + [ChatMessage(UserRole, sentInput), ChatMessage(BotRole, reply.question)])
    ensures reply.Body? && reply.question == "" && reply.learningStyle.Some? ==>
              var styles := MapStyles(reply.learningStyle.value);
              r == c.(responses := reply.responses, testComplete := true, learningStyle := Some(styles),
                      messages := c.messages + [ChatMessage(UserRole, sentInput), ChatMessage(BotRole, Summary(styles))],
                      saved := c.saved + (if user.Some? then [(user.value, styles)] else []))
    ensures reply.Body? && reply.question == "" && reply.learningStyle.None? ==> r == c
  {
    match reply
    case HttpError(detail) => c.(error := Some(if detail != "" then detail else GenericError))
    case Failure(message) => c.(error := Some(message))
    case Body(question, styleKeys, newResponses) =>
      if question != "" then
        c.(responses := newResponses,
           messages := c.messages + [ChatMessage(UserRole, sentInput), ChatMessage(BotRole, question)])
      else if styleKeys.Some? then
        var styles := MapStyles(styleKeys.value);
        c.(responses := newResponses, testComplete := true, learningStyle := Some(styles),
           messages := c.messages + [ChatMessage(UserRole, sentInput), ChatMessage(BotRole, Summary(styles))],
           saved := c.saved + (if user.Some? then [(user.value, styles)] else []))
      else c
  }

  /**
   * handleSend with the server's reply: a trimmed input under five UTF-16 code units is refused
   * locally and nothing is sent; otherwise the untrimmed input goes out with the validated
   * responses, the reply is applied, and loading and the input are reset whatever happened.
   */
  function Send(c: Chat, reply: ServerReply, user: Option<string>): (r: (Chat, Option<AnswerRequest>))
    ensures JsLength(Trim(c.input)) < 5 ==> r.1 == None && r.0 == c.(error := Some(TooShortMessage))
    ensures JsLength(Trim(c.input)) >= 5 ==>
              r.1 == Some(AnswerRequest(c.responses, c.input)) && r.0.input == "" && !r.0.isLoading
              && r.0 == ApplyReply(c.(error := None), reply, c.input, user).(isLoading := false, input := "")
  {
    if JsLength(Trim(c.input)) < 5 then (c.(error := Some(TooShortMessage)), None)
    else
      var after := ApplyReply(c.(error := None), reply, c.input, user);
      (after.(isLoading := false, input := ""), Some(AnswerRequest(c.responses, c.input)))
  }

  /** Send as the handler runs it: the reply is applied while the loading flag is on. */
  lemma SendWhileLoading(c: Chat, reply: ServerReply, user: Option<string>)
    requires JsLength(Trim(c.input)) >= 5
    ensures Send(c, reply, user).0 ==
              ApplyReply(c.(error := None, isLoading := true), reply, c.input, user).(isLoading := false, input := "")
  {
    ApplyReplyKeepsLoading(c.(error := None), reply, c.input, user, true);
  }

  /** The loading flag set while the request is out plays no part in applying the reply. */
  lemma ApplyReplyKeepsLoading(c: Chat, reply: ServerReply, sentInput: string, user: Option<string>, loading: bool)
    ensures ApplyReply(c.(isLoading := loading), reply, sentInput, user) == ApplyReply(c, reply, sentInput, user).(isLoading := loading)
  {
  }

  /** A next-question reply replaces the responses with the server's and adds the user's turn and the question. */
  lemma NextQuestionReply(c: Chat, question: string, styles: Option<seq<string>>, rs: seq<string>, user: Option<string>)
    requires JsLength(Trim(c.input)) >= 5 && question != ""
    ensures var r := Send(c, Body(question, styles, rs), user).0;
            r.responses == rs && r.error == None && r.input == "" && !r.isLoading
            && r.messages == c.messages + [ChatMessage(UserRole, c.input), ChatMessage(BotRole, question)]
            && |r.messages| == |c.messages| + 2
  {
  }

  /** The input is cleared and loading is off after any reply, success or failure. */
  lemma InputClearedAfterAnyReply(c: Chat, reply: ServerReply, user: Option<string>)
    requires JsLength(Trim(c.input)) >= 5
    ensures Send(c, reply, user).0.input == "" && !Send(c, reply, user).0.isLoading
    ensures Send(c, reply, user).1.Some? && Send(c, reply, user).1.value.newAnswer == c.input
  {
  }

  /** Three characters above U+FFFF are six code units long, so the page sends them. */
  lemma AstralInputSent(c: Chat, reply: ServerReply, user: Option<string>)
    requires c.input == "\U{1F600}\U{1F600}\U{1F600}"
    ensures Send(c, reply, user).1 == Some(AnswerRequest(c.responses, c.input))
  {
    var s := c.input;
    TrimIdentity(s);
    assert s[1..][1..][1..] == [];
    assert JsLength(s[1..][1..]) == 2;
    assert JsLength(s[1..]) == 4;
    assert JsLength(s) == 6;
  }

  /**
   * When the server completes the test, the profile the page saves carries the server's
   * chosen label on every axis.
   */
  lemma CompletedTestSavesServerLabels(c: Chat, p: Server.Prediction, rs: seq<string>, user: string)
    requires JsLength(Trim(c.input)) >= 5
    ensures var r := Send(c, Body("", Some(Server.ResultKeys(p)), rs), Some(user)).0;
            var expected := StyleInfo(Server.Label(p, 2), Server.Label(p, 0), Server.Label(p, 1), Server.Label(p, 3));
            r.testComplete && r.learningStyle == Some(expected) && r.saved == c.saved + [(user, expected)]
  {
    MappingRecoversServerResult(p);
  }

  /** handleCancelTest: back to the page before the assessment started. */
  function Cancel(c: Chat): (r: Chat)
    ensures r.messages == [] && r.responses == [] && !r.testComplete && !r.assessmentStarted && r.error == None
    ensures r.input == c.input && r.learningStyle == c.learningStyle && r.hasExistingProfile == c.hasExistingProfile
    ensures r.saved == c.saved && r.isLoading == c.isLoading
  {
    c.(messages := [], responses := [], testComplete := false, assessmentStarted := false, error := None)
  }

  /** startConversation with the start endpoint's reply; nothing happens without a user. */
  function Start(c: Chat, user: Option<string>, reply: StartReply): (r: Chat)
    ensures user.None? ==> r == c
    ensures user.Some? && reply.Started? ==>
              r == c.(assessmentStarted := true, isLoading := false,
                      messages := if reply.question != "" then [ChatMessage(BotRole, reply.question)] else c.messages)
    ensures user.Some? && reply.StartFailed? ==>
              r == c.(assessmentStarted := false, isLoading := false, error := Some(StartError))
  {
    if user.None? then c
    else
      var loading := c.(isLoading := true, assessmentStarted := true);
      var after :=
        match reply
        case Started(question) =>
          if question != "" then loading.(messages := [ChatMessage(BotRole, question)]) else loading
        case StartFailed => loading.(error := Some(StartError), assessmentStarted := false);
      after.(isLoading := false)
  }

  /** handleRetakeTest: clear the conversation and the existing-profile flag, then start again. */
  function Retake(c: Chat, user: Option<string>, reply: StartReply): (r: Chat)
    ensures r.responses == [] && !r.testComplete && !r.hasExistingProfile
    ensures user.None? ==> r.messages == [] && r.assessmentStarted == c.assessmentStarted
    ensures user.Some? && reply.Started? && reply.question != "" ==>
              r.assessmentStarted && r.messages == [ChatMessage(BotRole, reply.question)]
  {
    Start(c.(messages := [], responses := [], testComplete := false, hasExistingProfile := false), user, reply)
  }

  class ChatbotSession {
    var messages: seq<ChatMessage>
    var responses: seq<string>
    var input: string
    var isLoading: bool
    var error: Option<string>
    var testComplete: bool
    var learningStyle: Option<StyleInfo>
    var hasExistingProfile: bool
    var assessmentStarted: bool
    /** The profile updates sent, with the user id each was sent for. */
    var saved: seq<(string, StyleInfo)>

    function State(): Chat
      reads this
    {
      Chat(messages, responses, input, isLoading, error, testComplete, learningStyle, hasExistingProfile,
           assessmentStarted, saved)
    }

    method SetState(c: Chat)
      modifies this
      ensures State() == c
    {
      messages, responses, input, isLoading, error := c.messages, c.responses, c.input, c.isLoading, c.error;
      testComplete, learningStyle, hasExistingProfile := c.testComplete, c.learningStyle, c.hasExistingProfile;
      assessmentStarted, saved := c.assessmentStarted, c.saved;
    }

    constructor ()
      ensures State() == Chat([], [], "", false, None, false, None, false, false, [])
    {
      messages, responses, input, isLoading, error := [], [], "", false, None;
      testComplete, learningStyle, hasExistingProfile := false, None, false;
      assessmentStarted, saved := false, [];
    }

    method Type(text: string)
      modifies this`input
      ensures State() == old(State()).(input := text)
    {
      input := text;
    }

    /** The profile check on load: only a complete profile counts as existing. */
    method ExistingProfileLoaded(profile: Option<StoredProfile>)
      modifies this`hasExistingProfile, this`learningStyle
      ensures hasExistingProfile == IsComplete(profile)
      ensures learningStyle == if IsComplete(profile) then
                                 Some(StyleInfo(profile.value.processingStyle, profile.value.perceptionStyle,
                                                profile.value.inputStyle, profile.value.understandingStyle))
                               else old(learningStyle)
    {
      if IsComplete(profile) {
        hasExistingProfile := true;
        var p := profile.value;
        learningStyle := Some(StyleInfo(p.processingStyle, p.perceptionStyle, p.inputStyle, p.understandingStyle));
      } else {
        hasExistingProfile := false;
      }
    }

    method HandleSend(reply: ServerReply, user: Option<string>) returns (request: Option<AnswerRequest>)
      modifies this
      ensures (State(), request) == Send(old(State()), reply, user)
    {
      ghost var c := State();
      if JsLength(Trim(input)) < 5 {
        error := Some(TooShortMessage);
        assert State() == c.(error := Some(TooShortMessage));
        return None;
      }
      error := None;
      isLoading := true;
      assert State() == c.(error := None, isLoading := true);
      request := Some(AnswerRequest(responses, input));
      SendWhileLoading(c, reply, user);
      var after := ApplyReply(State(), reply, input, user);
      SetState(after.(isLoading := false, input := ""));
    }

    method HandleStart(user: Option<string>, reply: StartReply)
      modifies this
      ensures State() == Start(old(State()), user, reply)
    {
      SetState(Start(State(), user, reply));
    }

    method HandleRetake(user: Option<string>, reply: StartReply)
      modifies this
      ensures State() == Retake(old(State()), user, reply)
    {
      messages := [];
      responses := [];
      testComplete := false;
      hasExistingProfile := false;
      HandleStart(user, reply);
    }

    method HandleCancel()
      modifies this
      ensures State() == Cancel(old(State()))
    {
      messages := [];
      responses := [];
      testComplete := false;
      assessmentStarted := false;
      error := None;
    }
  }
}
