// src/app/api/socket/route.ts: forwards a tutor question to the WebSocket agent server. The
// connection itself is not modelled; how it ends (open, error, timeout) is a parameter.
module SocketRoute {
  import opened Wrappers
  import opened Http
  import opened Cookies

  function Token(header: string): Option<string>
  {
    FirstToken(header, "auth_token")
  }

  datatype LearningProfile = LearningProfile(style: string, depth: string, interaction: string)

  const DefaultProfile: LearningProfile := LearningProfile("conceptual", "beginner", "examples")

  /**
   * The JSON body; `None` for a missing field. `language` is `None` only when undefined, the one
   * case its destructuring default covers.
   */
  datatype SocketRequest = SocketRequest(message: Option<string>, userId: Option<string>, courseId: Option<string>,
                                         chapterId: Option<string>, sessionId: Option<string>,
                                         learningProfile: Option<LearningProfile>, language: Option<string>)

  /** The frame sent to the agent server. */
  datatype Outgoing = Outgoing(message: string, user_id: string, course_id: Option<string>, chapter_id: Option<string>,
                               session_id: Option<string>, learning_profile: LearningProfile, language: string)

  /**
   * The checks before connecting. Only a verified token whose payload has no user id is refused:
   * a rejected token makes the `userId` read throw, and that error is swallowed so the request
   * carries on.
   */
  function Prepare(header: string, verify: string -> Option<Payload>, body: Option<SocketRequest>): (r: Result<Outgoing, Reply<string>>)
    ensures !Truthy(Token(header)) ==> r == Err(Fail(401, "Authentication required"))
    ensures var c := Identify(Token(header), verify);
            c.Verified? && c.payload.userId == "" ==> r == Err(Fail(401, "Invalid authentication token"))
    ensures var c := Identify(Token(header), verify);
            (r.Err? && r.error.status == 500) <==> (c.Unverified? || SignedIn(c)) && body.None?
    ensures var c := Identify(Token(header), verify);
            (r.Err? && r.error.status == 400) <==>
              (c.Unverified? || SignedIn(c)) && body.Some? && !Truthy(body.value.message)
    ensures r.Ok? ==>
              body.Some? && Truthy(body.value.message) && r.value.message == body.value.message.value
              && r.value.user_id == (if Truthy(body.value.userId) then body.value.userId.value else "web_user")
              && r.value.learning_profile == (if body.value.learningProfile.Some? then body.value.learningProfile.value else DefaultProfile)
              && r.value.language == (if body.value.language.Some? then body.value.language.value else "english")
              && r.value.course_id == body.value.courseId && r.value.chapter_id == body.value.chapterId
              && r.value.session_id == body.value.sessionId
  {
    var c := Identify(Token(header), verify);
    if c.NoToken? then Err(Fail(401, "Authentication required"))
    else if c.Verified? && c.payload.userId == "" then Err(Fail(401, "Invalid authentication token"))
    else if body.None? then Err(Fail(500, "Failed to process message"))
    else if !Truthy(body.value.message) then Err(Fail(400, "Message is required"))
    else
      var b := body.value;
      Ok(Outgoing(b.message.value, OrElse(b.userId, "web_user"), b.courseId, b.chapterId, b.sessionId,
                  if b.learningProfile.Some? then b.learningProfile.value else DefaultProfile,
                  if b.language.Some? then b.language.value else "english"))
  }

  /** How the connection attempt ends. */
  datatype Connection = Opens | Fails | TimesOut

  /** The answer, and the frame sent when the connection opened. */
  function Post(header: string, verify: string -> Option<Payload>, body: Option<SocketRequest>, connection: Connection): (r: (Reply<string>, Option<Outgoing>))
    ensures r.1.Some? <==> Prepare(header, verify, body).Ok? && connection.Opens?
    ensures r.1.Some? ==> r.1.value == Prepare(header, verify, body).value && r.0.status == 200
    ensures Prepare(header, verify, body).Err? ==> r.0 == Prepare(header, verify, body).error
    ensures Prepare(header, verify, body).Ok? && connection.Fails? ==> r.0.status == 503
    ensures Prepare(header, verify, body).Ok? && connection.TimesOut? ==> r.0.status == 504
  {
    match Prepare(header, verify, body)
    case Err(e) => (e, None)
    case Ok(frame) =>
      match connection
      case Opens => (Answer("Message sent to WebSocket server"), Some(frame))
      case Fails => (Fail(503, "Failed to connect to WebSocket server"), None)
      case TimesOut => (Fail(504, "Connection to WebSocket server timed out"), None)
  }

  /** A token that does not verify still gets a question through. */
  lemma UnverifiedTokenPasses(header: string, verify: string -> Option<Payload>, body: Option<SocketRequest>)
    requires Identify(Token(header), verify).Unverified?
    requires body.Some? && Truthy(body.value.message)
    ensures Post(header, verify, body, Opens).1.Some?
  {
  }
}

// src/app/api/chat/route.ts: one question to the local tutor agent, answered with the stored
// question and the agent's reply. The agent process is a parameter: what it printed on its
// standard output and standard error.
module ChatRoute {
  import opened Wrappers
  import opened Http
  import opened Cookies

  /** This route reads its token with the `reduce` dictionary and `|| null`. */
  function Token(header: string): Option<string>
  {
    LastOrNull(header, "auth_token")
  }

  datatype ChatRequest = ChatRequest(message: Option<string>, sessionId: Option<string>)

  datatype AgentRun = AgentRun(stdout: string, stderr: string)

  datatype ChatMessage = ChatMessage(id: string, content: string, messageType: string, isUser: bool, createdAt: int)

  datatype Exchange = Exchange(userMessage: ChatMessage, agentResponse: ChatMessage)

  /**
   * `payload?.userId` makes a rejected token and a token without a user id the same 401. The
   * agent runs only for a signed-in caller with a message; any output on its error stream is a 500.
   */
  function Respond(header: string, verify: string -> Option<Payload>, body: Option<ChatRequest>, agent: AgentRun,
                messageId: string, responseId: string, now: int): (r: Reply<Exchange>)
    ensures !Truthy(Token(header)) ==> r == Fail(401, "Authentication required")
    ensures var c := Identify(Token(header), verify);
            Truthy(Token(header)) && !SignedIn(c) ==> r == Fail(401, "Invalid authentication token")
    ensures SignedIn(Identify(Token(header), verify)) && body.Some? && !Truthy(body.value.message) ==>
              r == Fail(400, "Message is required")
    ensures r == Fail(500, "Failed to process message") <==>
              SignedIn(Identify(Token(header), verify)) && body.Some? && Truthy(body.value.message) && agent.stderr != ""
    ensures r.status == 200 <==>
              SignedIn(Identify(Token(header), verify)) && body.Some? && Truthy(body.value.message) && agent.stderr == ""
    ensures r.status == 200 ==>
              r.body.Json? && r.body.value.userMessage == ChatMessage(messageId, body.value.message.value, "text", true, now)
              && r.body.value.agentResponse == ChatMessage(responseId, agent.stdout, "text", false, now)
  {
    var c := Identify(Token(header), verify);
    if !Truthy(Token(header)) then Fail(401, "Authentication required")
    else if !SignedIn(c) then Fail(401, "Invalid authentication token")
    else if body.None? then Fail(500, "Failed to process chat message")
    else if !Truthy(body.value.message) then Fail(400, "Message is required")
    else if agent.stderr != "" then Fail(500, "Failed to process message")
    else
      Answer(Exchange(ChatMessage(messageId, body.value.message.value, "text", true, now),
                      ChatMessage(responseId, agent.stdout, "text", false, now)))
  }

  /** A row of the ChatMessage table: `order` is 0 for the user's message and 1 for the agent's. */
  datatype StoredMessage = StoredMessage(id: string, chatId: Option<string>, content: string, messageType: string,
                                         isUser: bool, order: nat, createdAt: int)

  /**
   * The rows one POST inserts: the user's message as soon as the checks pass, before the agent
   * runs, and the agent's reply only when its error stream stayed empty. So an agent failure
   * leaves the user's message stored behind its 500, and a 200 stores both messages it returns.
   */
  function Inserted(header: string, verify: string -> Option<Payload>, body: Option<ChatRequest>, agent: AgentRun,
                    messageId: string, responseId: string, now: int): (rows: seq<StoredMessage>)
    ensures var r := Respond(header, verify, body, agent, messageId, responseId, now);
            && (|rows| == 2 <==> r.status == 200)
            && (|rows| == 1 <==> r == Fail(500, "Failed to process message"))
            && |rows| <= 2
    ensures |rows| >= 1 ==>
              rows[0] == StoredMessage(messageId, body.value.sessionId, body.value.message.value, "text", true, 0, now)
    ensures |rows| == 2 ==>
              rows[1] == StoredMessage(responseId, body.value.sessionId, agent.stdout, "text", false, 1, now)
  {
    if !Truthy(Token(header)) || !SignedIn(Identify(Token(header), verify)) || body.None? || !Truthy(body.value.message) then []
    else
      var user := StoredMessage(messageId, body.value.sessionId, body.value.message.value, "text", true, 0, now);
      if agent.stderr != "" then [user]
      else [user, StoredMessage(responseId, body.value.sessionId, agent.stdout, "text", false, 1, now)]
  }

  /** The ChatMessage table the route writes to. */
  class MessageTable {
    var rows: seq<StoredMessage>

    constructor ()
      ensures rows == []
    {
      rows := [];
    }

    /** POST /api/chat: answers as `Respond` says and appends the rows the request inserts. */
    method Post(header: string, verify: string -> Option<Payload>, body: Option<ChatRequest>, agent: AgentRun,
                messageId: string, responseId: string, now: int) returns (r: Reply<Exchange>)
      modifies this
      ensures r == Respond(header, verify, body, agent, messageId, responseId, now)
      ensures rows == old(rows) + Inserted(header, verify, body, agent, messageId, responseId, now)
    {
      rows := rows + Inserted(header, verify, body, agent, messageId, responseId, now);
      r := Respond(header, verify, body, agent, messageId, responseId, now);
    }
  }

  /** A 200 stores exactly the two messages it returns. */
  lemma StoredAsReturned(header: string, verify: string -> Option<Payload>, body: Option<ChatRequest>, agent: AgentRun,
                         messageId: string, responseId: string, now: int)
    requires Respond(header, verify, body, agent, messageId, responseId, now).status == 200
    ensures var rows := Inserted(header, verify, body, agent, messageId, responseId, now);
            var e := Respond(header, verify, body, agent, messageId, responseId, now).body.value;
            |rows| == 2
            && rows[0].id == e.userMessage.id && rows[0].content == e.userMessage.content && rows[0].isUser
            && rows[1].id == e.agentResponse.id && rows[1].content == e.agentResponse.content && !rows[1].isUser
  {
  }
}
