// src/app/api/course-chats/sessions/route.ts: creates a course chat session for the caller and
// lists the caller's sessions for one virtual chapter. The session table is a list of rows in
// insertion order.
module SessionsRoute {
  import opened Wrappers
  import opened Http
  import opened Cookies

  function Token(header: string): Option<string>
  {
    FirstToken(header, "auth_token")
  }

  const DefaultTitle: string := "New Chat Session"
  const DefaultLanguage: string := "english"
  const DefaultLearningProfileId: string := "018d22c5-2281-4cf1-95db-c49a486d27f3"

  /** The POST body's fields; `None` for a field that is missing or `null`. */
  datatype NewSession = NewSession(courseId: Option<string>, virtualChapterId: Option<string>,
                                   title: Option<string>, language: Option<string>)

  datatype ChatSession = ChatSession(id: string, userId: string, courseId: string, virtualChapterId: Option<string>,
                                     title: string, language: string, lastContext: string,
                                     learningProfileId: string, isActive: bool, createdAt: int, updatedAt: int)

  /** The row a create inserts, with `sessionId` from the id generator and `now` from the clock. */
  function NewRow(userId: string, req: NewSession, sessionId: string, now: int): (row: ChatSession)
    requires Truthy(req.courseId)
    ensures row.id == sessionId && row.userId == userId && row.courseId == req.courseId.value
    ensures row.virtualChapterId.Some? <==> Truthy(req.virtualChapterId)
    ensures row.virtualChapterId.Some? ==> row.virtualChapterId == req.virtualChapterId
    ensures row.title == (if Truthy(req.title) then req.title.value else DefaultTitle)
    ensures row.language == (if Truthy(req.language) then req.language.value else DefaultLanguage)
    ensures row.lastContext == "" && row.learningProfileId == DefaultLearningProfileId && row.isActive
    ensures row.createdAt == now && row.updatedAt == now
  {
    ChatSession(sessionId, userId, req.courseId.value, OrNull(req.virtualChapterId),
                OrElse(req.title, DefaultTitle), OrElse(req.language, DefaultLanguage), "",
                DefaultLearningProfileId, true, now, now)
  }

  /**
   * The POST checks in order. A rejected token throws on reading `userId` and reaches the
   * handler's catch (500); a verified token without a user id is a 401.
   */
  function CreateChecks(header: string, verify: string -> Option<Payload>, body: Option<NewSession>): (r: Result<(string, NewSession), Reply<ChatSession>>)
    ensures !Truthy(Token(header)) ==> r == Err(Fail(401, "Authentication required"))
    ensures var c := Identify(Token(header), verify);
            (r.Err? && r.error.status == 500) <==> c.Unverified? || (SignedIn(c) && body.None?)
    ensures r.Err? && r.error.status == 500 ==> r.error.body == Error("Failed to create chat session")
    ensures var c := Identify(Token(header), verify);
            c.Verified? && c.payload.userId == "" ==> r == Err(Fail(401, "Invalid authentication token"))
    ensures var c := Identify(Token(header), verify);
            (r.Err? && r.error.status == 400) <==> SignedIn(c) && body.Some? && !Truthy(body.value.courseId)
    ensures r.Ok? ==> var c := Identify(Token(header), verify);
                      SignedIn(c) && body == Some(r.value.1) && r.value.0 == c.payload.userId
                      && Truthy(r.value.1.courseId)
  {
    match Identify(Token(header), verify)
    case NoToken => Err(Fail(401, "Authentication required"))
    case Unverified => Err(Fail(500, "Failed to create chat session"))
    case Verified(p) =>
      if p.userId == "" then Err(Fail(401, "Invalid authentication token"))
      else if body.None? then Err(Fail(500, "Failed to create chat session"))
      else if !Truthy(body.value.courseId) then Err(Fail(400, "Course ID is required"))
      else Ok((p.userId, body.value))
  }

  /** The rows of one user in one virtual chapter, in table order. */
  function RowsFor(rows: seq<ChatSession>, userId: string, chapterId: string): (r: seq<ChatSession>)
    ensures forall s :: s in r ==> s in rows && s.userId == userId && s.virtualChapterId == Some(chapterId)
    ensures forall s :: s in rows && s.userId == userId && s.virtualChapterId == Some(chapterId) ==> s in r
    ensures |r| <= |rows|
  {
    if rows == [] then []
    else
      var rest := RowsFor(rows[1..], userId, chapterId);
      assert forall s :: s in rows[1..] ==> s in rows;
      if rows[0].userId == userId && rows[0].virtualChapterId == Some(chapterId) then [rows[0]] + rest else rest
  }

  /** GET: a rejected token is again a 500, here with the fetch message. */
  function List(rows: seq<ChatSession>, header: string, verify: string -> Option<Payload>,
                virtualChapterId: Option<string>): (r: Reply<seq<ChatSession>>)
    ensures !Truthy(Token(header)) ==> r == Fail(401, "Authentication required")
    ensures Identify(Token(header), verify).Unverified? ==> r == Fail(500, "Failed to fetch chat sessions")
    ensures var c := Identify(Token(header), verify);
            c.Verified? && c.payload.userId == "" ==> r == Fail(401, "Invalid authentication token")
    ensures var c := Identify(Token(header), verify);
            SignedIn(c) && !Truthy(virtualChapterId) ==> r == Fail(400, "Virtual chapter ID is required")
    ensures var c := Identify(Token(header), verify);
            r.status == 200 <==> SignedIn(c) && Truthy(virtualChapterId)
    ensures r.status == 200 ==>
              r.body == Json(RowsFor(rows, Identify(Token(header), verify).payload.userId, virtualChapterId.value))
  {
    match Identify(Token(header), verify)
    case NoToken => Fail(401, "Authentication required")
    case Unverified => Fail(500, "Failed to fetch chat sessions")
    case Verified(p) =>
      if p.userId == "" then Fail(401, "Invalid authentication token")
      else if !Truthy(virtualChapterId) then Fail(400, "Virtual chapter ID is required")
      else Answer(RowsFor(rows, p.userId, virtualChapterId.value))
  }

  lemma {:induction false} RowsForAppend(rows: seq<ChatSession>, row: ChatSession, userId: string, chapterId: string)
    ensures RowsFor(rows + [row], userId, chapterId) ==
              RowsFor(rows, userId, chapterId)
              + (if row.userId == userId && row.virtualChapterId == Some(chapterId) then [row] else [])
  {
    if rows != [] {
      assert (rows + [row])[1..] == rows[1..] + [row];
      RowsForAppend(rows[1..], row, userId, chapterId);
    }
  }

  /**
   * A session created with a chapter id joins that chapter's list for the same caller; the rows
   * listed before stay as they were (in table order, which the model keeps in place of the
   * newest-first sort).
   */
  lemma CreateThenList(rows: seq<ChatSession>, header: string, verify: string -> Option<Payload>,
                       body: Option<NewSession>, sessionId: string, now: int)
    requires CreateChecks(header, verify, body).Ok?
    requires Truthy(body.value.virtualChapterId)
    ensures var (userId, req) := CreateChecks(header, verify, body).value;
            var row := NewRow(userId, req, sessionId, now);
            List(rows + [row], header, verify, req.virtualChapterId)
              == Answer(RowsFor(rows, userId, req.virtualChapterId.value) + [row])
  {
    var (userId, req) := CreateChecks(header, verify, body).value;
    RowsForAppend(rows, NewRow(userId, req, sessionId, now), userId, req.virtualChapterId.value);
  }

  class SessionStore {
    var rows: seq<ChatSession>

    constructor ()
      ensures rows == []
    {
      rows := [];
    }

    /** POST: a refused request inserts nothing; otherwise one new row is appended and returned. */
    method Create(header: string, verify: string -> Option<Payload>, body: Option<NewSession>, sessionId: string, now: int)
      returns (r: Reply<ChatSession>)
      modifies this
      ensures CreateChecks(header, verify, body).Err? ==>
                r == CreateChecks(header, verify, body).error && rows == old(rows)
      ensures CreateChecks(header, verify, body).Ok? ==>
                var (userId, req) := CreateChecks(header, verify, body).value;
                rows == old(rows) + [NewRow(userId, req, sessionId, now)]
                && r == Answer(NewRow(userId, req, sessionId, now))
    {
      match CreateChecks(header, verify, body)
      case Err(e) => r := e;
      case Ok((userId, req)) =>
        var row := NewRow(userId, req, sessionId, now);
        rows := rows + [row];
        r := Answer(row);
    }
  }
}
