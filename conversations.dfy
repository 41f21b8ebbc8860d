// src/app/api/conversations/route.ts: saves and reads back the chat of one user in one course.
// The conversation table is a map keyed by (user, course); at most one row per key.
module ConversationsRoute {
  import opened Wrappers
  import opened Http
  import opened Cookies

  /** This route reads its token with the first-match loop. */
  function Token(header: string): Option<string>
  {
    FirstToken(header, "auth_token")
  }

  /**
   * The JSON body of a save; `None` for a field that is missing or `null`. A message list is
   * present whatever it holds (an empty array is truthy).
   */
  datatype SaveRequest = SaveRequest(courseId: Option<string>, messages: Option<seq<string>>)

  /** What a save that passed its checks writes. */
  datatype Save = Save(userId: string, courseId: string, messages: seq<string>)

  datatype Saved = Saved(success: bool, conversationId: string)

  datatype Key = Key(userId: string, courseId: string)

  datatype Conversation = Conversation(id: string, userId: string, courseId: string, messages: seq<string>)

  /**
   * The POST checks in their order, `body` being `None` when the body is not JSON. A token that
   * does not verify makes `verifyToken` answer `null`; reading `userId` from it throws, and the
   * handler's catch turns that into a 500, not a 401.
   */
  function SaveChecks(header: string, verify: string -> Option<Payload>, body: Option<SaveRequest>): (r: Result<Save, Reply<Saved>>)
    ensures var c := Identify(Token(header), verify);
            (r.Err? && r.error.status == 401) <==> c.NoToken? || (c.Verified? && c.payload.userId == "")
    ensures var c := Identify(Token(header), verify);
            (r.Err? && r.error.status == 500) <==> c.Unverified? || (SignedIn(c) && body.None?)
    ensures var c := Identify(Token(header), verify);
            (r.Err? && r.error.status == 400) <==>
              SignedIn(c) && body.Some? && (!Truthy(body.value.courseId) || body.value.messages.None?)
    ensures r.Err? ==> r.error.status == 400 || r.error.status == 401 || r.error.status == 500
    ensures var c := Identify(Token(header), verify);
            r.Ok? ==> SignedIn(c) && r.value.userId == c.payload.userId && r.value.courseId != ""
                      && body.Some? && body.value.courseId == Some(r.value.courseId)
                      && body.value.messages == Some(r.value.messages)
  {
    match Identify(Token(header), verify)
    case NoToken => Err(Fail(401, "Authentication required"))
    case Unverified => Err(Fail(500, "Failed to save conversation"))
    case Verified(p) =>
      if p.userId == "" then Err(Fail(401, "Invalid authentication token"))
      else if body.None? then Err(Fail(500, "Failed to save conversation"))
      else if !Truthy(body.value.courseId) || body.value.messages.None? then Err(Fail(400, "Missing required fields"))
      else Ok(Save(p.userId, body.value.courseId.value, body.value.messages.value))
  }

  /** The update-or-insert: an existing row keeps its id, a new one gets `freshId`. */
  function Upsert(records: map<Key, Conversation>, s: Save, freshId: string): (m: map<Key, Conversation>)
    ensures m.Keys == records.Keys + {Key(s.userId, s.courseId)}
    ensures forall k :: k in records && k != Key(s.userId, s.courseId) ==> m[k] == records[k]
    ensures var k := Key(s.userId, s.courseId);
            m[k].messages == s.messages && m[k].id == (if k in records then records[k].id else freshId)
  {
    var k := Key(s.userId, s.courseId);
    var id := if k in records then records[k].id else freshId;
    records[k := Conversation(id, s.userId, s.courseId, s.messages)]
  }

  /** The GET answer: the stored row, or `{ messages: [] }` when there is none. */
  datatype Retrieved = Stored(conversation: Conversation) | NoMessages

  function Retrieve(records: map<Key, Conversation>, header: string, verify: string -> Option<Payload>,
                    courseId: Option<string>): (r: Reply<Retrieved>)
    ensures var c := Identify(Token(header), verify);
            c.NoToken? ==> r == Fail(401, "Authentication required")
    ensures var c := Identify(Token(header), verify);
            c.Unverified? ==> r == Fail(500, "Failed to retrieve conversation")
    ensures var c := Identify(Token(header), verify);
            c.Verified? && c.payload.userId == "" ==> r == Fail(401, "Invalid authentication token")
    ensures var c := Identify(Token(header), verify);
            SignedIn(c) && !Truthy(courseId) ==> r == Fail(400, "Course ID is required")
    ensures var c := Identify(Token(header), verify);
            r.status == 200 <==> SignedIn(c) && Truthy(courseId)
    ensures var c := Identify(Token(header), verify);
            r.status == 200 ==>
              var k := Key(c.payload.userId, courseId.value);
              r.body.Json? && (r.body.value.NoMessages? <==> k !in records)
              && (r.body.value.Stored? ==> r.body.value.conversation == records[k])
  {
    match Identify(Token(header), verify)
    case NoToken => Fail(401, "Authentication required")
    case Unverified => Fail(500, "Failed to retrieve conversation")
    case Verified(p) =>
      if p.userId == "" then Fail(401, "Invalid authentication token")
      else if !Truthy(courseId) then Fail(400, "Course ID is required")
      else
        var k := Key(p.userId, courseId.value);
        if k in records then Answer(Stored(records[k])) else Answer(NoMessages)
  }

  /** A saved chat is what the same caller reads back for that course. */
  lemma SaveThenRetrieve(records: map<Key, Conversation>, header: string, verify: string -> Option<Payload>,
                         body: Option<SaveRequest>, freshId: string)
    requires SaveChecks(header, verify, body).Ok?
    ensures var s := SaveChecks(header, verify, body).value;
            var r := Retrieve(Upsert(records, s, freshId), header, verify, Some(s.courseId));
            r.status == 200 && r.body.value.Stored? && r.body.value.conversation.messages == s.messages
  {
  }

  /** Saving again for the same user and course replaces the messages and keeps the row's id. */
  lemma SecondSaveReplaces(records: map<Key, Conversation>, s1: Save, s2: Save, id1: string, id2: string)
    requires s1.userId == s2.userId && s1.courseId == s2.courseId
    ensures Upsert(Upsert(records, s1, id1), s2, id2) == Upsert(records, s2, id1)
  {
  }

  /** The table behind the route. */
  class ConversationStore {
    var records: map<Key, Conversation>

    constructor ()
      ensures records == map[]
    {
      records := map[];
    }

    /** POST: a request that fails a check changes nothing; one that passes is upserted. */
    method Post(header: string, verify: string -> Option<Payload>, body: Option<SaveRequest>, freshId: string)
      returns (r: Reply<Saved>)
      modifies this
      ensures SaveChecks(header, verify, body).Err? ==>
                r == SaveChecks(header, verify, body).error && records == old(records)
      ensures SaveChecks(header, verify, body).Ok? ==>
                var s := SaveChecks(header, verify, body).value;
                records == Upsert(old(records), s, freshId)
                && r == Answer(Saved(true, records[Key(s.userId, s.courseId)].id))
    {
      match SaveChecks(header, verify, body)
      case Err(e) => r := e;
      case Ok(s) =>
        records := Upsert(records, s, freshId);
        r := Answer(Saved(true, records[Key(s.userId, s.courseId)].id));
    }
  }
}
