// src/app/api/assessment/learning-style/route.ts: reads and saves the caller's learning-style
// profile. The profile table is a map keyed by user id, so a user has at most one profile.
module LearningStyleRoute {
  import opened Wrappers
  import opened Http
  import opened Cookies

  function Token(header: string): Option<string>
  {
    FirstToken(header, "auth_token")
  }

  /** The four dimensions the assessment reports, as the client sends them. */
  datatype Styles = Styles(processingStyle: string, perceptionStyle: string, inputStyle: string, understandingStyle: string)

  /**
   * A stored profile. `assessmentDate` is the time of the last save; a row written by other
   * means may hold no date (`None`).
   */
  datatype StyleProfile = StyleProfile(userId: string, styles: Styles, assessmentDate: Option<int>)

  /**
   * GET's answer: `hasExistingProfile: true` with the profile and a top-level `assessmentDate`,
   * or false and a prompt to start.
   */
  datatype StartAnswer = Existing(profile: StyleProfile, assessmentDate: int) | StartAssessment(message: string)

  /**
   * GET at clock time `now`. Both handlers catch the failure of reading `userId` from a
   * rejected token themselves, so a token that does not verify is a 401 here. A verified
   * token without a user id reaches `findUnique`, which throws when neither an id nor a user
   * id is given; the outer `catch` turns that into a 500.
   */
  function Start(profiles: map<string, StyleProfile>, header: string, verify: string -> Option<Payload>, now: int)
    : (r: Reply<StartAnswer>)
    ensures !Truthy(Token(header)) ==> r == Fail(401, "Authentication required")
    ensures Identify(Token(header), verify).Unverified? ==> r == Fail(401, "Invalid authentication token")
    ensures var c := Identify(Token(header), verify);
            c.Verified? && c.payload.userId == "" ==> r == Fail(500, "Internal server error")
    ensures var c := Identify(Token(header), verify);
            r.status == 200 <==> c.Verified? && c.payload.userId != ""
    ensures var c := Identify(Token(header), verify);
            r.status == 200 ==>
              r.body.Json? && (r.body.value.Existing? <==> c.payload.userId in profiles)
              && (r.body.value.Existing? ==>
                    r.body.value.profile == profiles[c.payload.userId]
                    && (profiles[c.payload.userId].assessmentDate.Some? ==>
                          r.body.value.assessmentDate == profiles[c.payload.userId].assessmentDate.value)
                    && (profiles[c.payload.userId].assessmentDate.None? ==> r.body.value.assessmentDate == now))
  {
    match Identify(Token(header), verify)
    case NoToken => Fail(401, "Authentication required")
    case Unverified => Fail(401, "Invalid authentication token")
    case Verified(p) =>
      if p.userId == "" then Fail(500, "Internal server error")
      else if p.userId in profiles then
        var profile := profiles[p.userId];
        Answer(Existing(profile, if profile.assessmentDate.Some? then profile.assessmentDate.value else now))
      else Answer(StartAssessment("No learning profile found. Start assessment."))
  }

  /** The POST body: `None` when it is not JSON, `learningStyle` `None` when it is missing or `null`. */
  datatype SaveRequest = SaveRequest(learningStyle: Option<Styles>)

  /**
   * The POST's refusals, in order: no token, a token that does not verify, a body that is
   * not JSON, no learning style, and then `findUnique`'s throw on an empty user id.
   */
  function SaveChecks(header: string, verify: string -> Option<Payload>, body: Option<SaveRequest>): (r: Result<(string, Styles), Reply<StyleProfile>>)
    ensures !Truthy(Token(header)) ==> r == Err(Fail(401, "Authentication required"))
    ensures Identify(Token(header), verify).Unverified? ==> r == Err(Fail(401, "Invalid authentication token"))
    ensures var c := Identify(Token(header), verify);
            c.Verified? && body.None? ==> r == Err(Fail(500, "Internal server error"))
    ensures var c := Identify(Token(header), verify);
            (r.Err? && r.error.status == 400) <==> c.Verified? && body.Some? && body.value.learningStyle.None?
    ensures var c := Identify(Token(header), verify);
            c.Verified? && body.Some? && body.value.learningStyle.Some? && c.payload.userId == "" ==>
              r == Err(Fail(500, "Internal server error"))
    ensures var c := Identify(Token(header), verify);
            r.Ok? <==> c.Verified? && body.Some? && body.value.learningStyle.Some? && c.payload.userId != ""
    ensures r.Ok? ==> r.value == (Identify(Token(header), verify).payload.userId, body.value.learningStyle.value)
  {
    match Identify(Token(header), verify)
    case NoToken => Err(Fail(401, "Authentication required"))
    case Unverified => Err(Fail(401, "Invalid authentication token"))
    case Verified(p) =>
      if body.None? then Err(Fail(500, "Internal server error"))
      else if body.value.learningStyle.None? then Err(Fail(400, "Learning style data is required"))
      else if p.userId == "" then Err(Fail(500, "Internal server error"))
      else Ok((p.userId, body.value.learningStyle.value))
  }

  /** Update or create: either way the user's one profile holds the submitted styles. */
  function SaveProfile(profiles: map<string, StyleProfile>, userId: string, styles: Styles, now: int): (m: map<string, StyleProfile>)
    ensures m.Keys == profiles.Keys + {userId}
    ensures m[userId].userId == userId && m[userId].styles == styles && m[userId].assessmentDate == Some(now)
    ensures forall u :: u in profiles && u != userId ==> m[u] == profiles[u]
  {
    profiles[userId := StyleProfile(userId, styles, Some(now))]
  }

  /** After a save the next GET by the same caller finds the saved styles and the save time. */
  lemma SaveThenStart(profiles: map<string, StyleProfile>, header: string, verify: string -> Option<Payload>,
                      body: Option<SaveRequest>, now: int, later: int)
    requires SaveChecks(header, verify, body).Ok?
    ensures var (userId, styles) := SaveChecks(header, verify, body).value;
            var r := Start(SaveProfile(profiles, userId, styles, now), header, verify, later);
            r.status == 200 && r.body.value.Existing? && r.body.value.profile.styles == styles
            && r.body.value.assessmentDate == now
  {
  }

  class ProfileStore {
    var profiles: map<string, StyleProfile>

    constructor ()
      ensures profiles == map[]
    {
      profiles := map[];
    }

    /** POST at clock time `now`: a refused request changes nothing. */
    method Post(header: string, verify: string -> Option<Payload>, body: Option<SaveRequest>, now: int)
      returns (r: Reply<StyleProfile>)
      modifies this
      ensures SaveChecks(header, verify, body).Err? ==>
                r == SaveChecks(header, verify, body).error && profiles == old(profiles)
      ensures SaveChecks(header, verify, body).Ok? ==>
                var (userId, styles) := SaveChecks(header, verify, body).value;
                profiles == SaveProfile(old(profiles), userId, styles, now)
                && r == Answer(profiles[userId])
    {
      match SaveChecks(header, verify, body)
      case Err(e) => r := e;
      case Ok((userId, styles)) =>
        profiles := SaveProfile(profiles, userId, styles, now);
        r := Answer(profiles[userId]);
    }
  }
}
