// src/app/api/auth/check/route.ts: reports whether the `auth_token` cookie holds a good token.
// Every answer, the negative ones included, has status 200.
module AuthCheckRoute {
  import opened Wrappers
  import opened Http
  import opened Cookies

  datatype CheckAnswer = CheckAnswer(authenticated: bool, user: Option<Payload>, message: string)

  /** The token this route reads: the `reduce` dictionary's entry, last segment winning. */
  function Token(header: string): Option<string>
  {
    LastOrUndefined(header, "auth_token")
  }

  function Check(header: string, verify: string -> Option<Payload>): (r: Reply<CheckAnswer>)
    ensures r.status == 200 && r.body.Json?
    ensures r.body.value.authenticated <==> Identify(Token(header), verify).Verified?
    ensures r.body.value.user.Some? <==> r.body.value.authenticated
    ensures !Truthy(Token(header)) ==> r.body.value.message == "No auth token found"
    ensures Identify(Token(header), verify).Unverified? ==> r.body.value.message == "Invalid token"
    ensures Identify(Token(header), verify).Verified? ==>
              r.body.value.user == verify(Token(header).value) && r.body.value.message == "Valid token found"
  {
    match Identify(Token(header), verify)
    case NoToken => Answer(CheckAnswer(false, None, "No auth token found"))
    case Unverified => Answer(CheckAnswer(false, None, "Invalid token"))
    case Verified(p) => Answer(CheckAnswer(true, Some(Payload(p.userId, p.email, p.role)), "Valid token found"))
  }
}

// src/app/api/auth/me/route.ts: the signed-in user's record, looked up by the token's user id.
module AuthMeRoute {
  import opened Wrappers
  import opened Http
  import opened Cookies

  /** The selected columns of a user row. */
  datatype User = User(id: string, name: string, email: string, image: Option<string>, role: string, createdAt: int)

  function Token(header: string): Option<string>
  {
    LastOrUndefined(header, "auth_token")
  }

  /** `users` stands for the user table, keyed by id. */
  function Me(header: string, verify: string -> Option<Payload>, users: map<string, User>): (r: Reply<User>)
    ensures !Truthy(Token(header)) ==> r == Fail(401, "Authentication required")
    ensures Identify(Token(header), verify).Unverified? ==> r == Fail(401, "Invalid token")
    ensures r.status == 404 <==>
              Identify(Token(header), verify).Verified? && Identify(Token(header), verify).payload.userId !in users
    ensures r.status == 404 ==> r.body == Error("User not found")
    ensures r.status == 200 <==>
              Identify(Token(header), verify).Verified? && Identify(Token(header), verify).payload.userId in users
    ensures r.status == 200 ==> r.body == Json(users[Identify(Token(header), verify).payload.userId])
  {
    match Identify(Token(header), verify)
    case NoToken => Fail(401, "Authentication required")
    case Unverified => Fail(401, "Invalid token")
    case Verified(p) =>
      if p.userId in users then Answer(users[p.userId]) else Fail(404, "User not found")
  }
}
