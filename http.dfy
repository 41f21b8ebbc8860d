// What the API route handlers share: the token payload, the shape of their answers and the
// Cookie-header readers each route file carries its own copy of.
module Http {
  import opened Wrappers

  /** The claims `verifyToken` gives back for a good token; "" stands for an absent claim. */
  datatype Payload = Payload(userId: string, email: string, role: string)

  /** A handler's JSON answer: an `{ error }` object or the value it returns. */
  datatype Body<T> = Error(message: string) | Json(value: T)

  datatype Reply<T> = Reply(status: nat, body: Body<T>)

  function Fail<T>(status: nat, message: string): (r: Reply<T>)
    ensures r.status == status && r.body == Error(message)
  {
    Reply(status, Error(message))
  }

  function Answer<T>(value: T): (r: Reply<T>)
    ensures r.status == 200 && r.body == Json(value)
  {
    Reply(200, Json(value))
  }

  /** A string that may be `null` or `undefined`, as a JavaScript condition sees it. */
  predicate Truthy(s: Option<string>)
  {
    s.Some? && s.value != ""
  }

  /**
   * Who sent a request, as far as its token tells: no usable token, a token `verifyToken`
   * rejects (it answers `null`), or the claims of a token it accepts.
   */
  datatype Caller = NoToken | Unverified | Verified(payload: Payload)

  /** `verify` stands for `verifyToken`; an absent or empty token is never verified. */
  function Identify(token: Option<string>, verify: string -> Option<Payload>): (c: Caller)
    ensures c.NoToken? <==> !Truthy(token)
    ensures c.Unverified? <==> Truthy(token) && verify(token.value).None?
    ensures c.Verified? <==> Truthy(token) && verify(token.value).Some?
    ensures c.Verified? ==> verify(token.value) == Some(c.payload)
  {
    if !Truthy(token) then NoToken
    else
      match verify(token.value)
      case None => Unverified
      case Some(p) => Verified(p)
  }

  /** The caller's user id when the token verified and carries a non-empty one. */
  predicate SignedIn(c: Caller)
  {
    c.Verified? && c.payload.userId != ""
  }

  /** `s || fallback`: a missing or empty string gives way to the fallback. */
  function OrElse(s: Option<string>, fallback: string): (r: string)
    ensures Truthy(s) ==> r == s.value
    ensures !Truthy(s) ==> r == fallback
  {
    if Truthy(s) then s.value else fallback
  }

  /** `s || null`. */
  function OrNull(s: Option<string>): (r: Option<string>)
    ensures Truthy(s) ==> r == s
    ensures !Truthy(s) ==> r == None
  {
    if Truthy(s) then s else None
  }
}
