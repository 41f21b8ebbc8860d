// src/middleware.ts: the request filter in front of every page and API route. A public path
// passes; otherwise the `auth_token` cookie must hold a token that verifies, and a request
// without one is answered 401 on an API route and redirected to the login page elsewhere.
module Middleware {
  import opened Text
  import opened Wrappers
  import opened Http

  const PublicPaths: seq<string> := [
    "/", "/auth/login", "/auth/signup", "/auth/forgot-password", "/auth/reset-password",
    "/api/auth/login", "/api/auth/signup", "/api/auth/logout", "/api/auth/me"
  ]

  /** `publicPaths.some(p => path === p || path.startsWith(p))`, over any list of entries. */
  predicate SomeEntryMatches(entries: seq<string>, path: string)
  {
    exists i :: 0 <= i < |entries| && (path == entries[i] || StartsWith(path, entries[i]))
  }

  predicate IsPublicPath(path: string)
  {
    SomeEntryMatches(PublicPaths, path)
  }

  predicate IsApiRoute(path: string)
  {
    StartsWith(path, "/api/")
  }

  /** What the filter does with a request. */
  datatype Outcome = Next | Unauthorized(error: string) | RedirectToLogin(callbackUrl: string)

  /**
   * The decision once it is known whether the path is public; `token` is the cookie's value
   * (absent or empty counts as missing) and `verify` stands for `verifyToken`.
   */
  function Decide(path: string, isPublic: bool, token: Option<string>, verify: string -> Option<Payload>): (r: Outcome)
    ensures isPublic ==> r == Next
    ensures !isPublic && !Truthy(token) ==>
              r == if IsApiRoute(path) then Unauthorized("Unauthorized") else RedirectToLogin(path)
    ensures !isPublic && Truthy(token) && verify(token.value).None? ==>
              r == if IsApiRoute(path) then Unauthorized("Invalid token") else RedirectToLogin(path)
    ensures r == Next <==> isPublic || (Truthy(token) && verify(token.value).Some?)
  {
    if isPublic then Next
    else
      match Identify(token, verify)
      case NoToken => if IsApiRoute(path) then Unauthorized("Unauthorized") else RedirectToLogin(path)
      case Unverified => if IsApiRoute(path) then Unauthorized("Invalid token") else RedirectToLogin(path)
      case Verified(_) => Next
  }

  /** `middleware` as written. */
  function Filter(path: string, token: Option<string>, verify: string -> Option<Payload>): Outcome
  {
    Decide(path, IsPublicPath(path), token, verify)
  }

  /** Because "/" is an entry and entries match as prefixes, a path is public iff it starts with '/'. */
  lemma PublicIffRooted(path: string)
    ensures IsPublicPath(path) <==> StartsWith(path, "/")
  {
    if StartsWith(path, "/") {
      assert path == PublicPaths[0] || StartsWith(path, PublicPaths[0]);
    }
    if IsPublicPath(path) {
      var i :| 0 <= i < |PublicPaths| && (path == PublicPaths[i] || StartsWith(path, PublicPaths[i]));
      MatchKeepsRoot(path, PublicPaths[i]);
    }
  }

  /** A path that equals or extends an entry beginning with '/' begins with '/' itself. */
  lemma MatchKeepsRoot(path: string, entry: string)
    requires path == entry || StartsWith(path, entry)
    requires |entry| >= 1 && entry[0] == '/'
    ensures StartsWith(path, "/")
  {
    assert path[0] == entry[0];
    assert path[..1] == "/";
  }

  /** Prefix matching also opens paths that merely begin like an entry, such as "/auth/loginX". */
  lemma PrefixOfEntryIsPublic(suffix: string)
    ensures IsPublicPath("/auth/login" + suffix)
  {
    assert ("/auth/login" + suffix)[..|"/auth/login"|] == "/auth/login";
    assert StartsWith("/auth/login" + suffix, PublicPaths[1]);
  }

  /** Every request path lets the request through whatever its token, API routes included. */
  lemma EveryRequestPasses(path: string, token: Option<string>, verify: string -> Option<Payload>)
    requires StartsWith(path, "/")
    ensures Filter(path, token, verify) == Next
  {
    PublicIffRooted(path);
  }

  /** An API route begins with '/', so the filter's 401 answers are never given. */
  lemma ApiRoutesNeverRefused(path: string, token: Option<string>, verify: string -> Option<Payload>)
    requires IsApiRoute(path)
    ensures Filter(path, token, verify) == Next
  {
    assert path[..1] == path[..5][..1];
    PublicIffRooted(path);
  }

  /** The evident intent: "/" is public as itself only; the other entries match as written. */
  predicate IsPublicPathIntended(path: string)
  {
    path == "/" || SomeEntryMatches(PublicPaths[1..], path)
  }

  function FilterIntended(path: string, token: Option<string>, verify: string -> Option<Payload>): (r: Outcome)
    ensures r == Next ==> path == "/" || StartsWith(path, "/auth/") || StartsWith(path, "/api/auth/")
                          || (Truthy(token) && verify(token.value).Some?)
  {
    IntendedPublicIsAuth(path);
    Decide(path, IsPublicPathIntended(path), token, verify)
  }

  /** With the intended list a page outside it is guarded: no token means a login redirect. */
  lemma IntendedGuardsPages(token: Option<string>, verify: string -> Option<Payload>)
    requires !Truthy(token)
    ensures Filter("/dashboard", token, verify) == Next
    ensures FilterIntended("/dashboard", token, verify) == RedirectToLogin("/dashboard")
  {
    PublicIffRooted("/dashboard");
    assert "/dashboard"[..1] == "/";
    assert "/dashboard"[1] != "/api/"[1];
    assert !IsPublicPathIntended("/dashboard") by {
      forall i | 0 <= i < |PublicPaths[1..]|
        ensures !("/dashboard" == PublicPaths[1..][i] || StartsWith("/dashboard", PublicPaths[1..][i]))
      {
        assert i == 0 || i == 1 || i == 2 || i == 3 || i == 4 || i == 5 || i == 6 || i == 7;
        assert PublicPaths[1..][i][1] != "/dashboard"[1];
      }
    }
  }

  /** With the intended list an API route outside it is refused with 401 when its token fails. */
  lemma IntendedGuardsApi(token: Option<string>, verify: string -> Option<Payload>)
    requires Truthy(token) && verify(token.value).None?
    ensures Filter("/api/courses", token, verify) == Next
    ensures FilterIntended("/api/courses", token, verify) == Unauthorized("Invalid token")
  {
    PublicIffRooted("/api/courses");
    assert "/api/courses"[..1] == "/";
    assert IsApiRoute("/api/courses") by {
      assert "/api/courses"[..5] == "/api/";
    }
    assert !IsPublicPathIntended("/api/courses") by {
      forall i | 0 <= i < |PublicPaths[1..]|
        ensures !("/api/courses" == PublicPaths[1..][i] || StartsWith("/api/courses", PublicPaths[1..][i]))
      {
        var e := PublicPaths[1..][i];
        assert i == 0 || i == 1 || i == 2 || i == 3 || i == 4 || i == 5 || i == 6 || i == 7;
        assert |e| > 5 && (e[2] != "/api/courses"[2] || e[5] != "/api/courses"[5]);
      }
    }
  }

  /** A prefix of a prefix is a prefix. */
  lemma PrefixTrans(s: string, e: string, p: string)
    requires StartsWith(s, e) && StartsWith(e, p)
    ensures StartsWith(s, p)
  {
    assert s[..|p|] == s[..|e|][..|p|];
  }

  /** Under the intended list only the root itself and the auth pages and routes skip the token check. */
  lemma IntendedPublicIsAuth(path: string)
    ensures IsPublicPathIntended(path) ==>
              path == "/" || StartsWith(path, "/auth/") || StartsWith(path, "/api/auth/")
  {
    if IsPublicPathIntended(path) && path != "/" {
      var es := PublicPaths[1..];
      var i :| 0 <= i < |es| && (path == es[i] || StartsWith(path, es[i]));
      var e := es[i];
      assert i < 4 ==> e[..6] == "/auth/";
      assert i >= 4 ==> e[..10] == "/api/auth/";
      if i < 4 {
        PrefixTrans(path, e, "/auth/");
      } else {
        PrefixTrans(path, e, "/api/auth/");
      }
    }
  }
}
