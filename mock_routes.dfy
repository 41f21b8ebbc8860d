// src/app/api/learning-profiles/route.ts: the learning profiles of the user named in the query,
// for that user only; the answer is a fixed pair of sample profiles.
module LearningProfilesRoute {
  import opened Wrappers
  import opened Http
  import opened Cookies

  function Token(header: string): Option<string>
  {
    LastOrNull(header, "auth_token")
  }

  datatype SampleProfile = SampleProfile(id: string, userId: string, processingStyle: string, understandingStyle: string,
                                         perceptionStyle: string, inputStyle: string, createdAt: int)

  const DayMillis: int := 86400000

  /** The two sample rows for `userId`, created now and a day earlier (`now` in milliseconds). */
  function Samples(userId: string, now: int): (r: seq<SampleProfile>)
    ensures |r| == 2 && r[0].userId == userId && r[1].userId == userId
    ensures r[0].id != r[1].id
    ensures r[0].createdAt == now && r[1].createdAt == now - DayMillis
  {
    [SampleProfile("1a2b3c4d-5e6f-7a8b-9c0d-1e2f3a4b5c6d", userId, "visual", "logical", "global", "active", now),
     SampleProfile("2b3c4d5e-6f7a-8b9c-0d1e-2f3a4b5c6d7e", userId, "verbal", "intuitive", "sequential", "reflective", now - DayMillis)]
  }

  const Forbidden: string := "Unauthorized: You can only access your own learning profiles"

  /** The query's `userId` is checked first, before the cookie is looked at. */
  function List(userId: Option<string>, header: string, verify: string -> Option<Payload>, now: int): (r: Reply<seq<SampleProfile>>)
    ensures !Truthy(userId) ==> r == Fail(400, "User ID is required")
    ensures Truthy(userId) && !Truthy(Token(header)) ==> r == Fail(401, "Authentication required")
    ensures r.status == 403 <==>
              Truthy(userId) && Truthy(Token(header)) && !(SignedIn(Identify(Token(header), verify))
                && Identify(Token(header), verify).payload.userId == userId.value)
    ensures r.status == 403 ==> r.body == Error(Forbidden)
    ensures r.status == 200 <==>
              Truthy(userId) && Identify(Token(header), verify).Verified?
              && Identify(Token(header), verify).payload.userId == userId.value
    ensures r.status == 200 ==> r.body == Json(Samples(userId.value, now))
  {
    if !Truthy(userId) then Fail(400, "User ID is required")
    else
      match Identify(Token(header), verify)
      case NoToken => Fail(401, "Authentication required")
      case Unverified => Fail(403, Forbidden)
      case Verified(p) =>
        if p.userId == "" || p.userId != userId.value then Fail(403, Forbidden)
        else Answer(Samples(userId.value, now))
  }

  /** Whatever the cookie holds, every profile handed out carries the requested id. */
  lemma ProfilesAreTheRequestedUsers(userId: Option<string>, header: string, verify: string -> Option<Payload>, now: int)
    requires List(userId, header, verify, now).body.Json?
    ensures forall p :: p in List(userId, header, verify, now).body.value ==> p.userId == userId.value
    ensures verify(Token(header).value).value.userId == userId.value
  {
  }
}

// src/app/api/user/enrolled-courses/route.ts: the caller's enrolled courses; the answer is a
// fixed list of two sample courses.
module EnrolledCoursesRoute {
  import opened Wrappers
  import opened Http
  import opened Cookies

  function Token(header: string): Option<string>
  {
    LastOrNull(header, "auth_token")
  }

  datatype Chapter = Chapter(id: string, title: string, courseId: string, description: string, order: nat)

  datatype Course = Course(id: string, title: string, description: string, imageUrl: string, chapters: seq<Chapter>)

  const IntroId: string := "a1c2e3f4-5678-4abc-9def-0123456789ab"
  const WebDevId: string := "b2d3e4f5-6789-5bcd-0def-1234567890bc"

  const Enrolled: seq<Course> := [
    Course(IntroId, "Introduction to Computer Science", "Learn the basics of computer science and programming",
      "/images/courses/cs-intro.jpg",
      [Chapter("ch1-cs101", "Getting Started with Programming", IntroId, "Learn about the fundamentals of programming", 1),
       Chapter("ch2-cs101", "Variables and Data Types", IntroId, "Understanding variables and basic data types", 2)]),
    Course(WebDevId, "Web Development Fundamentals", "Learn HTML, CSS, and JavaScript to build web applications",
      "/images/courses/web-dev.jpg",
      [Chapter("ch1-webdev", "HTML Basics", WebDevId, "Introduction to HTML and document structure", 1),
       Chapter("ch2-webdev", "CSS Styling", WebDevId, "Learn how to style your web pages with CSS", 2)])
  ]

  /** Each chapter names the course it is listed under, and chapters are numbered from 1 in order. */
  predicate WellFormed(courses: seq<Course>)
  {
    forall i, j :: 0 <= i < |courses| && 0 <= j < |courses[i].chapters| ==>
      courses[i].chapters[j].courseId == courses[i].id && courses[i].chapters[j].order == j + 1
  }

  function List(header: string, verify: string -> Option<Payload>): (r: Reply<seq<Course>>)
    ensures !Truthy(Token(header)) ==> r == Fail(401, "Authentication required")
    ensures Truthy(Token(header)) && !SignedIn(Identify(Token(header), verify)) ==>
              r == Fail(401, "Invalid authentication token")
    ensures r.status == 200 <==> SignedIn(Identify(Token(header), verify))
    ensures r.status == 200 ==> r.body.Json? && |r.body.value| == 2 && WellFormed(r.body.value)
    ensures r.status == 200 ==> r.body.value[0].id != r.body.value[1].id
  {
    var c := Identify(Token(header), verify);
    if !Truthy(Token(header)) then Fail(401, "Authentication required")
    else if !SignedIn(c) then Fail(401, "Invalid authentication token")
    else
      EnrolledWellFormed();
      Answer(Enrolled)
  }

  lemma EnrolledWellFormed()
    ensures WellFormed(Enrolled)
  {
    forall i, j | 0 <= i < |Enrolled| && 0 <= j < |Enrolled[i].chapters|
      ensures Enrolled[i].chapters[j].courseId == Enrolled[i].id && Enrolled[i].chapters[j].order == j + 1
    {
      assert i == 0 || i == 1;
      assert j == 0 || j == 1;
    }
  }
}
