// The client-side store: the courses slice and the profile slice with their reducers, the
// five-minute staleness rule both use, and the courses hook built on them.

// The five-minute rule that decides whether cached data is fetched again.
module Freshness {
  import opened Wrappers

  const MaxAge: int := 300000

  /**
   * A timestamp that is missing or 0 (JavaScript treats both as false) always asks for a
   * fetch; otherwise a fetch is due once the data is more than five minutes old.
   */
  function Stale(last: Option<int>, now: int): (r: bool)
    ensures last.None? || last == Some(0) ==> r
    ensures last.Some? && last.value != 0 ==> (r <==> now - last.value > MaxAge)
  {
    match last
    case None => true
    case Some(t) => t == 0 || now - t > 300000
  }

  /** Data fetched exactly five minutes ago is still fresh; one millisecond later it is stale. */
  lemma FiveMinuteBoundary(t: int)
    requires t != 0
    ensures !Stale(Some(t), t + 300000)
    ensures Stale(Some(t), t + 300001)
  {
  }
}

module CoursesSlice {
  import opened Wrappers
  import opened Sequences

  /** A course record; the descriptive fields the reducers never read are not modelled. */
  datatype Course = Course(id: string, title: string, category: string, level: string, isEnrolled: Option<bool>)

  /** The five requests the slice tracks, each with its own loading flag and error. */
  datatype Request = AllCourses | EnrolledCourses | CourseDetails | Enrollment | Withdrawal

  /** One value per request: the `loading` and `error` sub-objects. */
  datatype PerRequest<T> = PerRequest(allCourses: T, enrolledCourses: T, courseDetails: T, enrollment: T, withdrawal: T)
  {
    function Get(r: Request): T
    {
      match r
      case AllCourses => allCourses
      case EnrolledCourses => enrolledCourses
      case CourseDetails => courseDetails
      case Enrollment => enrollment
      case Withdrawal => withdrawal
    }

    function Set(r: Request, v: T): (p: PerRequest<T>)
      ensures p.Get(r) == v
      ensures forall o :: o != r ==> p.Get(o) == Get(o)
    {
      match r
      case AllCourses => this.(allCourses := v)
      case EnrolledCourses => this.(enrolledCourses := v)
      case CourseDetails => this.(courseDetails := v)
      case Enrollment => this.(enrollment := v)
      case Withdrawal => this.(withdrawal := v)
    }
  }

  function Uniform<T>(v: T): (p: PerRequest<T>)
    ensures forall r :: p.Get(r) == v
  {
    PerRequest(v, v, v, v, v)
  }

  /** `courses.map(c => c.id === id ? { ...c, isEnrolled: flag } : c)`. */
  function MarkEnrolled(courses: seq<Course>, id: string, flag: bool): (r: seq<Course>)
    ensures |r| == |courses|
    ensures forall i :: 0 <= i < |courses| && courses[i].id == id ==> r[i] == courses[i].(isEnrolled := Some(flag))
    ensures forall i :: 0 <= i < |courses| && courses[i].id != id ==> r[i] == courses[i]
  {
    if courses == [] then []
    else
      var head := if courses[0].id == id then courses[0].(isEnrolled := Some(flag)) else courses[0];
      [head] + MarkEnrolled(courses[1..], id, flag)
  }

  /** `courses.find(c => c.id === id)`: the first course with that id. */
  function FindById(courses: seq<Course>, id: string): (r: Option<Course>)
    ensures r.None? <==> forall i :: 0 <= i < |courses| ==> courses[i].id != id
    ensures r.Some? ==> r.value in courses && r.value.id == id
  {
    if courses == [] then None
    else if courses[0].id == id then Some(courses[0])
    else
      var r := FindById(courses[1..], id);
      assert forall i :: 1 <= i < |courses| ==> courses[i] == courses[1..][i - 1];
      r
  }

  /** What is found is the entry at the first position holding the id. */
  lemma {:induction false} FindByIdFirst(courses: seq<Course>, id: string, i: nat)
    requires i < |courses| && courses[i].id == id
    requires forall j :: 0 <= j < i ==> courses[j].id != id
    ensures FindById(courses, id) == Some(courses[i])
  {
    if i > 0 {
      assert forall j :: 0 <= j < i - 1 ==> courses[1..][j] == courses[j + 1];
      FindByIdFirst(courses[1..], id, i - 1);
    }
  }

  /** `courses.filter(c => c.id !== id)`. */
  function WithoutId(courses: seq<Course>, id: string): (r: seq<Course>)
    ensures |r| <= |courses|
    ensures forall c :: c in r <==> c in courses && c.id != id
  {
    if courses == [] then []
    else if courses[0].id == id then WithoutId(courses[1..], id)
    else [courses[0]] + WithoutId(courses[1..], id)
  }

  /** How many entries carry the id. */
  function CountId(courses: seq<Course>, id: string): (n: nat)
    ensures n <= |courses|
    ensures n == 0 <==> forall i :: 0 <= i < |courses| ==> courses[i].id != id
  {
    if courses == [] then 0
    else
      var n := (if courses[0].id == id then 1 else 0) + CountId(courses[1..], id);
      assert forall i :: 1 <= i < |courses| ==> courses[i] == courses[1..][i - 1];
      n
  }

  /** Withdrawal keeps the other enrolments in their order and drops every entry with the id. */
  lemma {:induction false} WithoutIdInOrder(courses: seq<Course>, id: string)
    ensures Subsequence(WithoutId(courses, id), courses)
    ensures |WithoutId(courses, id)| == |courses| - CountId(courses, id)
  {
    if courses != [] {
      WithoutIdInOrder(courses[1..], id);
      var w := WithoutId(courses, id);
      if courses[0].id != id {
        assert w[0] == courses[0] && w[1..] == WithoutId(courses[1..], id);
      } else {
        SubsequenceSkip(w, courses);
      }
    }
  }

  /** The slice's whole state. */
  datatype CoursesState = CoursesState(
    allCourses: seq<Course>,
    enrolledCourses: seq<Course>,
    selectedCourse: Option<Course>,
    loading: PerRequest<bool>,
    error: PerRequest<Option<string>>,
    lastFetchedAll: Option<int>,
    lastFetchedEnrolled: Option<int>)

  const InitialState := CoursesState([], [], None, Uniform(false), Uniform(None), None, None)

  /**
   * The courses slice as a store whose reducers change it in place, as Immer lets the
   * slice's case reducers do. Date.now() is passed in as `now`.
   */
  class CoursesStore {
    var allCourses: seq<Course>
    var enrolledCourses: seq<Course>
    var selectedCourse: Option<Course>
    var loading: PerRequest<bool>
    var error: PerRequest<Option<string>>
    var lastFetchedAll: Option<int>
    var lastFetchedEnrolled: Option<int>

    function State(): CoursesState
      reads this
    {
      CoursesState(allCourses, enrolledCourses, selectedCourse, loading, error, lastFetchedAll, lastFetchedEnrolled)
    }

    constructor ()
      ensures State() == InitialState
    {
      allCourses, enrolledCourses, selectedCourse := [], [], None;
      loading, error := Uniform(false), Uniform(None);
      lastFetchedAll, lastFetchedEnrolled := None, None;
    }

    method SetSelectedCourse(course: Option<Course>)
      modifies this
      ensures State() == old(State()).(selectedCourse := course)
    {
      selectedCourse := course;
    }

    /** clearErrors: all five errors become null and nothing else moves. */
    method ClearErrors()
      modifies this
      ensures State() == old(State()).(error := Uniform(None))
    {
      error := Uniform(None);
    }

    /** resetCoursesState: the initial state, whatever came before. */
    method Reset()
      modifies this
      ensures State() == InitialState
    {
      allCourses, enrolledCourses, selectedCourse := [], [], None;
      loading, error := Uniform(false), Uniform(None);
      lastFetchedAll, lastFetchedEnrolled := None, None;
    }

    /** Every pending case: its own loading flag on and its own error cleared. */
    method Pending(r: Request)
      modifies this
      ensures State() == old(State()).(loading := old(loading).Set(r, true), error := old(error).Set(r, None))
    {
      loading := loading.Set(r, true);
      error := error.Set(r, None);
    }

    /** Every rejected case: its own loading flag off and the rejection payload as its error. */
    method Rejected(r: Request, payload: string)
      modifies this
      ensures State() == old(State()).(loading := old(loading).Set(r, false), error := old(error).Set(r, Some(payload)))
    {
      loading := loading.Set(r, false);
      error := error.Set(r, Some(payload));
    }

    method FetchAllFulfilled(courses: seq<Course>, now: int)
      modifies this
      ensures State() == old(State()).(allCourses := courses, loading := old(loading).Set(AllCourses, false),
                                       lastFetchedAll := Some(now))
    {
      allCourses := courses;
      loading := loading.Set(AllCourses, false);
      lastFetchedAll := Some(now);
    }

    method FetchEnrolledFulfilled(courses: seq<Course>, now: int)
      modifies this
      ensures State() == old(State()).(enrolledCourses := courses, loading := old(loading).Set(EnrolledCourses, false),
                                       lastFetchedEnrolled := Some(now))
    {
      enrolledCourses := courses;
      loading := loading.Set(EnrolledCourses, false);
      lastFetchedEnrolled := Some(now);
    }

    method CourseDetailsFulfilled(course: Course)
      modifies this
      ensures State() == old(State()).(selectedCourse := Some(course), loading := old(loading).Set(CourseDetails, false))
    {
      selectedCourse := Some(course);
      loading := loading.Set(CourseDetails, false);
    }

    /**
     * enrollInCourse.fulfilled: mark the course enrolled in the catalogue and in the selection,
     * then append the catalogue's copy to the enrolled list, even when it is already there.
     */
    method EnrollFulfilled(courseId: string)
      modifies this
      ensures State() == old(State()).(allCourses := MarkEnrolled(old(allCourses), courseId, true),
                                       selectedCourse := MarkSelected(old(selectedCourse), courseId, true),
                                       enrolledCourses := old(enrolledCourses)
                                                          + EnrolledCopy(MarkEnrolled(old(allCourses), courseId, true), courseId),
                                       loading := old(loading).Set(Enrollment, false))
    {
      allCourses := MarkEnrolled(allCourses, courseId, true);
      selectedCourse := MarkSelected(selectedCourse, courseId, true);
      enrolledCourses := enrolledCourses + EnrolledCopy(allCourses, courseId);
      loading := loading.Set(Enrollment, false);
    }

    /** withdrawFromCourse.fulfilled: unmark the course and drop it from the enrolled list. */
    method WithdrawFulfilled(courseId: string)
      modifies this
      ensures State() == old(State()).(allCourses := MarkEnrolled(old(allCourses), courseId, false),
                                       enrolledCourses := WithoutId(old(enrolledCourses), courseId),
                                       selectedCourse := MarkSelected(old(selectedCourse), courseId, false),
                                       loading := old(loading).Set(Withdrawal, false))
    {
      allCourses := MarkEnrolled(allCourses, courseId, false);
      enrolledCourses := WithoutId(enrolledCourses, courseId);
      selectedCourse := MarkSelected(selectedCourse, courseId, false);
      loading := loading.Set(Withdrawal, false);
    }
  }

  /** The selected course, re-flagged when it is the one enrolled in or withdrawn from. */
  function MarkSelected(selected: Option<Course>, id: string, flag: bool): (r: Option<Course>)
    ensures r.Some? <==> selected.Some?
    ensures r.Some? && selected.value.id == id ==> r.value == selected.value.(isEnrolled := Some(flag))
    ensures r.Some? && selected.value.id != id ==> r == selected
  {
    if selected.Some? && selected.value.id == id then Some(selected.value.(isEnrolled := Some(flag))) else selected
  }

  /** The enrolled copy of the catalogue's course with that id: one entry, or none when it is missing. */
  function EnrolledCopy(courses: seq<Course>, id: string): (r: seq<Course>)
    ensures |r| <= 1
    ensures r == [] <==> forall i :: 0 <= i < |courses| ==> courses[i].id != id
    ensures r != [] ==> r[0].id == id && r[0].isEnrolled == Some(true)
  {
    match FindById(courses, id)
    case Some(c) => [c.(isEnrolled := Some(true))]
    case None => []
  }

  /** Enrolment appends nothing exactly when the catalogue has no course with the id. */
  lemma EnrollAppendsOnce(all: seq<Course>, courseId: string)
    ensures EnrolledCopy(MarkEnrolled(all, courseId, true), courseId) == [] <==>
              forall i :: 0 <= i < |all| ==> all[i].id != courseId
  {
    var marked := MarkEnrolled(all, courseId, true);
    assert forall i :: 0 <= i < |all| ==> marked[i].id == all[i].id;
  }

  /** What enrolment appends is the enrolled copy of the catalogue's first course with the id. */
  lemma EnrollCopiesFirst(all: seq<Course>, courseId: string, i: nat)
    requires i < |all| && all[i].id == courseId
    requires forall j :: 0 <= j < i ==> all[j].id != courseId
    ensures EnrolledCopy(MarkEnrolled(all, courseId, true), courseId) == [all[i].(isEnrolled := Some(true))]
  {
    var marked := MarkEnrolled(all, courseId, true);
    assert forall j :: 0 <= j < i ==> marked[j].id == all[j].id;
    FindByIdFirst(marked, courseId, i);
  }

  /** Enrolling in a course that is already enrolled adds a second copy of it. */
  lemma EnrollTwiceDuplicates(c: Course)
    ensures var enrolled := [c.(isEnrolled := Some(true))];
            enrolled + EnrolledCopy(MarkEnrolled(enrolled, c.id, true), c.id) == enrolled + enrolled
  {
    var enrolled := [c.(isEnrolled := Some(true))];
    EnrollCopiesFirst(enrolled, c.id, 0);
  }

  /** Marking keeps the catalogue's order and identities: ids are unchanged position by position. */
  lemma MarkKeepsIds(courses: seq<Course>, id: string, flag: bool)
    ensures forall i :: 0 <= i < |courses| ==> MarkEnrolled(courses, id, flag)[i].id == courses[i].id
    ensures forall i :: 0 <= i < |courses| ==>
              MarkEnrolled(courses, id, flag)[i].(isEnrolled := courses[i].isEnrolled) == courses[i]
  {
  }

  /** After withdrawal no enrolled entry has the withdrawn id, and every other entry stays. */
  lemma WithdrawRemovesOnlyThatCourse(enrolled: seq<Course>, courseId: string, c: Course)
    requires c in enrolled && c.id != courseId
    ensures c in WithoutId(enrolled, courseId)
    ensures forall d :: d in WithoutId(enrolled, courseId) ==> d.id != courseId
  {
  }
}

// The courses hook: the staleness test per tab and the boolean results of enrol and withdraw.
module CoursesHook {
  import opened Wrappers
  import Freshness
  import CoursesSlice

  datatype Tab = All | Enrolled

  /** shouldRefreshData: the tab's own timestamp decides. */
  function ShouldRefreshData(state: CoursesSlice.CoursesState, tab: Tab, now: int): (r: bool)
    ensures tab == All ==> r == Freshness.Stale(state.lastFetchedAll, now)
    ensures tab == Enrolled ==> r == Freshness.Stale(state.lastFetchedEnrolled, now)
  {
    var last := if tab == All then state.lastFetchedAll else state.lastFetchedEnrolled;
    Freshness.Stale(last, now)
  }

  /** The result of a dispatched thunk after `unwrap`: fulfilled, or rejected with a message. */
  datatype Outcome = Fulfilled | Rejected(message: string)

  /** enrollCourse and withdrawCourse: true exactly when the thunk fulfilled. */
  function Succeeded(o: Outcome): (r: bool)
    ensures r <==> o.Fulfilled?
  {
    match o
    case Fulfilled => true
    case Rejected(_) => false
  }

  /** A freshly fetched tab is not refreshed again for five minutes, and the other tab is not affected. */
  lemma FetchedTabIsFresh(state: CoursesSlice.CoursesState, fetchedAt: int, now: int)
    requires fetchedAt != 0 && fetchedAt <= now <= fetchedAt + 300000
    ensures !ShouldRefreshData(state.(lastFetchedAll := Some(fetchedAt)), All, now)
    ensures ShouldRefreshData(state.(lastFetchedAll := Some(fetchedAt)), Enrolled, now)
            == ShouldRefreshData(state, Enrolled, now)
  {
  }
}

module ProfileSlice {
  import opened Wrappers
  import Freshness

  datatype LearningStyle = LearningStyle(processingStyle: string, perceptionStyle: string, inputStyle: string, understandingStyle: string)

  /** A user profile; name, email and image are carried through untouched. */
  datatype UserProfile = UserProfile(
    id: string, name: Option<string>, email: Option<string>, language: Option<string>,
    image: Option<string>, learningStyle: Option<LearningStyle>)

  /** The stored learning profile as the endpoint returns it; '' stands for a missing field. */
  datatype StoredStyle = StoredStyle(processingStyle: string, perceptionStyle: string, inputStyle: string, understandingStyle: string)

  /** The endpoint's body: a language ('' when absent) and a profile, if any. */
  datatype ResponseData = ResponseData(language: string, profile: Option<StoredStyle>)

  datatype Payload = Payload(userId: string, language: string, learningStyle: Option<LearningStyle>)

  function OrElse(s: string, d: string): (r: string)
    ensures s != "" ==> r == s
    ensures s == "" ==> r == d
  {
    if s != "" then s else d
  }

  /** The payload the thunk shapes from the response: defaults for every missing field. */
  function ShapePayload(userId: string, data: ResponseData): (p: Payload)
    ensures p.userId == userId
    ensures p.language == if data.language != "" then data.language else "english"
    ensures data.profile.None? <==> p.learningStyle.None?
    ensures data.profile.Some? ==>
              var s := data.profile.value;
              var l := p.learningStyle.value;
              l.processingStyle == (if s.processingStyle != "" then s.processingStyle else "Active")
              && l.perceptionStyle == (if s.perceptionStyle != "" then s.perceptionStyle else "Intuitive")
              && l.inputStyle == (if s.inputStyle != "" then s.inputStyle else "Visual")
              && l.understandingStyle == (if s.understandingStyle != "" then s.understandingStyle else "Sequential")
  {
    var style :=
      match data.profile
      case None => None
      case Some(s) => Some(LearningStyle(OrElse(s.processingStyle, "Active"), OrElse(s.perceptionStyle, "Intuitive"),
                                         OrElse(s.inputStyle, "Visual"), OrElse(s.understandingStyle, "Sequential")));
    Payload(userId, OrElse(data.language, "english"), style)
  }

  /** The thunk's `condition`: fetch without a user or a profile, or when the data is stale. */
  function ShouldFetch(userId: string, profile: Option<UserProfile>, lastFetched: Option<int>, now: int): (r: bool)
    ensures userId == "" || profile.None? ==> r
    ensures userId != "" && profile.Some? ==> r == Freshness.Stale(lastFetched, now)
  {
    if userId == "" || profile.None? then true
    else Freshness.Stale(lastFetched, now)
  }

  /** A loaded profile fetched exactly five minutes ago is not fetched again. */
  lemma NoRefetchAtFiveMinutes(userId: string, p: UserProfile, t: int)
    requires userId != "" && t != 0
    ensures !ShouldFetch(userId, Some(p), Some(t), t + 300000)
    ensures ShouldFetch(userId, Some(p), Some(t), t + 300001)
  {
    Freshness.FiveMinuteBoundary(t);
  }

  /** The profile after a fulfilled fetch: created as `{id: userId}` if absent, then two fields overwritten. */
  function WithPayload(profile: Option<UserProfile>, p: Payload): (r: UserProfile)
    ensures profile.Some? ==> r == profile.value.(language := Some(p.language), learningStyle := p.learningStyle)
    ensures profile.None? ==> r == UserProfile(p.userId, None, None, Some(p.language), None, p.learningStyle)
  {
    var base := if profile.Some? then profile.value else UserProfile(p.userId, None, None, None, None, None);
    base.(language := Some(p.language), learningStyle := p.learningStyle)
  }

  /** An existing profile keeps its id, name, email and image whatever user the payload names. */
  lemma FulfilledKeepsIdentity(profile: UserProfile, p: Payload)
    ensures WithPayload(Some(profile), p).id == profile.id
    ensures WithPayload(Some(profile), p).name == profile.name && WithPayload(Some(profile), p).email == profile.email
    ensures WithPayload(Some(profile), p).image == profile.image
  {
  }

  datatype ProfileState = ProfileState(
    profile: Option<UserProfile>, loading: bool, error: Option<string>,
    learningProfileLoading: bool, learningProfileError: Option<string>, learningProfileLastFetched: Option<int>)

  class ProfileStore {
    var profile: Option<UserProfile>
    var loading: bool
    var error: Option<string>
    var learningProfileLoading: bool
    var learningProfileError: Option<string>
    var learningProfileLastFetched: Option<int>

    function State(): ProfileState
      reads this
    {
      ProfileState(profile, loading, error, learningProfileLoading, learningProfileError, learningProfileLastFetched)
    }

    constructor ()
      ensures State() == ProfileState(None, false, None, false, None, None)
    {
      profile, loading, error := None, false, None;
      learningProfileLoading, learningProfileError, learningProfileLastFetched := false, None, None;
    }

    method SetProfile(p: UserProfile)
      modifies this
      ensures State() == old(State()).(profile := Some(p))
    {
      profile := Some(p);
    }

    /** clearProfileError: both errors null, nothing else touched. */
    method ClearProfileError()
      modifies this
      ensures State() == old(State()).(error := None, learningProfileError := None)
    {
      error := None;
      learningProfileError := None;
    }

    method FetchPending()
      modifies this
      ensures State() == old(State()).(learningProfileLoading := true, learningProfileError := None)
    {
      learningProfileLoading := true;
      learningProfileError := None;
    }

    method FetchFulfilled(p: Payload, now: int)
      modifies this
      ensures State() == old(State()).(profile := Some(WithPayload(old(profile), p)),
                                       learningProfileLoading := false, learningProfileLastFetched := Some(now))
    {
      if profile.None? {
        profile := Some(UserProfile(p.userId, None, None, None, None, None));
      }
      profile := Some(profile.value.(language := Some(p.language), learningStyle := p.learningStyle));
      learningProfileLoading := false;
      learningProfileLastFetched := Some(now);
    }

    method FetchRejected(payload: string)
      modifies this
      ensures State() == old(State()).(learningProfileLoading := false, learningProfileError := Some(payload))
    {
      learningProfileLoading := false;
      learningProfileError := Some(payload);
    }
  }
}
