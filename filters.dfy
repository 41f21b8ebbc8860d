// The two list filters of the client: the course catalogue (category, level and title search,
// plus the category drop-down built from the catalogue) and the chat-history search.

// The insertion-ordered JavaScript `Set` of strings, as `Array.from(new Set(xs))` sees it.
module InsertionOrderedSet {
  /** Adding each of `ys` in turn to a set whose iteration order is `order`. */
  function InsertAll(order: seq<string>, ys: seq<string>): seq<string>
    decreases |ys|
  {
    if ys == [] then order
    else InsertAll(if ys[0] in order then order else order + [ys[0]], ys[1..])
  }

  /** Reference definition: the elements of `xs` at the positions where they occur first. */
  function Firsts(xs: seq<string>): seq<string>
  {
    if xs == [] then []
    else
      var init := xs[..|xs| - 1];
      var last := xs[|xs| - 1];
      Firsts(init) + (if last in init then [] else [last])
  }

  /** The first-occurrence list has each element of `xs` once and nothing else. */
  lemma {:induction false} FirstsDistinct(xs: seq<string>)
    ensures forall x :: x in Firsts(xs) <==> x in xs
    ensures forall i, j :: 0 <= i < j < |Firsts(xs)| ==> Firsts(xs)[i] != Firsts(xs)[j]
  {
    if xs != [] {
      var init := xs[..|xs| - 1];
      var last := xs[|xs| - 1];
      assert xs == init + [last];
      FirstsDistinct(init);
    }
  }

  /** One more element at the end is kept exactly when it is new. */
  lemma FirstsSnoc(xs: seq<string>, y: string)
    ensures Firsts(xs + [y]) == (if y in Firsts(xs) then Firsts(xs) else Firsts(xs) + [y])
  {
    FirstsDistinct(xs);
    var xy := xs + [y];
    assert xy[..|xy| - 1] == xs;
  }

  /** Inserting more elements extends the first-occurrence list of what was inserted so far. */
  lemma {:induction false} InsertAllFirsts(xs: seq<string>, ys: seq<string>)
    ensures InsertAll(Firsts(xs), ys) == Firsts(xs + ys)
    decreases |ys|
  {
    if ys == [] {
      assert xs + ys == xs;
    } else {
      var y := ys[0];
      var xy := xs + [y];
      FirstsSnoc(xs, y);
      InsertAllFirsts(xy, ys[1..]);
      assert xy + ys[1..] == xs + ys;
    }
  }

  /** `Array.from(new Set(xs))`: every distinct element once, in first-occurrence order. */
  lemma SetOrderIsFirstOccurrence(xs: seq<string>)
    ensures InsertAll([], xs) == Firsts(xs)
    ensures forall x :: x in InsertAll([], xs) <==> x in xs
    ensures forall i, j :: 0 <= i < j < |InsertAll([], xs)| ==> InsertAll([], xs)[i] != InsertAll([], xs)[j]
  {
    assert Firsts([]) == [];
    InsertAllFirsts([], xs);
    FirstsDistinct(xs);
    assert [] + xs == xs;
  }
}

// src/components/courses/CoursesOverview.tsx: the catalogue page's filters.
module CourseCatalogue {
  import opened Text
  import opened Sequences
  import opened InsertionOrderedSet

  datatype Course = Course(id: string, title: string, level: string, category: string)

  const AllCategories: string := "All Categories"
  const AllLevels: string := "All Levels"

  /** The three filter fields of the page. */
  datatype Filters = Filters(category: string, level: string, query: string)

  /** The initial filter values, which the Reset Filters button restores. */
  const DefaultFilters: Filters := Filters(AllCategories, AllLevels, "")

  /** The `filter` callback: all three tests must pass. */
  predicate Matches(f: Filters, c: Course)
  {
    && (f.category == AllCategories || c.category == f.category)
    && (f.level == AllLevels || c.level == f.level)
    && Contains(Lower(c.title), Lower(f.query))
  }

  function FilteredCourses(courses: seq<Course>, f: Filters): (r: seq<Course>)
    ensures |r| <= |courses|
    ensures forall c :: c in r <==> c in courses && Matches(f, c)
  {
    if courses == [] then []
    else if Matches(f, courses[0]) then [courses[0]] + FilteredCourses(courses[1..], f)
    else FilteredCourses(courses[1..], f)
  }

  /** The filtered list keeps the catalogue's order. */
  lemma {:induction false} FilteredCoursesInOrder(courses: seq<Course>, f: Filters)
    ensures Subsequence(FilteredCourses(courses, f), courses)
  {
    if courses != [] {
      FilteredCoursesInOrder(courses[1..], f);
      var r := FilteredCourses(courses, f);
      if Matches(f, courses[0]) {
        assert r[0] == courses[0] && r[1..] == FilteredCourses(courses[1..], f);
      } else {
        SubsequenceSkip(r, courses);
      }
    }
  }

  /** With the default (or reset) filters nothing is hidden. */
  lemma {:induction false} DefaultFiltersKeepAll(courses: seq<Course>)
    ensures FilteredCourses(courses, DefaultFilters) == courses
  {
    if courses != [] {
      assert Lower("") == "";
      ContainsEmpty(Lower(courses[0].title));
      DefaultFiltersKeepAll(courses[1..]);
    }
  }

  function CategoryColumn(courses: seq<Course>): (r: seq<string>)
    ensures |r| == |courses| && forall i :: 0 <= i < |courses| ==> r[i] == courses[i].category
  {
    if courses == [] then [] else [courses[0].category] + CategoryColumn(courses[1..])
  }

  /** The category drop-down: the "all" entry, then the categories through a `Set`. */
  function Categories(courses: seq<Course>): seq<string>
  {
    [AllCategories] + InsertAll([], CategoryColumn(courses))
  }

  /**
   * The drop-down lists every category of the catalogue once, in the order of first
   * appearance, after the "all" entry.
   */
  lemma CategoriesFirstOccurrence(courses: seq<Course>)
    ensures Categories(courses) == [AllCategories] + Firsts(CategoryColumn(courses))
    ensures Categories(courses)[0] == AllCategories
    ensures forall i :: 0 <= i < |courses| ==> courses[i].category in Categories(courses)[1..]
    ensures forall k :: 1 <= k < |Categories(courses)| ==>
              exists i :: 0 <= i < |courses| && courses[i].category == Categories(courses)[k]
    ensures forall k, l :: 1 <= k < l < |Categories(courses)| ==> Categories(courses)[k] != Categories(courses)[l]
  {
    var col := CategoryColumn(courses);
    SetOrderIsFirstOccurrence(col);
    CategoryEntries(courses, col, InsertAll([], col), Categories(courses));
  }

  /** The drop-down built from a duplicate-free list of exactly the column's categories. */
  lemma CategoryEntries(courses: seq<Course>, col: seq<string>, order: seq<string>, cs: seq<string>)
    requires |col| == |courses| && forall i :: 0 <= i < |courses| ==> col[i] == courses[i].category
    requires forall x :: x in order <==> x in col
    requires forall i, j :: 0 <= i < j < |order| ==> order[i] != order[j]
    requires cs == [AllCategories] + order
    ensures forall i :: 0 <= i < |courses| ==> courses[i].category in cs[1..]
    ensures forall k :: 1 <= k < |cs| ==> exists i :: 0 <= i < |courses| && courses[i].category == cs[k]
    ensures forall k, l :: 1 <= k < l < |cs| ==> cs[k] != cs[l]
  {
    assert cs[1..] == order;
    forall i | 0 <= i < |courses|
      ensures courses[i].category in cs[1..]
    {
      assert col[i] in col;
    }
    forall k | 1 <= k < |cs|
      ensures exists i :: 0 <= i < |courses| && courses[i].category == cs[k]
    {
      assert cs[k] == order[k - 1];
      assert cs[k] in col;
      var i :| 0 <= i < |col| && col[i] == cs[k];
    }
    forall k, l | 1 <= k < l < |cs|
      ensures cs[k] != cs[l]
    {
      assert cs[k] == order[k - 1] && cs[l] == order[l - 1];
    }
  }
}

// src/components/learning/ChatHistory.tsx: the conversation list beside a course chat.
module ChatHistoryList {
  import opened Text
  import opened Wrappers
  import opened Sequences

  datatype Conversation = Conversation(id: string, title: string, createdAt: string, updatedAt: string)

  predicate TitleMatches(searchTerm: string, c: Conversation)
  {
    Contains(Lower(c.title), Lower(searchTerm))
  }

  function FilteredConversations(conversations: seq<Conversation>, searchTerm: string): (r: seq<Conversation>)
    ensures |r| <= |conversations|
    ensures forall c :: c in r <==> c in conversations && TitleMatches(searchTerm, c)
  {
    if conversations == [] then []
    else if TitleMatches(searchTerm, conversations[0])
    then [conversations[0]] + FilteredConversations(conversations[1..], searchTerm)
    else FilteredConversations(conversations[1..], searchTerm)
  }

  lemma {:induction false} FilteredConversationsInOrder(conversations: seq<Conversation>, searchTerm: string)
    ensures Subsequence(FilteredConversations(conversations, searchTerm), conversations)
  {
    if conversations != [] {
      FilteredConversationsInOrder(conversations[1..], searchTerm);
      var r := FilteredConversations(conversations, searchTerm);
      if TitleMatches(searchTerm, conversations[0]) {
        assert r[0] == conversations[0] && r[1..] == FilteredConversations(conversations[1..], searchTerm);
      } else {
        SubsequenceSkip(r, conversations);
      }
    }
  }

  lemma {:induction false} EmptySearchKeepsAll(conversations: seq<Conversation>)
    ensures FilteredConversations(conversations, "") == conversations
  {
    if conversations != [] {
      assert Lower("") == "";
      ContainsEmpty(Lower(conversations[0].title));
      EmptySearchKeepsAll(conversations[1..]);
    }
  }

  /** What the list endpoint answered; `conversations` is absent when the body lacks the field. */
  datatype Response = Answered(ok: bool, conversations: Option<seq<Conversation>>) | Failed

  /** The component's list state; it starts as `([], true)`. */
  datatype HistoryState = HistoryState(conversations: seq<Conversation>, isLoading: bool)

  /**
   * The fetch effect for one (course, module) pair. Without both ids it returns before doing
   * anything, so even the loading flag keeps its value; otherwise loading always ends, and the
   * list is replaced only by a successful answer (a missing list counts as empty).
   */
  function AfterFetch(s: HistoryState, courseId: string, moduleId: string, response: Response): (r: HistoryState)
    ensures courseId == "" || moduleId == "" ==> r == s
    ensures courseId != "" && moduleId != "" ==> !r.isLoading
    ensures r.conversations != s.conversations ==>
              courseId != "" && moduleId != "" && response.Answered? && response.ok
    ensures courseId != "" && moduleId != "" && response.Answered? && response.ok ==>
              r.conversations == (if response.conversations.Some? then response.conversations.value else [])
  {
    if courseId == "" || moduleId == "" then s
    else
      match response
      case Answered(ok, list) =>
        if ok then HistoryState(if list.Some? then list.value else [], false)
        else s.(isLoading := false)
      case Failed => s.(isLoading := false)
  }
}
