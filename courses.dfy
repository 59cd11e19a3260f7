/**
 * The public catalogue (src/pages/Courses.tsx): the category buttons derived from the
 * fetched courses, and the filter that hides courses by hidden instructors and applies
 * the search text and the selected category.
 */
module Courses {
  import opened Wrappers
  import opened Records
  import opened Seqs
  import opened Text

  /** The label of the button that selects every category. */
  const AllLabel: string := "全部"

  /** The truthy categories of the courses, in course order, repeats included. */
  function CourseCategories(courses: seq<Course>): (r: seq<string>)
    ensures forall c :: c in r <==> c != "" && exists i :: 0 <= i < |courses| && courses[i].category == c
  {
    var cats := Map(courses, (c: Course) => c.category);
    var r := Filter(cats, (c: string) => c != "");
    assert forall i :: 0 <= i < |courses| ==> cats[i] == courses[i].category;
    r
  }

  /** `categories` (line 17): the all-label, then each distinct non-empty category once. */
  function Categories(courses: seq<Course>): (r: seq<string>)
    ensures |r| >= 1 && r[0] == AllLabel
    ensures forall c :: c in r[1..] <==> c != "" && exists i :: 0 <= i < |courses| && courses[i].category == c
    ensures NoDuplicates(r[1..])
  {
    var d := Dedup(CourseCategories(courses));
    assert forall c :: c in d <==> c in CourseCategories(courses);
    assert ([AllLabel] + d)[1..] == d;
    [AllLabel] + d
  }

  /** The categories after the all-label appear in the order of their first course. */
  lemma CategoriesInFirstAppearanceOrder(courses: seq<Course>)
    ensures var cats := CourseCategories(courses); var r := Categories(courses);
            forall i, j :: 1 <= i < j < |r| ==> IndexOf(cats, r[i]) < IndexOf(cats, r[j])
  {
    var cats := CourseCategories(courses);
    DedupFirstAppearance(cats);
    var r := Categories(courses);
    assert r[1..] == Dedup(cats);
    forall i, j | 1 <= i < j < |r| ensures IndexOf(cats, r[i]) < IndexOf(cats, r[j]) {
      assert r[i] == Dedup(cats)[i - 1] && r[j] == Dedup(cats)[j - 1];
    }
  }

  /**
   * No button is repeated unless a course's own category is the all-label, which then
   * shows twice.
   */
  lemma CategoriesDistinct(courses: seq<Course>)
    requires forall i :: 0 <= i < |courses| ==> courses[i].category != AllLabel
    ensures NoDuplicates(Categories(courses))
  {
    var r := Categories(courses);
    forall j | 1 <= j < |r| ensures r[j] != AllLabel {
      assert r[j] in r[1..];
    }
  }

  /**
   * Search (lines 49-50): the lower-cased query occurs in the lower-cased title, or in the
   * lower-cased description when there is one.
   */
  predicate MatchesSearch(c: Course, query: string) {
    Contains(Lower(c.title), Lower(query))
    || (c.description.Some? && Contains(Lower(c.description.value), Lower(query)))
  }

  /** Category (line 51): the all-label admits everything, any other label only its own courses. */
  predicate MatchesCategory(c: Course, selected: string) {
    selected == AllLabel || c.category == selected
  }

  /** The predicate of `filteredCourses` (lines 46-53). */
  predicate Shown(c: Course, hidden: seq<Id>, query: string, selected: string) {
    c.instructorId !in hidden && MatchesSearch(c, query) && MatchesCategory(c, selected)
  }

  /** `filteredCourses`: the fetched courses that pass, in fetched order. */
  function FilteredCourses(courses: seq<Course>, hidden: seq<Id>, query: string, selected: string): (r: seq<Course>)
    ensures forall c :: c in r <==> c in courses && Shown(c, hidden, query, selected)
    ensures forall c :: c in r ==> c.instructorId !in hidden
    ensures IsSubsequence(r, courses)
  {
    FilterIsSubsequence(courses, c => Shown(c, hidden, query, selected));
    Filter(courses, c => Shown(c, hidden, query, selected))
  }

  /** Queries that differ only in letter case show the same courses, in the same order. */
  lemma SearchIgnoresQueryCase(courses: seq<Course>, hidden: seq<Id>, q1: string, q2: string, selected: string)
    requires Lower(q1) == Lower(q2)
    ensures FilteredCourses(courses, hidden, q1, selected) == FilteredCourses(courses, hidden, q2, selected)
  {
    FilterCongruent(courses, c => Shown(c, hidden, q1, selected), c => Shown(c, hidden, q2, selected));
  }

  /** An empty query matches every course. */
  lemma EmptyQueryMatches(c: Course)
    ensures MatchesSearch(c, "")
  {
    ContainsEmpty(Lower(c.title));
  }

  /**
   * With nothing hidden, an empty query and the all-label, every fetched course is shown,
   * in order.
   */
  lemma {:induction false} NoRestrictionShowsAll(courses: seq<Course>)
    ensures FilteredCourses(courses, [], "", AllLabel) == courses
  {
    forall i | 0 <= i < |courses| ensures Shown(courses[i], [], "", AllLabel) {
      EmptyQueryMatches(courses[i]);
    }
    FilterKeepsAll(courses, c => Shown(c, [], "", AllLabel));
  }

  /** Filtering the shown list again with the same inputs changes nothing. */
  lemma RefilterIsStable(courses: seq<Course>, hidden: seq<Id>, query: string, selected: string)
    ensures FilteredCourses(FilteredCourses(courses, hidden, query, selected), hidden, query, selected)
            == FilteredCourses(courses, hidden, query, selected)
  {
    FilterIdempotent(courses, c => Shown(c, hidden, query, selected));
  }

  /**
   * The hidden ids after a fetch, as written (lines 35-41): they are replaced only when a
   * user is signed in and the query answered, so ids loaded for a user who then signs out
   * on this page are kept.
   */
  function HiddenAfterFetchAsWritten(previous: seq<Id>, user: Option<Id>, fetched: Option<seq<Id>>): (r: seq<Id>)
    ensures user.None? ==> r == previous
    ensures user.Some? ==> r == fetched.GetOr(previous)
  {
    if user.Some? && fetched.Some? then fetched.value else previous
  }

  /**
   * Signing out on the catalogue (the page stays mounted and refetches) keeps hiding the
   * previous user's instructors from an anonymous visitor.
   */
  lemma StaleHiddenAfterSignOut()
    ensures var course := Course("c1", "T", None, "K", "i1", 0, true, true);
            var hidden := HiddenAfterFetchAsWritten(["i1"], None, None);
            hidden != [] && FilteredCourses([course], hidden, "", AllLabel) == []
  {
    var course := Course("c1", "T", None, "K", "i1", 0, true, true);
    var hidden := HiddenAfterFetchAsWritten(["i1"], None, None);
    assert !Shown(course, hidden, "", AllLabel);
  }

  /** The hidden ids after a fetch as intended: an anonymous visitor hides nothing. */
  function HiddenAfterFetch(previous: seq<Id>, user: Option<Id>, fetched: Option<seq<Id>>): (r: seq<Id>)
    ensures user.None? ==> r == []
    ensures user.Some? ==> r == fetched.GetOr(previous)
  {
    if user.None? then [] else fetched.GetOr(previous)
  }

  /** With no signed-in user no course is removed for its instructor. */
  lemma {:induction false} AnonymousHidesNothing(courses: seq<Course>, previous: seq<Id>, fetched: Option<seq<Id>>)
    ensures FilteredCourses(courses, HiddenAfterFetch(previous, None, fetched), "", AllLabel) == courses
  {
    NoRestrictionShowsAll(courses);
  }

  /** The catalogue page's state. */
  class CatalogPage {
    var courses: seq<Course>
    var hiddenInstructorIds: seq<Id>
    var loading: bool
    var searchQuery: string
    var selectedCategory: string

    constructor ()
      ensures courses == [] && hiddenInstructorIds == [] && loading
      ensures searchQuery == "" && selectedCategory == AllLabel
    {
      courses, hiddenInstructorIds, loading := [], [], true;
      searchQuery, selectedCategory := "", AllLabel;
    }

    /** The list on screen. */
    function ShownCourses(): seq<Course>
      reads this
    {
      FilteredCourses(courses, hiddenInstructorIds, searchQuery, selectedCategory)
    }

    /**
     * `fetchCourses` with the store's answers: `data` (published courses, newest first)
     * replaces the list when present; the hidden ids follow the code as written,
     * `HiddenAfterFetchAsWritten`, so they survive a sign-out.
     */
    method Fetch(data: Option<seq<Course>>, user: Option<Id>, hidden: Option<seq<Id>>)
      modifies this`courses, this`hiddenInstructorIds, this`loading
      ensures courses == data.GetOr(old(courses))
      ensures hiddenInstructorIds == HiddenAfterFetchAsWritten(old(hiddenInstructorIds), user, hidden)
      ensures !loading
    {
      if data.Some? {
        courses := data.value;
      }
      hiddenInstructorIds := HiddenAfterFetchAsWritten(hiddenInstructorIds, user, hidden);
      loading := false;
    }

    method SetQuery(q: string)
      modifies this`searchQuery
      ensures searchQuery == q
    {
      searchQuery := q;
    }

    method SelectCategory(cat: string)
      modifies this`selectedCategory
      ensures selectedCategory == cat
    {
      selectedCategory := cat;
    }
  }
}
