/** The course overview of the LMS: tab counts by course status, the list filtered
    by the active tab and a case-insensitive search, and that list sorted on a copy.
    String collation (`localeCompare`) is a parameter: a rank per string. */
module CourseOverview {

  import opened Collections
  import Text

  const ALL := "all"
  const IN_PROGRESS := "in-progress"
  const FUTURE := "future"
  const PAST := "past"
  const STARRED := "starred"
  const REMOVED := "removed"

  /** The five statuses a course can have, in tab order. */
  const STATUSES: seq<string> := [IN_PROGRESS, FUTURE, PAST, STARRED, REMOVED]

  /** A course row; the start date is an instant in milliseconds. */
  datatype Course = Course(id: string, title: string, code: string, instructor: string, status: string, startDate: int)

  datatype Tab = Tab(key: string, caption: string, count: nat)

  function StatusCount(courses: seq<Course>, status: string): nat
  {
    Count(courses, (c: Course) => c.status == status)
  }

  /** `tabs`: `All` counts every course, each other tab the courses of its status. */
  function Tabs(courses: seq<Course>): seq<Tab>
  {
    [ Tab(ALL, "All", |courses|),
      Tab(IN_PROGRESS, "In progress", StatusCount(courses, IN_PROGRESS)),
      Tab(FUTURE, "Future", StatusCount(courses, FUTURE)),
      Tab(PAST, "Past", StatusCount(courses, PAST)),
      Tab(STARRED, "Starred", StatusCount(courses, STARRED)),
      Tab(REMOVED, "Removed from view", StatusCount(courses, REMOVED)) ]
  }

  /** Every course's status is one of the five. */
  predicate WellStatused(courses: seq<Course>)
  {
    forall i :: 0 <= i < |courses| ==> courses[i].status in STATUSES
  }

  /** When every course has one of the five statuses, the five status tabs partition
      the `All` tab: their counts add up to its count. */
  lemma {:induction false} TabsPartition(courses: seq<Course>)
    requires WellStatused(courses)
    ensures var t := Tabs(courses);
      t[1].count + t[2].count + t[3].count + t[4].count + t[5].count == t[0].count
  {
    if courses != [] {
      assert WellStatused(courses[1..]) by {
        forall i | 0 <= i < |courses[1..]| ensures courses[1..][i].status in STATUSES {
          assert courses[1..][i] == courses[i + 1];
        }
      }
      TabsPartition(courses[1..]);
      assert courses[0].status in STATUSES;
    }
  }

  /** Each status tab counts exactly the courses of that status: the length of the
      list the tab shows when nothing is searched. */
  lemma TabCountsFilter(courses: seq<Course>, i: nat)
    requires 1 <= i < 6
    ensures var t := Tabs(courses)[i];
      t.key == STATUSES[i - 1] && t.count == |FilteredCourses(courses, t.key, "")|
  {
    var key := STATUSES[i - 1];
    assert key != ALL && Tabs(courses)[i] == Tab(key, Tabs(courses)[i].caption, StatusCount(courses, key));
    CountIsFilterLength(courses, (c: Course) => c.status == key);
    SearchEmptyKeepsTab(courses, key);
    FilterCongruent(courses, (c: Course) => MatchesTab(c, key), (c: Course) => c.status == key);
  }

  /** The search: the lower-cased term occurs in the lower-cased title, code or
      instructor. */
  predicate MatchesSearch(c: Course, term: string)
  {
    var t := Text.ToLower(term);
    Text.Includes(Text.ToLower(c.title), t) || Text.Includes(Text.ToLower(c.code), t)
    || Text.Includes(Text.ToLower(c.instructor), t)
  }

  predicate MatchesTab(c: Course, tab: string)
  {
    tab == ALL || c.status == tab
  }

  /** `filteredCourses` */
  function FilteredCourses(courses: seq<Course>, tab: string, term: string): seq<Course>
  {
    Filter(courses, (c: Course) => MatchesTab(c, tab) && MatchesSearch(c, term))
  }

  /** A course is listed exactly when it is on the tab (any course on `All`) and
      matches the search; the list keeps the courses' order. */
  lemma FilteredExactly(courses: seq<Course>, tab: string, term: string)
    ensures var r := FilteredCourses(courses, tab, term);
      && (forall c :: c in r <==> c in courses && (tab == ALL || c.status == tab) && MatchesSearch(c, term))
      && |r| <= |courses|
  {
  }

  /** An empty search matches every course. */
  lemma SearchEmptyMatchesAll(c: Course)
    ensures MatchesSearch(c, "")
  {
    Text.IncludesEmpty(Text.ToLower(c.title));
  }

  /** With an empty search the list is the tab's courses, in order; on `All`, every
      course. */
  lemma SearchEmptyKeepsTab(courses: seq<Course>, tab: string)
    ensures FilteredCourses(courses, tab, "") == Filter(courses, (c: Course) => MatchesTab(c, tab))
    ensures FilteredCourses(courses, ALL, "") == courses
  {
    forall c: Course ensures MatchesSearch(c, "") {
      SearchEmptyMatchesAll(c);
    }
    FilterCongruent(courses, (c: Course) => MatchesTab(c, tab) && MatchesSearch(c, ""), (c: Course) => MatchesTab(c, tab));
    FilterCongruent(courses, (c: Course) => MatchesTab(c, ALL) && MatchesSearch(c, ""), (c: Course) => true);
    FilterKeepsAll(courses, (c: Course) => true);
  }

  /** The search ignores the case of the term: lower-casing it first changes nothing. */
  lemma SearchIgnoresTermCase(c: Course, term: string)
    ensures MatchesSearch(c, Text.ToLower(term)) == MatchesSearch(c, term)
  {
    Text.ToLowerIdempotent(term);
  }

  /** The three orders of the sort menu. */
  datatype SortOrder = ByInstructor | ByDate | ByTitle

  /** The menu text; anything unrecognised sorts by title. */
  function OrderOf(sortBy: string): SortOrder
  {
    if sortBy == "Sort by instructor" then ByInstructor
    else if sortBy == "Sort by date" then ByDate
    else ByTitle
  }

  /** The comparison key: the collation rank of the instructor or title, or the start
      date. */
  function CourseKey(order: SortOrder, collate: string -> int): Course -> Key
  {
    match order
    case ByInstructor => (c: Course) => (collate(c.instructor), 0)
    case ByDate => (c: Course) => (c.startDate, 0)
    case ByTitle => (c: Course) => (collate(c.title), 0)
  }

  /** `sortedCourses`: the filtered list, sorted on a copy. */
  function SortedCourses(filtered: seq<Course>, sortBy: string, collate: string -> int): (r: seq<Course>)
    ensures multiset(r) == multiset(filtered)
    ensures SortedBy(r, CourseKey(OrderOf(sortBy), collate))
  {
    SortBy(filtered, CourseKey(OrderOf(sortBy), collate))
  }
}
