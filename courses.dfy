/** The course catalogue: the filter record its controls write, the filter
    that selects the listed courses, the topic options of the topic control,
    and the text helpers of the course cards. */
module Courses {
  import opened Base
  import opened Text
  import opened Sorting
  import opened Clock

  /** A module of a course; only its title takes part in the catalogue's
      behaviour (its fractional duration is only displayed). */
  datatype CourseModule = CourseModule(title: string)

  datatype Course = Course(
    id: string,
    title: string,
    description: string,
    topics: seq<string>,
    difficulty: string,
    estimatedTime: int,
    modules: seq<CourseModule>,
    instructor: string)

  /** `activeFilters`. `maxTime` is `None` for both `null` and `NaN`, the two
      values the time control stores besides a number. */
  datatype Filters = Filters(topic: string, maxTime: Option<int>, difficulty: string, searchTerm: string)

  const DefaultFilters: Filters := Filters("all", None, "all", "")

  // ---------------------------------------------------------------- the filter controls

  /** What the time control stores for its text: `null` when it is empty,
      otherwise `parseInt` of it. */
  function MaxTimeFrom(value: string): Option<int>
  {
    if value != "" then ParseInt(value) else None
  }

  /** `if (activeFilters.maxTime)`: `null`, `NaN` and `0` switch the limit off. */
  predicate TimeLimitActive(maxTime: Option<int>)
  {
    maxTime.Some? && maxTime.value != 0
  }

  /** A time control holding a whole number limits the time exactly when the
      number is not zero; an empty control never does. */
  lemma MaxTimeFromNumber(n: int)
    ensures MaxTimeFrom(IntToString(n)) == Some(n)
    ensures TimeLimitActive(MaxTimeFrom(IntToString(n))) <==> n != 0
    ensures !TimeLimitActive(MaxTimeFrom(""))
  {
    ParseIntRoundTrip(n);
    assert IntToString(n) != "" by {
      if n >= 0 {
        assert |NatToString(n)| >= 1;
      }
    }
  }

  /** What the search box stores: its text lower-cased and trimmed. */
  function SearchTermFrom(value: string): (r: string)
    ensures r == [] || (!IsJsSpace(r[0]) && !IsJsSpace(r[|r| - 1]))
    ensures exists i :: TrimmedAt(Lower(value), r, i)
  {
    Trim(Lower(value))
  }

  // ---------------------------------------------------------------- getFilteredCourses

  function ModuleTitles(ms: seq<CourseModule>): seq<string>
  {
    seq(|ms|, i requires 0 <= i < |ms| => ms[i].title)
  }

  /** The text the search term is looked for in: the title, description,
      instructor, topics and module titles joined by spaces, lower-cased. */
  function SearchText(c: Course): string
  {
    Lower(Join([c.title, c.description, c.instructor] + c.topics + ModuleTitles(c.modules), " "))
  }

  /** The filter callback: each check in turn may reject the course, and the
      search check, when a term is set, decides. */
  predicate Passes(f: Filters, c: Course)
  {
    if f.topic != "all" && f.topic !in c.topics then false
    else if TimeLimitActive(f.maxTime) && c.estimatedTime > f.maxTime.value then false
    else if f.difficulty != "all" && c.difficulty != f.difficulty then false
    else if f.searchTerm != "" then Contains(SearchText(c), f.searchTerm)
    else true
  }

  function PassesFor(f: Filters): Course -> bool
  {
    (c: Course) => Passes(f, c)
  }

  /** Each condition a kept course meets, stated on its own. */
  predicate Kept(f: Filters, c: Course)
  {
    && (f.topic == "all" || f.topic in c.topics)
    && (TimeLimitActive(f.maxTime) ==> c.estimatedTime <= f.maxTime.value)
    && (f.difficulty == "all" || c.difficulty == f.difficulty)
    && (f.searchTerm == "" || Contains(SearchText(c), f.searchTerm))
  }

  function FilteredCourses(courses: seq<Course>, f: Filters): seq<Course>
  {
    Filter(courses, PassesFor(f))
  }

  /** The listed courses are the courses meeting every active condition, in
      catalogue order. */
  lemma FilteredCoursesSpec(courses: seq<Course>, f: Filters)
    ensures IsSubsequence(FilteredCourses(courses, f), courses)
    ensures forall i :: 0 <= i < |FilteredCourses(courses, f)| ==> Kept(f, FilteredCourses(courses, f)[i])
    ensures forall i :: 0 <= i < |courses| && Kept(f, courses[i]) ==> courses[i] in FilteredCourses(courses, f)
  {
    FilterIsSubsequence(courses, PassesFor(f));
  }

  /** With the default filter record every course is listed. */
  lemma DefaultShowsAll(courses: seq<Course>)
    ensures FilteredCourses(courses, DefaultFilters) == courses
  {
    FilterAll(courses, PassesFor(DefaultFilters));
  }

  /** A time limit of 0 lists the same courses as no limit at all. */
  lemma ZeroTimeLimitIsOff(courses: seq<Course>, f: Filters)
    ensures FilteredCourses(courses, f.(maxTime := Some(0))) == FilteredCourses(courses, f.(maxTime := None))
  {
    FilterSame(courses, PassesFor(f.(maxTime := Some(0))), PassesFor(f.(maxTime := None)));
  }

  /** The search filter alone, with every other control at its default. */
  function SearchOnly(term: string): Filters
  {
    DefaultFilters.(searchTerm := term)
  }

  lemma SearchTextStartsWithTitle(c: Course)
    ensures exists rest :: SearchText(c) == Lower(c.title) + Lower(" " + c.description) + rest
  {
    var parts := [c.title, c.description, c.instructor] + c.topics + ModuleTitles(c.modules);
    var tail := Join(parts[2..], " ");
    assert parts[1..][1..] == parts[2..];
    assert Join(parts, " ") == c.title + " " + (c.description + " " + tail);
    assert Join(parts, " ") == c.title + (" " + c.description) + " " + tail;
    LowerConcat(c.title + (" " + c.description), " " + tail);
    LowerConcat(c.title, " " + c.description);
  }

  /** A term found in a course's title lists that course. */
  lemma SearchFindsTitle(c: Course, term: string)
    requires term != [] && Contains(Lower(c.title), term)
    ensures Passes(SearchOnly(term), c)
  {
    SearchTextStartsWithTitle(c);
    var rest :| SearchText(c) == Lower(c.title) + Lower(" " + c.description) + rest;
    ContainsInfix([], Lower(c.title), Lower(" " + c.description) + rest, term);
    assert [] + Lower(c.title) + (Lower(" " + c.description) + rest) == SearchText(c);
  }

  /** The fields are searched as one text, so a term spanning the end of the
      title and the start of the description still lists the course. */
  lemma SearchCrossesFields(c: Course)
    ensures Passes(SearchOnly(Lower(c.title + " " + c.description)), c)
  {
    SearchTextStartsWithTitle(c);
    var rest :| SearchText(c) == Lower(c.title) + Lower(" " + c.description) + rest;
    var term := Lower(c.title + " " + c.description);
    assert c.title + " " + c.description == c.title + (" " + c.description);
    LowerConcat(c.title, " " + c.description);
    assert |term| > 0;
    assert term <= SearchText(c);
  }

  // ---------------------------------------------------------------- topic options

  /** Every topic of every course. */
  function TopicsOf(courses: seq<Course>): set<string>
  {
    if courses == [] then {}
    else
      var last := courses[|courses| - 1].topics;
      TopicsOf(courses[..|courses| - 1]) + (set t | t in last)
  }

  /** The comparator of the default `sort()`: `a` does not come after `b`. */
  function TopicOrder(): (string, string) -> bool
  {
    (a: string, b: string) => !StrLess(b, a)
  }

  lemma TopicOrderPreorder()
    ensures TotalPreorder(TopicOrder())
  {
    var le := TopicOrder();
    forall a: string, b: string ensures le(a, b) || le(b, a) {
      if a == b {
        StrLessIrreflexive(a);
      } else if StrLess(a, b) && StrLess(b, a) {
        StrLessTransitive(a, b, a);
        StrLessIrreflexive(a);
      }
    }
    forall a: string, b: string, c: string | le(a, b) && le(b, c) ensures le(a, c) {
      StrNotLessTransitive(a, b, c);
    }
  }

  /** Sorting distinct topics lists each of them once, in strictly increasing order. */
  lemma SortedTopics(all: seq<string>)
    requires Distinct(all)
    ensures forall t :: t in SortBy(all, TopicOrder()) <==> t in all
    ensures forall i, j :: 0 <= i < j < |SortBy(all, TopicOrder())| ==>
      StrLess(SortBy(all, TopicOrder())[i], SortBy(all, TopicOrder())[j])
  {
    var r := SortBy(all, TopicOrder());
    SortByPermutation(all, TopicOrder());
    assert forall t :: t in r <==> t in multiset(r);
    TopicOrderPreorder();
    SortBySorted(all, TopicOrder());
    DistinctCounts(all);
    DistinctCounts(r);
    forall i, j | 0 <= i < j < |r| ensures StrLess(r[i], r[j]) {
      assert TopicOrder()(r[i], r[j]);
      StrLessTotal(r[i], r[j]);
    }
  }

  // ---------------------------------------------------------------- card text

  /** `truncateText`: text longer than `maxLength` is cut to `maxLength`
      characters and an ellipsis added. */
  function TruncateText(text: string, maxLength: nat): (r: string)
    ensures |text| <= maxLength ==> r == text
    ensures |text| > maxLength ==> |r| == maxLength + 3 && r[..maxLength] == text[..maxLength] && r[maxLength..] == "..."
  {
    if |text| <= maxLength then text else text[..maxLength] + "..."
  }

  /** Truncating what was already truncated changes nothing. */
  lemma TruncateIdempotent(text: string, maxLength: nat)
    ensures TruncateText(TruncateText(text, maxLength), maxLength) == TruncateText(text, maxLength)
  {
    var r := TruncateText(text, maxLength);
    if |text| > maxLength {
      assert r[..maxLength] + "..." == r;
    }
  }

  /** `capitalizeFirst`: the first character upper-cased, the rest kept. */
  function CapitalizeFirst(s: string): (r: string)
    ensures |r| == |s|
    ensures s != [] ==> r[0] == UpperChar(s[0]) && r[1..] == s[1..]
  {
    if s == [] then "" else [UpperChar(s[0])] + s[1..]
  }

  /** Capitalizing changes nothing but case: lower-casing the result gives
      the lower-cased input. */
  lemma CapitalizeKeepsLetters(s: string)
    ensures Lower(CapitalizeFirst(s)) == Lower(s)
  {
    if s != [] {
      LowerOfUpper(s[0]);
      assert Lower(CapitalizeFirst(s))[0] == Lower(s)[0];
    }
  }

  /** The results count: "1 course found", otherwise "N courses found". */
  function ResultsCountText(count: nat): (r: string)
    ensures |r| >= 7 && r[|r| - 6..] == " found"
    ensures r[|r| - 7] == 's' <==> count != 1
  {
    NatToString(count) + " course" + (if count != 1 then "s" else "") + " found"
  }

  /** The count text starts with the count itself, as `parseInt` reads it. */
  lemma ResultsCountReadsBack(count: nat)
    ensures ParseInt(ResultsCountText(count)) == Some(count)
  {
    var rest := " course" + (if count != 1 then "s" else "") + " found";
    assert ResultsCountText(count) == NatToString(count) + rest;
    ParseNatPrefix(count, rest);
  }

  // ---------------------------------------------------------------- the catalogue

  class CourseCatalog {
    var courses: seq<Course>
    var activeFilters: Filters

    /** `init` once the course list is loaded; loading is not part of the model. */
    constructor(loaded: seq<Course>)
      ensures courses == loaded && activeFilters == DefaultFilters
    {
      courses := loaded;
      activeFilters := DefaultFilters;
    }

    /** `getFilteredCourses`: the courses the catalogue lists. */
    function Listed(): seq<Course>
      reads this
    {
      FilteredCourses(courses, activeFilters)
    }

    method ChangeTopic(value: string)
      modifies this
      ensures activeFilters == old(activeFilters).(topic := value) && courses == old(courses)
    {
      activeFilters := activeFilters.(topic := value);
    }

    method ChangeMaxTime(value: string)
      modifies this
      ensures activeFilters == old(activeFilters).(maxTime := MaxTimeFrom(value)) && courses == old(courses)
    {
      activeFilters := activeFilters.(maxTime := MaxTimeFrom(value));
    }

    method ChangeDifficulty(value: string)
      modifies this
      ensures activeFilters == old(activeFilters).(difficulty := value) && courses == old(courses)
    {
      activeFilters := activeFilters.(difficulty := value);
    }

    /** The debounced search handler, run once the input settles. */
    method ChangeSearch(value: string)
      modifies this
      ensures activeFilters == old(activeFilters).(searchTerm := SearchTermFrom(value)) && courses == old(courses)
    {
      activeFilters := activeFilters.(searchTerm := SearchTermFrom(value));
    }

    /** `clearAllFilters`: the default record again, so every course is listed. */
    method ClearAllFilters()
      modifies this
      ensures activeFilters == DefaultFilters && courses == old(courses)
      ensures Listed() == courses
    {
      activeFilters := DefaultFilters;
      DefaultShowsAll(courses);
    }

    /** `populateTopicFilter`: the topics of all courses gathered in a set,
        then sorted; the options follow the "all" option. */
    method PopulateTopicFilter() returns (options: seq<string>)
      ensures forall t :: t in options <==> t in TopicsOf(courses)
      ensures forall i, j :: 0 <= i < j < |options| ==> StrLess(options[i], options[j])
    {
      var all: seq<string> := [];
      var i := 0;
      while i < |courses|
        invariant 0 <= i <= |courses|
        invariant Distinct(all)
        invariant forall t :: t in all <==> t in TopicsOf(courses[..i])
      {
        var topics := courses[i].topics;
        var j := 0;
        while j < |topics|
          invariant 0 <= j <= |topics|
          invariant Distinct(all)
          invariant forall t :: t in all <==> t in TopicsOf(courses[..i]) || t in topics[..j]
        {
          if topics[j] !in all {
            all := all + [topics[j]];
          }
          assert topics[..j + 1] == topics[..j] + [topics[j]];
          j := j + 1;
        }
        assert courses[..i + 1][..i] == courses[..i];
        assert topics[..j] == topics;
        i := i + 1;
      }
      assert courses[..i] == courses;
      options := SortBy(all, TopicOrder());
      SortedTopics(all);
    }
  }
}
