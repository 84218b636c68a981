/**
 * The course catalogue (learnhub/lib/courses.ts): the course record, the catalogue's
 * in-place append, and the browse page's filter-then-sort pipeline.
 */
module Courses {
  import opened Wrappers
  import opened Strings
  import opened Sorting

  datatype Level = Beginner | Intermediate | Advanced

  /** The level as the catalogue writes it ("Beginner", "Intermediate", "Advanced"). */
  function LevelName(l: Level): string {
    match l
    case Beginner => "Beginner"
    case Intermediate => "Intermediate"
    case Advanced => "Advanced"
  }

  datatype CourseLesson = CourseLesson(id: string, title: string, duration: string)

  datatype CourseModule = CourseModule(id: string, title: string, lessons: seq<CourseLesson>)

  /** A catalogue entry; `lastUpdated` is a timestamp in milliseconds. */
  datatype Course = Course(
    id: string,
    title: string,
    description: string,
    instructor: string,
    category: string,
    level: Level,
    duration: string,
    rating: real,
    studentsEnrolled: nat,
    tags: seq<string>,
    lessons: nat,
    lastUpdated: int,
    featured: bool,
    curriculum: Option<seq<CourseModule>>)

  /** The catalogue array `mockCourses`, which `addNewCourse` appends to. */
  class CourseCatalog {
    var mockCourses: seq<Course>

    constructor (initial: seq<Course>)
      ensures mockCourses == initial
    {
      mockCourses := initial;
    }

    /** Appends `course` at the end of the catalogue and hands it back unchanged. */
    method AddNewCourse(course: Course) returns (r: Course)
      modifies this
      ensures mockCourses == old(mockCourses) + [course]
      ensures r == course
    {
      mockCourses := mockCourses + [course];
      r := course;
    }
  }

  /** Case-insensitive search over title, description and instructor (tags are not searched). */
  predicate MatchesSearch(c: Course, searchTerm: string) {
    var t := Lower(searchTerm);
    Contains(Lower(c.title), t) || Contains(Lower(c.description), t) || Contains(Lower(c.instructor), t)
  }

  predicate MatchesCourse(c: Course, searchTerm: string, category: string, level: string) {
    && MatchesSearch(c, searchTerm)
    && (category == "All Categories" || c.category == category)
    && (level == "All Levels" || LevelName(c.level) == level)
  }

  /** The filter step of `filterCourses`: the matching courses in catalogue order. */
  function MatchingCourses(courses: seq<Course>, searchTerm: string, category: string, level: string): (r: seq<Course>)
    ensures forall i :: 0 <= i < |r| ==> r[i] in courses && MatchesCourse(r[i], searchTerm, category, level)
    ensures forall c :: c in courses && MatchesCourse(c, searchTerm, category, level) ==> c in r
    ensures IsSubsequence(r, courses)
  {
    FilterIsSubsequence(courses, c => MatchesCourse(c, searchTerm, category, level));
    Filter(courses, c => MatchesCourse(c, searchTerm, category, level))
  }

  function RatingKey(c: Course): real { c.rating }
  function StudentsKey(c: Course): real { c.studentsEnrolled as real }
  function UpdatedKey(c: Course): real { c.lastUpdated as real }

  /** The default sort key: featured first, then by rating. */
  datatype FeaturedRating = FeaturedRating(featured: bool, rating: real)

  function FeaturedRatingKey(c: Course): FeaturedRating { FeaturedRating(c.featured, c.rating) }

  /** The default comparator: a featured course before a non-featured one, else the higher rating first. */
  function FeaturedThenRating(a: FeaturedRating, b: FeaturedRating): bool {
    (a.featured && !b.featured) || (a.featured == b.featured && a.rating > b.rating)
  }

  lemma FeaturedThenRatingIsStrictTotalOrder()
    ensures StrictTotalOrder(FeaturedThenRating)
  {
  }

  /** The sort step of `filterCourses`, chosen by `sortBy`. */
  function SortCourses(s: seq<Course>, sortBy: string): seq<Course> {
    if sortBy == "rating" then StableSort(s, RatingKey, Descending)
    else if sortBy == "students" then StableSort(s, StudentsKey, Descending)
    else if sortBy == "newest" then StableSort(s, UpdatedKey, Descending)
    else StableSort(s, FeaturedRatingKey, FeaturedThenRating)
  }

  function FilterCourses(courses: seq<Course>, searchTerm: string, category: string, level: string, sortBy: string): seq<Course> {
    SortCourses(MatchingCourses(courses, searchTerm, category, level), sortBy)
  }

  /** The result is a permutation of the matching subset: it holds exactly the matching courses. */
  lemma FilterCoursesIsPermutationOfMatches(courses: seq<Course>, searchTerm: string, category: string, level: string, sortBy: string)
    ensures var r := FilterCourses(courses, searchTerm, category, level, sortBy);
      && multiset(r) == multiset(MatchingCourses(courses, searchTerm, category, level))
      && forall c :: c in r <==> c in courses && MatchesCourse(c, searchTerm, category, level)
  {
    var m := MatchingCourses(courses, searchTerm, category, level);
    var r := FilterCourses(courses, searchTerm, category, level, sortBy);
    assert multiset(r) == multiset(m);
    forall c ensures c in r <==> c in m {
      assert c in r <==> c in multiset(r);
      assert c in m <==> c in multiset(m);
    }
  }

  /** An empty search term restricts nothing. */
  lemma EmptySearchMatchesEverything(c: Course)
    ensures MatchesSearch(c, "")
  {
    assert Lower("") == "";
    ContainsEmpty(Lower(c.title));
  }

  /** "rating", "students" and "newest" order by descending rating, enrolment and update time. */
  lemma FilterCoursesSortedByKey(courses: seq<Course>, searchTerm: string, category: string, level: string, sortBy: string)
    ensures var r := FilterCourses(courses, searchTerm, category, level, sortBy);
      && (sortBy == "rating" ==> forall i, j :: 0 <= i < j < |r| ==> r[i].rating >= r[j].rating)
      && (sortBy == "students" ==> forall i, j :: 0 <= i < j < |r| ==> r[i].studentsEnrolled >= r[j].studentsEnrolled)
      && (sortBy == "newest" ==> forall i, j :: 0 <= i < j < |r| ==> r[i].lastUpdated >= r[j].lastUpdated)
  {
    var m := MatchingCourses(courses, searchTerm, category, level);
    DescendingIsStrictTotalOrder();
    if sortBy == "rating" {
      StableSortSorted(m, RatingKey, Descending);
    } else if sortBy == "students" {
      StableSortSorted(m, StudentsKey, Descending);
    } else if sortBy == "newest" {
      StableSortSorted(m, UpdatedKey, Descending);
    }
  }

  /**
   * Any other `sortBy`: featured courses before the others, each group by descending rating,
   * and courses with the same featured flag and rating in catalogue order.
   */
  lemma FilterCoursesDefaultOrder(courses: seq<Course>, searchTerm: string, category: string, level: string, sortBy: string)
    requires sortBy != "rating" && sortBy != "students" && sortBy != "newest"
    ensures var r := FilterCourses(courses, searchTerm, category, level, sortBy);
      && (forall i, j :: 0 <= i < j < |r| && r[j].featured ==> r[i].featured)
      && (forall i, j :: 0 <= i < j < |r| && r[i].featured == r[j].featured ==> r[i].rating >= r[j].rating)
      && (forall k :: KeyClass(r, FeaturedRatingKey, k)
                      == KeyClass(MatchingCourses(courses, searchTerm, category, level), FeaturedRatingKey, k))
  {
    var m := MatchingCourses(courses, searchTerm, category, level);
    var r := FilterCourses(courses, searchTerm, category, level, sortBy);
    FeaturedThenRatingIsStrictTotalOrder();
    StableSortSorted(m, FeaturedRatingKey, FeaturedThenRating);
    forall i, j | 0 <= i < j < |r| && r[j].featured ensures r[i].featured {
      assert !FeaturedThenRating(FeaturedRatingKey(r[j]), FeaturedRatingKey(r[i]));
    }
    forall i, j | 0 <= i < j < |r| && r[i].featured == r[j].featured ensures r[i].rating >= r[j].rating {
      assert !FeaturedThenRating(FeaturedRatingKey(r[j]), FeaturedRatingKey(r[i]));
    }
    forall k ensures KeyClass(r, FeaturedRatingKey, k) == KeyClass(m, FeaturedRatingKey, k) {
      StableSortKeyClass(m, FeaturedRatingKey, FeaturedThenRating, k);
    }
  }
}
