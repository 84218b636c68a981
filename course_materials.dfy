/**
 * The course-material catalogue (learnhub/lib/course-materials.ts): a record from course id
 * to the list of that course's materials, lookups by lesson, the storage-URL rule, adding a
 * material, and the duration text of an uploaded video.
 */
module CourseMaterials {
  import opened Wrappers
  import opened Strings
  import opened Sorting
  import opened ObjectKeys

  datatype MaterialType = Video | Pdf | Quiz | Assignment | Code

  /** A material; `kind` is the source's `type`. */
  datatype CourseMaterial = CourseMaterial(
    id: string,
    lessonId: string,
    title: string,
    kind: MaterialType,
    url: string,
    duration: Option<string>,
    size: Option<string>,
    description: string)

  /*
   * The seeded catalogue, course by course: ids, lesson ids, titles, types and URLs as shipped.
   * Durations, sizes and descriptions are display text and are left empty here.
   */
  const Course1Materials: seq<CourseMaterial> := [
    CourseMaterial("1-1-video", "1-1-1", "Introduction to HTML", Video,
      "https://www.youtube.com/embed/nu_pCVPKzTk?si=GCdoE5QMUGcrgyzz", None, None, ""),
    CourseMaterial("1-1-pdf", "1-1-1", "HTML Reference Guide", Pdf,
      "https://storage.googleapis.com/learnhub-materials/html-reference.pdf", None, None, ""),
    CourseMaterial("1-2-video", "1-1-2", "HTML Document Structure", Video,
      "https://www.youtube.com/embed/nu_pCVPKzTk?si=GCdoE5QMUGcrgyzz", None, None, ""),
    CourseMaterial("1-3-video", "1-1-3", "HTML Forms and Input Elements", Video,
      "https://www.youtube.com/embed/nu_pCVPKzTk?si=GCdoE5QMUGcrgyzz", None, None, ""),
    CourseMaterial("1-4-video", "1-1-4", "HTML Tables and Lists", Video,
      "https://www.youtube.com/embed/nu_pCVPKzTk?si=GCdoE5QMUGcrgyzz", None, None, ""),
    CourseMaterial("1-5-video", "1-1-5", "HTML Media Elements", Video,
      "https://www.youtube.com/embed/nu_pCVPKzTk?si=GCdoE5QMUGcrgyzz", None, None, ""),
    CourseMaterial("1-13-video", "1-2-1", "CSS Fundamentals", Video,
      "https://www.youtube.com/embed/nu_pCVPKzTk?si=GCdoE5QMUGcrgyzz", None, None, ""),
    CourseMaterial("1-13-code", "1-2-1", "CSS Practice Files", Code,
      "https://storage.googleapis.com/learnhub-materials/css-practice.zip", None, None, ""),
    CourseMaterial("1-14-video", "1-2-2", "CSS Box Model", Video,
      "https://www.youtube.com/embed/nu_pCVPKzTk?si=GCdoE5QMUGcrgyzz", None, None, ""),
    CourseMaterial("1-15-video", "1-2-3", "CSS Flexbox Layout", Video,
      "https://www.youtube.com/embed/nu_pCVPKzTk?si=GCdoE5QMUGcrgyzz", None, None, ""),
    CourseMaterial("1-16-video", "1-2-4", "CSS Grid Layout", Video,
      "https://www.youtube.com/embed/nu_pCVPKzTk?si=GCdoE5QMUGcrgyzz", None, None, ""),
    CourseMaterial("1-17-video", "1-2-5", "Responsive Design Principles", Video,
      "https://www.youtube.com/embed/nu_pCVPKzTk?si=GCdoE5QMUGcrgyzz", None, None, ""),
    CourseMaterial("1-25-video", "1-3-1", "JavaScript Introduction", Video,
      "https://www.youtube.com/embed/nu_pCVPKzTk?si=GCdoE5QMUGcrgyzz", None, None, ""),
    CourseMaterial("1-26-video", "1-3-2", "JavaScript Variables and Data Types", Video,
      "https://www.youtube.com/embed/nu_pCVPKzTk?si=GCdoE5QMUGcrgyzz", None, None, ""),
    CourseMaterial("1-27-video", "1-3-3", "JavaScript Functions", Video,
      "https://www.youtube.com/embed/nu_pCVPKzTk?si=GCdoE5QMUGcrgyzz", None, None, ""),
    CourseMaterial("1-28-video", "1-3-4", "DOM Manipulation", Video,
      "https://www.youtube.com/embed/nu_pCVPKzTk?si=GCdoE5QMUGcrgyzz", None, None, ""),
    CourseMaterial("1-29-video", "1-3-5", "Event Handling", Video,
      "https://www.youtube.com/embed/nu_pCVPKzTk?si=GCdoE5QMUGcrgyzz", None, None, ""),
    CourseMaterial("1-37-video", "1-4-1", "Asynchronous JavaScript", Video,
      "https://www.youtube.com/embed/nu_pCVPKzTk?si=GCdoE5QMUGcrgyzz", None, None, ""),
    CourseMaterial("1-38-video", "1-4-2", "API Integration", Video,
      "https://www.youtube.com/embed/nu_pCVPKzTk?si=GCdoE5QMUGcrgyzz", None, None, ""),
    CourseMaterial("1-39-video", "1-4-3", "Local Storage and Session Storage", Video,
      "https://www.youtube.com/embed/nu_pCVPKzTk?si=GCdoE5QMUGcrgyzz", None, None, ""),
    CourseMaterial("1-40-video", "1-4-4", "Final Project Setup", Video,
      "https://www.youtube.com/embed/nu_pCVPKzTk?si=GCdoE5QMUGcrgyzz", None, None, ""),
    CourseMaterial("1-41-assignment", "1-4-5", "Final Project Submission", Assignment,
      "https://storage.googleapis.com/learnhub-materials/final-project.pdf", None, None, "")
  ]

  const Course2Materials: seq<CourseMaterial> := [
    CourseMaterial("2-1-video", "2-1-1", "Python Data Types", Video,
      "https://www.youtube.com/embed/nu_pCVPKzTk?si=GCdoE5QMUGcrgyzz", None, None, ""),
    CourseMaterial("2-1-pdf", "2-1-1", "Python Cheat Sheet", Pdf,
      "https://storage.googleapis.com/learnhub-materials/python-cheatsheet.pdf", None, None, ""),
    CourseMaterial("2-2-video", "2-1-2", "Python Control Structures", Video,
      "https://www.youtube.com/embed/nu_pCVPKzTk?si=GCdoE5QMUGcrgyzz", None, None, ""),
    CourseMaterial("2-3-video", "2-1-3", "Python Functions and Modules", Video,
      "https://www.youtube.com/embed/nu_pCVPKzTk?si=GCdoE5QMUGcrgyzz", None, None, ""),
    CourseMaterial("2-4-video", "2-1-4", "Object-Oriented Programming in Python", Video,
      "https://www.youtube.com/embed/nu_pCVPKzTk?si=GCdoE5QMUGcrgyzz", None, None, ""),
    CourseMaterial("2-5-video", "2-1-5", "Error Handling and Debugging", Video,
      "https://www.youtube.com/embed/nu_pCVPKzTk?si=GCdoE5QMUGcrgyzz", None, None, ""),
    CourseMaterial("2-16-video", "2-2-1", "Pandas Introduction", Video,
      "https://www.youtube.com/embed/nu_pCVPKzTk?si=GCdoE5QMUGcrgyzz", None, None, ""),
    CourseMaterial("2-17-video", "2-2-2", "DataFrames and Series", Video,
      "https://www.youtube.com/embed/nu_pCVPKzTk?si=GCdoE5QMUGcrgyzz", None, None, ""),
    CourseMaterial("2-18-video", "2-2-3", "Data Cleaning and Preprocessing", Video,
      "https://www.youtube.com/embed/nu_pCVPKzTk?si=GCdoE5QMUGcrgyzz", None, None, ""),
    CourseMaterial("2-19-video", "2-2-4", "Data Aggregation and Grouping", Video,
      "https://www.youtube.com/embed/nu_pCVPKzTk?si=GCdoE5QMUGcrgyzz", None, None, ""),
    CourseMaterial("2-20-video", "2-2-5", "Merging and Joining Data", Video,
      "https://www.youtube.com/embed/nu_pCVPKzTk?si=GCdoE5QMUGcrgyzz", None, None, ""),
    CourseMaterial("2-31-video", "2-3-1", "Matplotlib Fundamentals", Video,
      "https://www.youtube.com/embed/nu_pCVPKzTk?si=GCdoE5QMUGcrgyzz", None, None, ""),
    CourseMaterial("2-32-video", "2-3-2", "Advanced Matplotlib Techniques", Video,
      "https://www.youtube.com/embed/nu_pCVPKzTk?si=GCdoE5QMUGcrgyzz", None, None, ""),
    CourseMaterial("2-33-video", "2-3-3", "Seaborn for Statistical Visualization", Video,
      "https://www.youtube.com/embed/nu_pCVPKzTk?si=GCdoE5QMUGcrgyzz", None, None, ""),
    CourseMaterial("2-34-video", "2-3-4", "Interactive Visualizations with Plotly", Video,
      "https://www.youtube.com/embed/nu_pCVPKzTk?si=GCdoE5QMUGcrgyzz", None, None, ""),
    CourseMaterial("2-35-video", "2-3-5", "Data Storytelling Principles", Video,
      "https://www.youtube.com/embed/nu_pCVPKzTk?si=GCdoE5QMUGcrgyzz", None, None, ""),
    CourseMaterial("2-46-video", "2-4-1", "Introduction to Machine Learning", Video,
      "https://www.youtube.com/embed/nu_pCVPKzTk?si=GCdoE5QMUGcrgyzz", None, None, ""),
    CourseMaterial("2-47-video", "2-4-2", "Scikit-learn Fundamentals", Video,
      "https://www.youtube.com/embed/nu_pCVPKzTk?si=GCdoE5QMUGcrgyzz", None, None, ""),
    CourseMaterial("2-48-video", "2-4-3", "Linear Regression", Video,
      "https://www.youtube.com/embed/nu_pCVPKzTk?si=GCdoE5QMUGcrgyzz", None, None, ""),
    CourseMaterial("2-49-video", "2-4-4", "Classification Algorithms", Video,
      "https://www.youtube.com/embed/nu_pCVPKzTk?si=GCdoE5QMUGcrgyzz", None, None, ""),
    CourseMaterial("2-50-video", "2-4-5", "Final Data Science Project", Video,
      "https://www.youtube.com/embed/nu_pCVPKzTk?si=GCdoE5QMUGcrgyzz", None, None, "")
  ]

  const Course3Materials: seq<CourseMaterial> := [
    CourseMaterial("3-1-video", "3-1-1", "Marketing Fundamentals", Video,
      "https://www.youtube.com/embed/nu_pCVPKzTk?si=GCdoE5QMUGcrgyzz", None, None, ""),
    CourseMaterial("3-1-pdf", "3-1-1", "Marketing Strategy Template", Pdf,
      "https://storage.googleapis.com/learnhub-materials/marketing-template.pdf", None, None, ""),
    CourseMaterial("3-2-video", "3-1-2", "Target Audience Research", Video,
      "https://www.youtube.com/embed/nu_pCVPKzTk?si=GCdoE5QMUGcrgyzz", None, None, ""),
    CourseMaterial("3-3-video", "3-1-3", "Brand Positioning and Messaging", Video,
      "https://www.youtube.com/embed/nu_pCVPKzTk?si=GCdoE5QMUGcrgyzz", None, None, ""),
    CourseMaterial("3-4-video", "3-1-4", "Marketing Funnel Strategy", Video,
      "https://www.youtube.com/embed/nu_pCVPKzTk?si=GCdoE5QMUGcrgyzz", None, None, ""),
    CourseMaterial("3-9-video", "3-2-1", "SEO Fundamentals", Video,
      "https://www.youtube.com/embed/nu_pCVPKzTk?si=GCdoE5QMUGcrgyzz", None, None, ""),
    CourseMaterial("3-10-video", "3-2-2", "Keyword Research and Strategy", Video,
      "https://www.youtube.com/embed/nu_pCVPKzTk?si=GCdoE5QMUGcrgyzz", None, None, ""),
    CourseMaterial("3-11-video", "3-2-3", "Content Marketing Strategy", Video,
      "https://www.youtube.com/embed/nu_pCVPKzTk?si=GCdoE5QMUGcrgyzz", None, None, ""),
    CourseMaterial("3-12-video", "3-2-4", "Blog Writing and Optimization", Video,
      "https://www.youtube.com/embed/nu_pCVPKzTk?si=GCdoE5QMUGcrgyzz", None, None, ""),
    CourseMaterial("3-17-video", "3-3-1", "Social Media Strategy", Video,
      "https://www.youtube.com/embed/nu_pCVPKzTk?si=GCdoE5QMUGcrgyzz", None, None, ""),
    CourseMaterial("3-18-video", "3-3-2", "Facebook and Instagram Marketing", Video,
      "https://www.youtube.com/embed/nu_pCVPKzTk?si=GCdoE5QMUGcrgyzz", None, None, ""),
    CourseMaterial("3-19-video", "3-3-3", "LinkedIn Marketing for B2B", Video,
      "https://www.youtube.com/embed/nu_pCVPKzTk?si=GCdoE5QMUGcrgyzz", None, None, ""),
    CourseMaterial("3-20-video", "3-3-4", "Social Media Analytics", Video,
      "https://www.youtube.com/embed/nu_pCVPKzTk?si=GCdoE5QMUGcrgyzz", None, None, ""),
    CourseMaterial("3-25-video", "3-4-1", "Google Ads Fundamentals", Video,
      "https://www.youtube.com/embed/nu_pCVPKzTk?si=GCdoE5QMUGcrgyzz", None, None, ""),
    CourseMaterial("3-26-video", "3-4-2", "Facebook Ads Manager", Video,
      "https://www.youtube.com/embed/nu_pCVPKzTk?si=GCdoE5QMUGcrgyzz", None, None, ""),
    CourseMaterial("3-27-video", "3-4-3", "Google Analytics Setup", Video,
      "https://www.youtube.com/embed/nu_pCVPKzTk?si=GCdoE5QMUGcrgyzz", None, None, ""),
    CourseMaterial("3-28-video", "3-4-4", "Marketing Campaign Optimization", Video,
      "https://www.youtube.com/embed/nu_pCVPKzTk?si=GCdoE5QMUGcrgyzz", None, None, "")
  ]

  const Course4Materials: seq<CourseMaterial> := [
    CourseMaterial("4-1-video", "4-1-1", "Introduction to Machine Learning", Video,
      "https://www.youtube.com/embed/nu_pCVPKzTk?si=GCdoE5QMUGcrgyzz", None, None, ""),
    CourseMaterial("4-2-video", "4-1-2", "Types of Machine Learning", Video,
      "https://www.youtube.com/embed/nu_pCVPKzTk?si=GCdoE5QMUGcrgyzz", None, None, ""),
    CourseMaterial("4-3-video", "4-1-3", "Data Preprocessing for ML", Video,
      "https://www.youtube.com/embed/nu_pCVPKzTk?si=GCdoE5QMUGcrgyzz", None, None, ""),
    CourseMaterial("4-4-video", "4-1-4", "Linear Regression Deep Dive", Video,
      "https://www.youtube.com/embed/nu_pCVPKzTk?si=GCdoE5QMUGcrgyzz", None, None, ""),
    CourseMaterial("4-5-video", "4-1-5", "Decision Trees and Random Forests", Video,
      "https://www.youtube.com/embed/nu_pCVPKzTk?si=GCdoE5QMUGcrgyzz", None, None, "")
  ]

  const Course5Materials: seq<CourseMaterial> := [
    CourseMaterial("5-1-video", "5-1-1", "Introduction to UX Design", Video,
      "https://www.youtube.com/embed/nu_pCVPKzTk?si=GCdoE5QMUGcrgyzz", None, None, ""),
    CourseMaterial("5-2-video", "5-1-2", "User Research Methods", Video,
      "https://www.youtube.com/embed/nu_pCVPKzTk?si=GCdoE5QMUGcrgyzz", None, None, ""),
    CourseMaterial("5-3-video", "5-1-3", "Information Architecture", Video,
      "https://www.youtube.com/embed/nu_pCVPKzTk?si=GCdoE5QMUGcrgyzz", None, None, ""),
    CourseMaterial("5-4-video", "5-1-4", "Wireframing and Prototyping", Video,
      "https://www.youtube.com/embed/nu_pCVPKzTk?si=GCdoE5QMUGcrgyzz", None, None, ""),
    CourseMaterial("5-5-video", "5-1-5", "Visual Design Principles", Video,
      "https://www.youtube.com/embed/nu_pCVPKzTk?si=GCdoE5QMUGcrgyzz", None, None, "")
  ]

  const Course6Materials: seq<CourseMaterial> := [
    CourseMaterial("6-1-video", "6-1-1", "Introduction to Business Analytics", Video,
      "https://www.youtube.com/embed/nu_pCVPKzTk?si=GCdoE5QMUGcrgyzz", None, None, ""),
    CourseMaterial("6-2-video", "6-1-2", "Excel for Business Analysis", Video,
      "https://www.youtube.com/embed/nu_pCVPKzTk?si=GCdoE5QMUGcrgyzz", None, None, ""),
    CourseMaterial("6-3-video", "6-1-3", "SQL for Business Intelligence", Video,
      "https://www.youtube.com/embed/nu_pCVPKzTk?si=GCdoE5QMUGcrgyzz", None, None, ""),
    CourseMaterial("6-4-video", "6-1-4", "Data Visualization with Tableau", Video,
      "https://www.youtube.com/embed/nu_pCVPKzTk?si=GCdoE5QMUGcrgyzz", None, None, ""),
    CourseMaterial("6-5-video", "6-1-5", "KPI Development and Tracking", Video,
      "https://www.youtube.com/embed/nu_pCVPKzTk?si=GCdoE5QMUGcrgyzz", None, None, "")
  ]

  const Course7Materials: seq<CourseMaterial> := [
    CourseMaterial("7-1-video", "7-1-1", "React Native Introduction", Video,
      "https://www.youtube.com/embed/nu_pCVPKzTk?si=GCdoE5QMUGcrgyzz", None, None, ""),
    CourseMaterial("7-2-video", "7-1-2", "Setting Up Development Environment", Video,
      "https://www.youtube.com/embed/nu_pCVPKzTk?si=GCdoE5QMUGcrgyzz", None, None, ""),
    CourseMaterial("7-3-video", "7-1-3", "React Native Components", Video,
      "https://www.youtube.com/embed/nu_pCVPKzTk?si=GCdoE5QMUGcrgyzz", None, None, ""),
    CourseMaterial("7-4-video", "7-1-4", "Navigation in React Native", Video,
      "https://www.youtube.com/embed/nu_pCVPKzTk?si=GCdoE5QMUGcrgyzz", None, None, ""),
    CourseMaterial("7-5-video", "7-1-5", "State Management in Mobile Apps", Video,
      "https://www.youtube.com/embed/nu_pCVPKzTk?si=GCdoE5QMUGcrgyzz", None, None, "")
  ]

  const Course8Materials: seq<CourseMaterial> := [
    CourseMaterial("8-1-video", "8-1-1", "Introduction to Cybersecurity", Video,
      "https://www.youtube.com/embed/nu_pCVPKzTk?si=GCdoE5QMUGcrgyzz", None, None, ""),
    CourseMaterial("8-2-video", "8-1-2", "Network Security Fundamentals", Video,
      "https://www.youtube.com/embed/nu_pCVPKzTk?si=GCdoE5QMUGcrgyzz", None, None, ""),
    CourseMaterial("8-3-video", "8-1-3", "Encryption and Cryptography", Video,
      "https://www.youtube.com/embed/nu_pCVPKzTk?si=GCdoE5QMUGcrgyzz", None, None, ""),
    CourseMaterial("8-4-video", "8-1-4", "Risk Assessment and Management", Video,
      "https://www.youtube.com/embed/nu_pCVPKzTk?si=GCdoE5QMUGcrgyzz", None, None, ""),
    CourseMaterial("8-5-video", "8-1-5", "Incident Response Planning", Video,
      "https://www.youtube.com/embed/nu_pCVPKzTk?si=GCdoE5QMUGcrgyzz", None, None, "")
  ]
  /** The keys of the seeded record, in the order `for ... in` visits them. */
  const SeedKeys: seq<string> := ["1", "2", "3", "4", "5", "6", "7", "8"]

  const Seed: map<string, seq<CourseMaterial>> := map[
    "1" := Course1Materials, "2" := Course2Materials, "3" := Course3Materials, "4" := Course4Materials,
    "5" := Course5Materials, "6" := Course6Materials, "7" := Course7Materials, "8" := Course8Materials]

  /** `getAllMaterialsForCourse`, also `courseMaterials[courseId] || []`: the course's list, empty for an unknown course. */
  function MaterialsOf(table: map<string, seq<CourseMaterial>>, courseId: string): (r: seq<CourseMaterial>)
    ensures courseId in table ==> r == table[courseId]
    ensures courseId !in table ==> r == []
  {
    if courseId in table then table[courseId] else []
  }

  /** The course a lesson id names: the text before its first "-". */
  function CourseKeyOf(lessonId: string): string {
    Split(lessonId, '-')[0]
  }

  function HasLessonId(lessonId: string): CourseMaterial -> bool {
    (m: CourseMaterial) => m.lessonId == lessonId
  }

  /** `getMaterialsForLesson`: only the course named by the lesson id's prefix is searched. */
  function GetMaterialsForLesson(table: map<string, seq<CourseMaterial>>, lessonId: string): (r: seq<CourseMaterial>)
    ensures forall i :: 0 <= i < |r| ==> r[i].lessonId == lessonId && r[i] in MaterialsOf(table, CourseKeyOf(lessonId))
    ensures CourseKeyOf(lessonId) !in table ==> r == []
  {
    Filter(MaterialsOf(table, CourseKeyOf(lessonId)), HasLessonId(lessonId))
  }

  /** Every material is filed under the course its lesson id begins with. */
  ghost predicate KeyedByCourse(table: map<string, seq<CourseMaterial>>) {
    forall k, m :: k in table && m in table[k] ==> CourseKeyOf(m.lessonId) == k
  }

  /**
   * On a table keyed by course, searching only the lesson's own course misses nothing: the lookup
   * returns, in table order, exactly the materials of that lesson.
   */
  lemma LessonLookupComplete(table: map<string, seq<CourseMaterial>>, lessonId: string)
    requires KeyedByCourse(table)
    ensures forall k, m :: k in table && m in table[k] && m.lessonId == lessonId ==>
      m in GetMaterialsForLesson(table, lessonId)
    ensures IsSubsequence(GetMaterialsForLesson(table, lessonId), MaterialsOf(table, CourseKeyOf(lessonId)))
  {
    FilterIsSubsequence(MaterialsOf(table, CourseKeyOf(lessonId)), HasLessonId(lessonId));
  }

  /** `lessonId` is `k`, then "-", then anything. */
  predicate FiledUnder(lessonId: string, k: string) {
    |k| < |lessonId| && lessonId[|k|] == '-' && forall j :: 0 <= j < |k| ==> lessonId[j] == k[j]
  }

  /** A lesson id filed under a dash-free key names that key. */
  lemma FiledUnderNamesCourse(k: string, lessonId: string)
    requires '-' !in k && FiledUnder(lessonId, k)
    ensures CourseKeyOf(lessonId) == k
  {
    var rest := lessonId[|k| + 1..];
    assert lessonId == k + ['-'] + rest;
    SplitConcat(k, rest, '-');
  }

  /** Every material of a list is filed under `k`. */
  predicate AllFiledUnder(ms: seq<CourseMaterial>, k: string) {
    forall i :: 0 <= i < |ms| ==> FiledUnder(ms[i].lessonId, k)
  }

  lemma Course1FiledUnderKey()
    ensures AllFiledUnder(Course1Materials, "1")
  {
  }

  lemma Course2FiledUnderKey()
    ensures AllFiledUnder(Course2Materials, "2")
  {
  }

  lemma Course3FiledUnderKey()
    ensures AllFiledUnder(Course3Materials, "3")
  {
  }

  lemma Course4FiledUnderKey()
    ensures AllFiledUnder(Course4Materials, "4")
  {
  }

  lemma Course5FiledUnderKey()
    ensures AllFiledUnder(Course5Materials, "5")
  {
  }

  lemma Course6FiledUnderKey()
    ensures AllFiledUnder(Course6Materials, "6")
  {
  }

  lemma Course7FiledUnderKey()
    ensures AllFiledUnder(Course7Materials, "7")
  {
  }

  lemma Course8FiledUnderKey()
    ensures AllFiledUnder(Course8Materials, "8")
  {
  }

  /** A table each of whose lists is filed under its own dash-free key is keyed by course. */
  lemma KeyedFromLists(table: map<string, seq<CourseMaterial>>)
    requires forall k :: k in table ==> '-' !in k && AllFiledUnder(table[k], k)
    ensures KeyedByCourse(table)
  {
    forall k, m | k in table && m in table[k]
      ensures CourseKeyOf(m.lessonId) == k
    {
      var i :| 0 <= i < |table[k]| && table[k][i] == m;
      FiledUnderNamesCourse(k, m.lessonId);
    }
  }

  /**
   * In the seeded table every material under key k has a lesson id beginning with k + "-", so the
   * table is keyed by course and every seeded lesson lookup is complete.
   */
  lemma SeedKeyedByCourse()
    ensures KeyedByCourse(Seed)
  {
    Course1FiledUnderKey();
    Course2FiledUnderKey();
    Course3FiledUnderKey();
    Course4FiledUnderKey();
    Course5FiledUnderKey();
    Course6FiledUnderKey();
    Course7FiledUnderKey();
    Course8FiledUnderKey();
    KeyedFromLists(Seed);
  }

  /** The visiting order lists each seeded key exactly once, in the order `for ... in` takes them. */
  lemma SeedKeysListSeed()
    ensures forall k :: k in Seed <==> k in SeedKeys
    ensures Distinct(SeedKeys) && ForInOrdered(SeedKeys)
  {
    forall i | 0 <= i < |SeedKeys|
      ensures IsArrayIndex(SeedKeys[i]) && ParseDigits(SeedKeys[i]) == i + 1
    {
      assert SeedKeys[i][..0] == [];
    }
  }

  /** A stored URL as handed to the browser: kept when it starts with "https://", else prefixed by the storage base. */
  function ResolveUrl(url: string, storageUrl: string): (r: string)
    ensures StartsWith(url, "https://") ==> r == url
    ensures !StartsWith(url, "https://") ==> |r| == |storageUrl| + |url| && r[..|storageUrl|] == storageUrl && r[|storageUrl|..] == url
  {
    if StartsWith(url, "https://") then url else storageUrl + url
  }

  /** Resolving twice changes nothing when the base is unset or itself absolute. */
  lemma ResolveUrlIdempotent(url: string, storageUrl: string)
    requires storageUrl == "" || StartsWith(storageUrl, "https://")
    ensures ResolveUrl(ResolveUrl(url, storageUrl), storageUrl) == ResolveUrl(url, storageUrl)
  {
    if !StartsWith(url, "https://") && storageUrl != "" {
      var r := storageUrl + url;
      assert r[..8] == storageUrl[..8];
    }
  }

  /** `getMaterialsForLessonWithUrls`: the same materials in the same order, only the URL resolved. */
  function GetMaterialsForLessonWithUrls(table: map<string, seq<CourseMaterial>>, lessonId: string, storageUrl: string): (r: seq<CourseMaterial>)
    ensures var ms := GetMaterialsForLesson(table, lessonId);
      |r| == |ms| && forall i :: 0 <= i < |r| ==> r[i].(url := ms[i].url) == ms[i] && r[i].url == ResolveUrl(ms[i].url, storageUrl)
  {
    var ms := GetMaterialsForLesson(table, lessonId);
    seq(|ms|, i requires 0 <= i < |ms| => ms[i].(url := ResolveUrl(ms[i].url, storageUrl)))
  }

  /** `Array.prototype.find` by material id. */
  function FindMaterial(ms: seq<CourseMaterial>, materialId: string): (r: Option<CourseMaterial>)
    ensures r.Some? ==> r.value in ms && r.value.id == materialId
    ensures r.Some? ==> exists k :: 0 <= k < |ms| && ms[k] == r.value && forall j :: 0 <= j < k ==> ms[j].id != materialId
    ensures r.None? <==> forall m :: m in ms ==> m.id != materialId
  {
    if ms == [] then None
    else if ms[0].id == materialId then Some(ms[0])
    else
      var r := FindMaterial(ms[1..], materialId);
      assert r.Some? ==> exists k :: 0 <= k < |ms| && ms[k] == r.value && forall j :: 0 <= j < k ==> ms[j].id != materialId by {
        if r.Some? {
          var k :| 0 <= k < |ms[1..]| && ms[1..][k] == r.value && forall j :: 0 <= j < k ==> ms[1..][j].id != materialId;
          assert ms[k + 1] == r.value;
          forall j | 0 <= j < k + 1 ensures ms[j].id != materialId {
            if j > 0 {
              assert ms[j] == ms[1..][j - 1];
            }
          }
        }
      }
      r
  }

  /** No course before position `i` of `order` holds a material with that id. */
  predicate NoneBefore(table: map<string, seq<CourseMaterial>>, order: seq<string>, materialId: string, i: nat)
    requires i <= |order|
  {
    forall j, m :: 0 <= j < i && m in MaterialsOf(table, order[j]) ==> m.id != materialId
  }

  /** The URL `getMaterialUrl` returns when the courses are visited in `order`. */
  function MaterialUrl(table: map<string, seq<CourseMaterial>>, order: seq<string>, materialId: string, storageUrl: string): Option<string> {
    if order == [] then None
    else match FindMaterial(MaterialsOf(table, order[0]), materialId)
      case Some(m) => Some(ResolveUrl(m.url, storageUrl))
      case None => MaterialUrl(table, order[1..], materialId, storageUrl)
  }

  /**
   * When `order` lists every course: no URL exactly when no course has a material with that id,
   * and a URL is always some such material's resolved URL.
   */
  lemma {:induction false} MaterialUrlSpec(table: map<string, seq<CourseMaterial>>, order: seq<string>, materialId: string, storageUrl: string)
    ensures MaterialUrl(table, order, materialId, storageUrl).None? <==>
      forall i, m :: 0 <= i < |order| && m in MaterialsOf(table, order[i]) ==> m.id != materialId
    ensures MaterialUrl(table, order, materialId, storageUrl).Some? ==>
      exists i, m :: 0 <= i < |order| && m in MaterialsOf(table, order[i]) && m.id == materialId
        && MaterialUrl(table, order, materialId, storageUrl).value == ResolveUrl(m.url, storageUrl)
  {
    if order != [] {
      MaterialUrlSpec(table, order[1..], materialId, storageUrl);
      var f := FindMaterial(MaterialsOf(table, order[0]), materialId);
      if f.Some? {
        assert 0 < |order| && f.value in MaterialsOf(table, order[0]);
      } else {
        forall i, m | 1 <= i < |order| && m in MaterialsOf(table, order[i])
          ensures m in MaterialsOf(table, order[1..][i - 1])
        {
          assert order[1..][i - 1] == order[i];
        }
        if MaterialUrl(table, order, materialId, storageUrl).Some? {
          var i, m :| 0 <= i < |order[1..]| && m in MaterialsOf(table, order[1..][i]) && m.id == materialId
            && MaterialUrl(table, order, materialId, storageUrl).value == ResolveUrl(m.url, storageUrl);
          assert m in MaterialsOf(table, order[i + 1]);
        }
      }
    }
  }

  /**
   * The URL comes from the first course, in visiting order, that holds a material with that id,
   * and within it from the first such material (`FindMaterial` returns the first match).
   */
  lemma {:induction false} MaterialUrlFirst(table: map<string, seq<CourseMaterial>>, order: seq<string>, materialId: string, storageUrl: string)
    requires MaterialUrl(table, order, materialId, storageUrl).Some?
    ensures exists i ::
      && 0 <= i < |order| && NoneBefore(table, order, materialId, i)
      && FindMaterial(MaterialsOf(table, order[i]), materialId).Some?
      && MaterialUrl(table, order, materialId, storageUrl).value
         == ResolveUrl(FindMaterial(MaterialsOf(table, order[i]), materialId).value.url, storageUrl)
  {
    var f := FindMaterial(MaterialsOf(table, order[0]), materialId);
    if f.Some? {
      assert NoneBefore(table, order, materialId, 0);
    } else {
      var rest := order[1..];
      MaterialUrlFirst(table, rest, materialId, storageUrl);
      var i :| 0 <= i < |rest| && NoneBefore(table, rest, materialId, i)
        && FindMaterial(MaterialsOf(table, rest[i]), materialId).Some?
        && MaterialUrl(table, rest, materialId, storageUrl).value
           == ResolveUrl(FindMaterial(MaterialsOf(table, rest[i]), materialId).value.url, storageUrl);
      assert rest[i] == order[i + 1];
      forall j, m | 0 <= j < i + 1 && m in MaterialsOf(table, order[j]) ensures m.id != materialId {
        if j > 0 {
          assert order[j] == rest[j - 1];
        }
      }
      assert NoneBefore(table, order, materialId, i + 1);
    }
  }

  /** The duration text of an uploaded video: whole minutes, ":", seconds padded to two digits. */
  function VideoDuration(seconds: nat): string {
    NatToString(seconds / 60) + ":" + PadStart(NatToString(seconds % 60), 2, '0')
  }

  lemma {:induction false} ParseLeadingZero(s: string)
    requires forall i :: 0 <= i < |s| ==> IsDigit(s[i])
    ensures forall i :: 0 <= i < |['0'] + s| ==> IsDigit((['0'] + s)[i])
    ensures ParseDigits(['0'] + s) == ParseDigits(s)
    decreases |s|
  {
    if s != [] {
      var t := ['0'] + s;
      assert t[..|t| - 1] == ['0'] + s[..|s| - 1];
      ParseLeadingZero(s[..|s| - 1]);
    }
  }

  lemma NatToStringBelow60(n: nat)
    requires n < 60
    ensures |NatToString(n)| <= 2
  {
  }

  /** The duration text reads back: two fields around one ":", two-digit seconds, and the same number of seconds. */
  lemma VideoDurationRoundTrip(seconds: nat)
    ensures var p := Split(VideoDuration(seconds), ':');
      |p| == 2 && |p[1]| == 2
      && (forall i :: 0 <= i < |p[0]| ==> IsDigit(p[0][i]))
      && (forall i :: 0 <= i < |p[1]| ==> IsDigit(p[1][i]))
      && ParseDigits(p[0]) * 60 + ParseDigits(p[1]) == seconds
  {
    var mins := NatToString(seconds / 60);
    var secs := NatToString(seconds % 60);
    var padded := PadStart(secs, 2, '0');
    NatToStringBelow60(seconds % 60);
    assert ':' !in mins && ':' !in padded;
    assert VideoDuration(seconds) == mins + [':'] + padded;
    SplitConcat(mins, padded, ':');
    SplitSingle(padded, ':');
    assert Split(padded, ':') == [padded] by {
      SplitFirst(padded, ':');
    }
    ParsePrintRoundTrip(seconds / 60);
    ParsePrintRoundTrip(seconds % 60);
    if |secs| == 1 {
      assert padded == ['0'] + secs;
      ParseLeadingZero(secs);
    } else {
      assert padded == secs;
    }
  }

  /** The record of course materials, updated in place when a material is added. */
  class MaterialStore {
    var courseMaterials: map<string, seq<CourseMaterial>>
    /** The record's keys in the order `for ... in` visits them. */
    var courseOrder: seq<string>

    ghost predicate Valid()
      reads this
    {
      (forall k :: k in courseMaterials <==> k in courseOrder) && Distinct(courseOrder) && ForInOrdered(courseOrder)
    }

    /** The seeded catalogue. */
    constructor()
      ensures Valid() && courseMaterials == Seed && courseOrder == SeedKeys
    {
      SeedKeysListSeed();
      courseMaterials := Seed;
      courseOrder := SeedKeys;
    }

    /** `addMaterialToCourse`: the material is appended to its course's list, created empty if missing. */
    method AddMaterialToCourse(courseId: string, material: CourseMaterial)
      requires Valid()
      modifies this
      ensures Valid()
      ensures courseMaterials == old(courseMaterials)[courseId := MaterialsOf(old(courseMaterials), courseId) + [material]]
      ensures courseOrder == if courseId in old(courseMaterials) then old(courseOrder) else InsertKey(old(courseOrder), courseId)
    {
      if courseId !in courseMaterials {
        InsertKeyOrdered(courseOrder, courseId);
        courseMaterials := courseMaterials[courseId := []];
        courseOrder := InsertKey(courseOrder, courseId);
      }
      courseMaterials := courseMaterials[courseId := courseMaterials[courseId] + [material]];
    }

    /** `getMaterialUrl`: the first course, in visiting order, holding a material with that id decides the URL. */
    method GetMaterialUrl(materialId: string, storageUrl: string) returns (r: Option<string>)
      requires Valid()
      ensures r == MaterialUrl(courseMaterials, courseOrder, materialId, storageUrl)
    {
      var i := 0;
      while i < |courseOrder|
        invariant 0 <= i <= |courseOrder|
        invariant MaterialUrl(courseMaterials, courseOrder, materialId, storageUrl)
          == MaterialUrl(courseMaterials, courseOrder[i..], materialId, storageUrl)
      {
        assert courseOrder[i..][1..] == courseOrder[i + 1..];
        var found := FindMaterial(courseMaterials[courseOrder[i]], materialId);
        if found.Some? {
          return Some(ResolveUrl(found.value.url, storageUrl));
        }
        i := i + 1;
      }
      return None;
    }
  }

  /**
   * Adding a material to the course its lesson id names keeps the table keyed by course, and the
   * lesson lookup then ends with that material.
   */
  lemma AddKeepsLessonLookup(table: map<string, seq<CourseMaterial>>, courseId: string, material: CourseMaterial)
    requires KeyedByCourse(table) && CourseKeyOf(material.lessonId) == courseId
    ensures var t := table[courseId := MaterialsOf(table, courseId) + [material]];
      KeyedByCourse(t)
      && GetMaterialsForLesson(t, material.lessonId) == GetMaterialsForLesson(table, material.lessonId) + [material]
  {
    var t := table[courseId := MaterialsOf(table, courseId) + [material]];
    FilterAppend(MaterialsOf(table, courseId), [material], HasLessonId(material.lessonId));
    forall k: string, m: CourseMaterial | k in t && m in t[k]
      ensures CourseKeyOf(m.lessonId) == k
    {
      if k == courseId && m != material {
        assert m in MaterialsOf(table, courseId);
      }
    }
  }

  /**
   * A course added under the key "0" is visited before the seeded courses "1" to "8", so a
   * material filed there decides the URL of its id even when a seeded course holds the same id.
   */
  lemma IndexKeyVisitedFirst(m: CourseMaterial, storageUrl: string)
    ensures InsertKey(SeedKeys, "0") == ["0"] + SeedKeys
    ensures MaterialUrl(Seed["0" := MaterialsOf(Seed, "0") + [m]], InsertKey(SeedKeys, "0"), m.id, storageUrl)
         == Some(ResolveUrl(m.url, storageUrl))
  {
    assert "0"[..0] == [] && "1"[..0] == [];
    assert "0" !in Seed;
  }
}
