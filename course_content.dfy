/**
 * The course page's lesson logic (learnhub/components/courses/course-content.tsx): the lesson
 * list generated from the course, the module titles, which lessons are locked, the lesson opened
 * on arrival, and what completing a material or a lesson does.
 *
 * Each lesson's random duration, type and completed flag are left out; the page state the
 * handlers update is a class, and the progress tracker they call is the one of ProgressTracking.
 */
module CourseContent {
  import opened Wrappers
  import opened Strings
  import Courses
  import CourseMaterials
  import ProgressTracking
  import Certificates

  /** A generated lesson: id, title, module number, number within the module, and the `locked` flag it is born with. */
  datatype Lesson = Lesson(id: string, title: string, moduleNo: nat, number: nat, locked: bool)

  /** `Math.ceil(n / 4)`. */
  function LessonsPerModule(n: nat): nat {
    (n + 3) / 4
  }

  const ModuleTitles: map<string, seq<string>> := map[
    "Web Development" := ["HTML Basics", "CSS Styling", "JavaScript Fundamentals", "Advanced Topics"],
    "Data Science" := ["Python Basics", "Data Analysis", "Visualization", "Machine Learning"],
    "Digital Marketing" := ["Marketing Fundamentals", "SEO Strategies", "Social Media", "Analytics"],
    "Machine Learning" := ["ML Foundations", "Algorithms", "Neural Networks", "Deep Learning"],
    "UX/UI Design" := ["Design Principles", "User Research", "Prototyping", "Testing"],
    "Business Analytics" := ["Data Fundamentals", "Excel Mastery", "SQL Queries", "Business Intelligence"],
    "Mobile Development" := ["React Native Basics", "UI Components", "Navigation", "Publishing"],
    "Cybersecurity" := ["Security Basics", "Network Security", "Encryption", "Risk Management"]]

  /** `getModuleTitle`: the category's title for that module, else "Module <n>". */
  function ModuleTitle(category: string, moduleNo: nat): string {
    if category in ModuleTitles && 1 <= moduleNo <= |ModuleTitles[category]| then ModuleTitles[category][moduleNo - 1]
    else "Module " + NatToString(moduleNo)
  }

  /** Every known category names four modules, each with a non-empty title. */
  lemma ModuleTitlesComplete(category: string, moduleNo: nat)
    requires category in ModuleTitles && 1 <= moduleNo <= 4
    ensures ModuleTitle(category, moduleNo) == ModuleTitles[category][moduleNo - 1] != ""
  {
  }

  /** An unknown category, or a module outside 1..4, falls back to "Module " and the number, which reads back. */
  lemma ModuleTitleFallback(category: string, moduleNo: nat)
    requires category !in ModuleTitles || moduleNo == 0 || moduleNo > 4
    ensures var t := ModuleTitle(category, moduleNo);
      |t| > 7 && t[..7] == "Module "
      && (forall i :: 7 <= i < |t| ==> IsDigit(t[i])) && ParseDigits(t[7..]) == moduleNo
  {
    var t := ModuleTitle(category, moduleNo);
    assert t == "Module " + NatToString(moduleNo);
    assert t[7..] == NatToString(moduleNo);
    ParsePrintRoundTrip(moduleNo);
  }

  function LessonId(courseId: string, moduleNo: nat, number: nat): string {
    courseId + "-" + NatToString(moduleNo) + "-" + NatToString(number)
  }

  /** The module of position i when each module holds `per` lessons. */
  function ModuleOf(per: nat, i: nat): nat
    requires per > 0
  {
    i / per + 1
  }

  /** The number within its module of position i. */
  function NumberOf(per: nat, i: nat): nat
    requires per > 0
  {
    i % per + 1
  }

  /** The lesson at position i of the generated list, in closed form. */
  function LessonAt(course: Courses.Course, i: nat): Lesson
    requires i < course.lessons
  {
    var per := LessonsPerModule(course.lessons);
    Lesson(LessonId(course.id, ModuleOf(per, i), NumberOf(per, i)),
           ModuleTitle(course.category, ModuleOf(per, i)) + " - Lesson " + NatToString(NumberOf(per, i)),
           ModuleOf(per, i), NumberOf(per, i), i > 2)
  }

  lemma MulMonotone(a: int, b: int, c: nat)
    requires a <= b
    ensures a * c <= b * c
  {
  }

  /** Euclidean division of q * per + r by per, for 0 <= r < per. */
  lemma DivModOf(q: nat, r: nat, per: nat)
    requires r < per
    ensures (q * per + r) / per == q && (q * per + r) % per == r
  {
    var x := q * per + r;
    var a := x / per;
    var b := x % per;
    assert (a - q) * per == r - b;
    if a > q {
      MulMonotone(1, a - q, per);
    } else if a < q {
      MulMonotone(a - q, -1, per);
    }
  }

  /**
   * `generateLessons`: four modules of ⌈n/4⌉ lessons each, stopping at n lessons. Its result has
   * exactly `course.lessons` entries, each the closed-form lesson of its position.
   */
  method GenerateLessons(course: Courses.Course) returns (lessons: seq<Lesson>)
    ensures |lessons| == course.lessons
    ensures forall i :: 0 <= i < |lessons| ==> lessons[i] == LessonAt(course, i)
  {
    var n := course.lessons;
    lessons := [];
    var per := LessonsPerModule(n);
    var moduleNo := 1;
    while moduleNo <= 4
      invariant 1 <= moduleNo <= 5
      invariant |lessons| == if n <= (moduleNo - 1) * per then n else (moduleNo - 1) * per
      invariant forall i :: 0 <= i < |lessons| ==> i < n && lessons[i] == LessonAt(course, i)
    {
      var moduleTitle := ModuleTitle(course.category, moduleNo);
      var lesson := 1;
      while lesson <= per && |lessons| < n
        invariant 1 <= lesson <= per + 1
        invariant |lessons| == if n <= (moduleNo - 1) * per + lesson - 1 then n else (moduleNo - 1) * per + lesson - 1
        invariant forall i :: 0 <= i < |lessons| ==> i < n && lessons[i] == LessonAt(course, i)
      {
        DivModOf(moduleNo - 1, lesson - 1, per);
        lessons := lessons + [Lesson(LessonId(course.id, moduleNo, lesson),
                                     moduleTitle + " - Lesson " + NatToString(lesson),
                                     moduleNo, lesson, |lessons| > 2)];
        lesson := lesson + 1;
      }
      moduleNo := moduleNo + 1;
    }
  }

  /** ⌈n/4⌉ modules of four hold all n lessons. */
  lemma FourModulesSuffice(n: nat)
    ensures n <= 4 * LessonsPerModule(n)
    ensures n > 0 ==> LessonsPerModule(n) > 0
  {
  }

  /** Generated lessons sit in modules 1..4, numbered 1..⌈n/4⌉, with module numbers never decreasing. */
  lemma LessonShape(n: nat, i: nat, j: nat)
    requires i <= j < n
    ensures var per := LessonsPerModule(n);
      && per > 0
      && 1 <= ModuleOf(per, i) <= 4 && 1 <= NumberOf(per, i) <= per
      && ModuleOf(per, i) <= ModuleOf(per, j)
  {
    var per := LessonsPerModule(n);
    FourModulesSuffice(n);
    DivBelow(i, per, 4);
    DivMonotone(i, j, per);
  }

  /** A dividend below m * per has a quotient below m. */
  lemma DivBelow(x: nat, per: nat, m: nat)
    requires per > 0 && x < m * per
    ensures x / per < m
  {
    if x / per >= m {
      MulMonotone(m, x / per, per);
    }
  }

  /** Division by a positive number is monotone. */
  lemma DivMonotone(i: nat, j: nat, per: nat)
    requires per > 0 && i <= j
    ensures i / per <= j / per
  {
    if i / per > j / per {
      MulMonotone(j / per + 1, i / per, per);
    }
  }

  lemma NatToStringInjective(a: nat, b: nat)
    requires NatToString(a) == NatToString(b)
    ensures a == b
  {
    ParsePrintRoundTrip(a);
    ParsePrintRoundTrip(b);
  }

  /** The id's module and number are read back from its last two dash-separated fields. */
  lemma LessonIdDecodes(courseId: string, moduleNo: nat, number: nat)
    ensures var id := LessonId(courseId, moduleNo, number);
      var rest := id[|courseId| + 1..];
      |id| > |courseId| && id[..|courseId| + 1] == courseId + "-"
      && Split(rest, '-') == [NatToString(moduleNo), NatToString(number)]
  {
    var m := NatToString(moduleNo);
    var l := NatToString(number);
    var id := LessonId(courseId, moduleNo, number);
    assert id == (courseId + "-") + (m + ['-'] + l);
    assert id[|courseId| + 1..] == m + ['-'] + l;
    assert '-' !in m && '-' !in l;
    SplitConcat(m, l, '-');
    SplitSingle(l, '-');
    SplitFirst(l, '-');
  }

  /** A lesson id determines its module and number. */
  lemma LessonIdInjective(courseId: string, m1: nat, n1: nat, m2: nat, n2: nat)
    requires LessonId(courseId, m1, n1) == LessonId(courseId, m2, n2)
    ensures m1 == m2 && n1 == n2
  {
    LessonIdDecodes(courseId, m1, n1);
    LessonIdDecodes(courseId, m2, n2);
    NatToStringInjective(m1, m2);
    NatToStringInjective(n1, n2);
  }

  /** A position is determined by its module and number. */
  lemma PositionDetermined(per: nat, i: nat, j: nat)
    requires per > 0 && ModuleOf(per, i) == ModuleOf(per, j) && NumberOf(per, i) == NumberOf(per, j)
    ensures i == j
  {
    assert i == (i / per) * per + i % per;
    assert j == (j / per) * per + j % per;
  }

  /** Distinct positions give distinct (module, number) pairs, hence distinct ids. */
  lemma LessonIdsDistinct(courseId: string, per: nat, i: nat, j: nat)
    requires per > 0 && i < j
    ensures LessonId(courseId, ModuleOf(per, i), NumberOf(per, i)) != LessonId(courseId, ModuleOf(per, j), NumberOf(per, j))
  {
    if LessonId(courseId, ModuleOf(per, i), NumberOf(per, i)) == LessonId(courseId, ModuleOf(per, j), NumberOf(per, j)) {
      LessonIdInjective(courseId, ModuleOf(per, i), NumberOf(per, i), ModuleOf(per, j), NumberOf(per, j));
      PositionDetermined(per, i, j);
    }
  }

  /** The generated lessons have pairwise distinct ids. */
  lemma GeneratedIdsDistinct(course: Courses.Course, lessons: seq<Lesson>)
    requires |lessons| == course.lessons
    requires forall i :: 0 <= i < |lessons| ==> lessons[i] == LessonAt(course, i)
    ensures DistinctIds(lessons)
  {
    var per := LessonsPerModule(course.lessons);
    forall i, j | 0 <= i < j < |lessons|
      ensures lessons[i].id != lessons[j].id
    {
      LessonIdsDistinct(course.id, per, i, j);
    }
  }

  /** The lesson's progress record says it is completed; no record or no progress means not completed. */
  predicate IsCompleted(courseProgress: Option<ProgressTracking.CourseProgress>, lessonId: string) {
    courseProgress.Some? &&
    match ProgressTracking.FindLesson(courseProgress.value.lessonsProgress, lessonId)
    case Some(k) => courseProgress.value.lessonsProgress[k].completed
    case None => false
  }

  /** The lock map after visiting `lessons` in order: the first is open, each later one locked unless its predecessor is completed. */
  function LockMap(lessons: seq<Lesson>, courseProgress: Option<ProgressTracking.CourseProgress>): map<string, bool>
    decreases |lessons|
  {
    if lessons == [] then map[]
    else
      var n := |lessons| - 1;
      var m := LockMap(lessons[..n], courseProgress);
      if n == 0 then m[lessons[n].id := false]
      else m[lessons[n].id := !IsCompleted(courseProgress, lessons[n - 1].id)]
  }

  /** The `lockedLessons` memo: one pass setting each lesson's entry. */
  method ComputeLocks(lessons: seq<Lesson>, courseProgress: Option<ProgressTracking.CourseProgress>)
    returns (lockMap: map<string, bool>)
    ensures lockMap == LockMap(lessons, courseProgress)
  {
    lockMap := map[];
    var i := 0;
    while i < |lessons|
      invariant 0 <= i <= |lessons|
      invariant lockMap == LockMap(lessons[..i], courseProgress)
    {
      assert lessons[..i + 1][..i] == lessons[..i];
      var lesson := lessons[i];
      if i == 0 {
        lockMap := lockMap[lesson.id := false];
        i := i + 1;
        continue;
      }
      var prevLesson := lessons[i - 1];
      var isPrevCompleted := IsCompleted(courseProgress, prevLesson.id);
      lockMap := lockMap[lesson.id := !isPrevCompleted];
      i := i + 1;
    }
    assert lessons[..i] == lessons;
  }

  predicate DistinctIds(lessons: seq<Lesson>) {
    forall i, j :: 0 <= i < j < |lessons| ==> lessons[i].id != lessons[j].id
  }

  /**
   * With distinct ids every lesson has an entry: the first is never locked, and lesson i > 0 is
   * locked exactly when lesson i - 1 is not completed.
   */
  lemma {:induction false} LockMapSpec(lessons: seq<Lesson>, courseProgress: Option<ProgressTracking.CourseProgress>)
    requires DistinctIds(lessons)
    ensures var m := LockMap(lessons, courseProgress);
      forall i :: 0 <= i < |lessons| ==>
        lessons[i].id in m && m[lessons[i].id] == (i > 0 && !IsCompleted(courseProgress, lessons[i - 1].id))
    ensures lessons != [] ==> lessons[0].id in LockMap(lessons, courseProgress) && !LockMap(lessons, courseProgress)[lessons[0].id]
    decreases |lessons|
  {
    if lessons != [] {
      var n := |lessons| - 1;
      var init := lessons[..n];
      LockMapSpec(init, courseProgress);
      var m0 := LockMap(init, courseProgress);
      var m := LockMap(lessons, courseProgress);
      forall i | 0 <= i < |lessons|
        ensures lessons[i].id in m && m[lessons[i].id] == (i > 0 && !IsCompleted(courseProgress, lessons[i - 1].id))
      {
        if i < n {
          assert init[i] == lessons[i] && lessons[i].id != lessons[n].id;
          if i > 0 {
            assert init[i - 1] == lessons[i - 1];
          }
        }
      }
    }
  }

  /** `!lockedLessons.get(id)`: a lesson without an entry counts as open. */
  predicate IsOpen(lockMap: map<string, bool>, id: string) {
    !(id in lockMap && lockMap[id])
  }

  /** `lessons.find(l => !locked(l))`. */
  function FirstOpen(lessons: seq<Lesson>, lockMap: map<string, bool>): (r: Option<Lesson>)
    ensures r.Some? ==> r.value in lessons && IsOpen(lockMap, r.value.id)
    ensures r.None? ==> forall i :: 0 <= i < |lessons| ==> !IsOpen(lockMap, lessons[i].id)
    ensures lessons != [] && IsOpen(lockMap, lessons[0].id) ==> r == Some(lessons[0])
  {
    if lessons == [] then None
    else if IsOpen(lockMap, lessons[0].id) then Some(lessons[0])
    else FirstOpen(lessons[1..], lockMap)
  }

  /** A lesson id is set when it is present and non-empty (the page tests it for truthiness). */
  predicate IsSet(active: Option<string>) {
    active.Some? && active.value != ""
  }

  /** The auto-start effect: with `?start=1` and no lesson open, open the first open lesson, else the first lesson. */
  function AutoStart(start: Option<string>, active: Option<string>, lessons: seq<Lesson>, lockMap: map<string, bool>): Option<string> {
    if start == Some("1") && !IsSet(active) then
      var pick := match FirstOpen(lessons, lockMap)
        case Some(l) => Some(l)
        case None => if lessons == [] then None else Some(lessons[0]);
      if pick.Some? && pick.value.id != "" then Some(pick.value.id) else None
    else active
  }

  lemma FirstLessonId(course: Courses.Course)
    requires course.lessons > 0
    ensures LessonAt(course, 0).id == LessonId(course.id, 1, 1)
  {
    FourModulesSuffice(course.lessons);
  }

  /** The first lesson is never locked, so auto-start opens it whenever its id is non-empty. */
  lemma AutoStartOpensFirst(lessons: seq<Lesson>, courseProgress: Option<ProgressTracking.CourseProgress>)
    requires DistinctIds(lessons) && lessons != [] && lessons[0].id != ""
    ensures AutoStart(Some("1"), None, lessons, LockMap(lessons, courseProgress)) == Some(lessons[0].id)
  {
    LockMapSpec(lessons, courseProgress);
    var m := LockMap(lessons, courseProgress);
    assert IsOpen(m, lessons[0].id);
    assert FirstOpen(lessons, m) == Some(lessons[0]);
  }

  /** On a generated course the first lesson is never locked, so auto-start always opens lesson one. */
  lemma AutoStartOpensFirstLesson(course: Courses.Course, lessons: seq<Lesson>, courseProgress: Option<ProgressTracking.CourseProgress>)
    requires |lessons| == course.lessons > 0
    requires forall i :: 0 <= i < |lessons| ==> lessons[i] == LessonAt(course, i)
    ensures AutoStart(Some("1"), None, lessons, LockMap(lessons, courseProgress)) == Some(LessonId(course.id, 1, 1))
  {
    GeneratedIdsDistinct(course, lessons);
    FirstLessonId(course);
    assert lessons[0].id == LessonId(course.id, 1, 1);
    AutoStartOpensFirst(lessons, courseProgress);
  }

  /** Without `?start=1`, or with a lesson already open, auto-start changes nothing. */
  lemma AutoStartOnlyWhenIdle(start: Option<string>, active: Option<string>, lessons: seq<Lesson>, lockMap: map<string, bool>)
    requires start != Some("1") || IsSet(active)
    ensures AutoStart(start, active, lessons, lockMap) == active
  {
  }

  /** `lessons.findIndex(l => l.id === lessonId)`. */
  function FindIndex(lessons: seq<Lesson>, lessonId: string): (r: Option<nat>)
    ensures r.Some? ==>
      r.value < |lessons| && lessons[r.value].id == lessonId && forall k :: 0 <= k < r.value ==> lessons[k].id != lessonId
    ensures r.None? <==> forall k :: 0 <= k < |lessons| ==> lessons[k].id != lessonId
  {
    if lessons == [] then None
    else if lessons[0].id == lessonId then Some(0)
    else match FindIndex(lessons[1..], lessonId)
      case Some(k) => Some(k + 1)
      case None => None
  }

  /** The open lesson after completing `lessonId`: the next lesson if there is one. */
  function NextActive(lessons: seq<Lesson>, lessonId: string, active: Option<string>): Option<string> {
    match FindIndex(lessons, lessonId)
    case Some(i) => if i + 1 < |lessons| then Some(lessons[i + 1].id) else active
    case None => active
  }

  /** Completing lesson i advances to lesson i + 1; completing the last lesson, or an unknown one, keeps the open lesson. */
  lemma NextActiveSpec(lessons: seq<Lesson>, i: nat, active: Option<string>)
    requires DistinctIds(lessons) && i < |lessons|
    ensures i + 1 < |lessons| ==> NextActive(lessons, lessons[i].id, active) == Some(lessons[i + 1].id)
    ensures i + 1 == |lessons| ==> NextActive(lessons, lessons[i].id, active) == active
  {
    var r := FindIndex(lessons, lessons[i].id);
    assert r.Some?;
  }

  /** The ids of the video materials, in order. */
  function VideoIds(materials: seq<CourseMaterials.CourseMaterial>): (ids: seq<string>)
    ensures |ids| <= |materials|
    ensures forall m :: m in materials && m.kind == CourseMaterials.Video ==> m.id in ids
    ensures forall id :: id in ids ==> exists m :: m in materials && m.kind == CourseMaterials.Video && m.id == id
  {
    if materials == [] then []
    else
      var rest := VideoIds(materials[1..]);
      assert forall id :: id in rest ==> exists m :: m in materials && m.kind == CourseMaterials.Video && m.id == id by {
        forall id | id in rest
          ensures exists m :: m in materials && m.kind == CourseMaterials.Video && m.id == id
        {
          var m :| m in materials[1..] && m.kind == CourseMaterials.Video && m.id == id;
          assert m in materials;
        }
      }
      assert materials[0] in materials;
      (if materials[0].kind == CourseMaterials.Video then [materials[0].id] else []) + rest
  }

  /** The auto-complete test: at least one video, and each video is the one just finished or finished before. */
  predicate AllVideosDone(materials: seq<CourseMaterials.CourseMaterial>, materialId: string, completed: set<string>) {
    var ids := VideoIds(materials);
    |ids| > 0 && forall i :: 0 <= i < |ids| ==> ids[i] == materialId || ids[i] in completed
  }

  /** The test in terms of the materials themselves. */
  lemma AllVideosDoneSpec(materials: seq<CourseMaterials.CourseMaterial>, materialId: string, completed: set<string>)
    ensures AllVideosDone(materials, materialId, completed) <==>
      (exists m :: m in materials && m.kind == CourseMaterials.Video)
      && forall m :: m in materials && m.kind == CourseMaterials.Video ==> m.id == materialId || m.id in completed
  {
    var ids := VideoIds(materials);
    if |ids| > 0 {
      assert ids[0] in ids;
      var m :| m in materials && m.kind == CourseMaterials.Video && m.id == ids[0];
    }
    if exists m :: m in materials && m.kind == CourseMaterials.Video {
      var m :| m in materials && m.kind == CourseMaterials.Video;
      assert m.id in ids;
    }
    if AllVideosDone(materials, materialId, completed) {
      forall m | m in materials && m.kind == CourseMaterials.Video
        ensures m.id == materialId || m.id in completed
      {
        var i :| 0 <= i < |ids| && ids[i] == m.id;
      }
    }
    if forall m :: m in materials && m.kind == CourseMaterials.Video ==> m.id == materialId || m.id in completed {
      forall i | 0 <= i < |ids|
        ensures ids[i] == materialId || ids[i] in completed
      {
        assert ids[i] in ids;
        var m :| m in materials && m.kind == CourseMaterials.Video && m.id == ids[i];
      }
    }
  }

  /** The page's state: the lessons, the open lesson and the materials finished on this page. */
  class CourseContentView {
    const course: Courses.Course
    const lessons: seq<Lesson>
    var activeLesson: Option<string>
    var completedMaterials: set<string>

    constructor(course: Courses.Course, lessons: seq<Lesson>)
      ensures this.course == course && this.lessons == lessons
      ensures activeLesson == None && completedMaterials == {}
    {
      this.course := course;
      this.lessons := lessons;
      activeLesson := None;
      completedMaterials := {};
    }

    /**
     * `handleLessonComplete`: a signed-in user's lesson is recorded as completed (with the time
     * spent), and the next lesson, if any, is opened.
     */
    method HandleLessonComplete(lessonId: string, user: Option<string>, timeSpent: int, now: nat,
                                tracker: ProgressTracking.ProgressTracker, certificates: Certificates.CertificateManager,
                                catalog: seq<Courses.Course>, idRandom: string, numberRandom: string)
      requires tracker.Valid() && certificates.Valid()
      modifies this, tracker, certificates
      ensures tracker.Valid() && certificates.Valid()
      ensures activeLesson == NextActive(lessons, lessonId, old(activeLesson))
      ensures completedMaterials == old(completedMaterials)
      ensures user.None? ==>
        && tracker.progressData == old(tracker.progressData)
        && certificates.certificates == old(certificates.certificates)
        && certificates.userOrder == old(certificates.userOrder)
      ensures user.Some? ==>
        var m1 := ProgressTracking.LessonStep(old(tracker.progressData), user.value, course.id, lessonId,
                    ProgressTracking.Update(ProgressTracking.LessonUpdate(Some(true), None, Some(timeSpent), None), now));
        var issued := ProgressTracking.CourseIssued(m1, user.value, course.id, catalog, now, idRandom, numberRandom);
        && tracker.progressData == ProgressTracking.CourseStep(m1, user.value, course.id, now)
        && certificates.certificates == ProgressTracking.CertificatesAfter(old(certificates.certificates), user.value, issued)
        && certificates.userOrder ==
             ProgressTracking.OrderAfter(old(certificates.userOrder), old(certificates.certificates), user.value, issued)
    {
      if user.Some? {
        tracker.UpdateLessonProgress(user.value, course.id, lessonId,
          ProgressTracking.LessonUpdate(Some(true), None, Some(timeSpent), None), now,
          catalog, certificates, idRandom, numberRandom);
      }
      var idx := FindIndex(lessons, lessonId);
      if idx.Some? && idx.value + 1 < |lessons| {
        activeLesson := Some(lessons[idx.value + 1].id);
      }
    }

    /**
     * `handleMaterialComplete`: the material joins the finished set, is recorded for a signed-in
     * user, and when every video of the open lesson is now finished the lesson is completed.
     * The test reads the finished set as it was before this call, plus the material itself.
     */
    method HandleMaterialComplete(materialId: string, table: map<string, seq<CourseMaterials.CourseMaterial>>,
                                  user: Option<string>, timeSpent: int, now: nat,
                                  tracker: ProgressTracking.ProgressTracker, certificates: Certificates.CertificateManager,
                                  catalog: seq<Courses.Course>, idRandom: string, numberRandom: string)
      requires tracker.Valid() && certificates.Valid()
      modifies this, tracker, certificates
      ensures tracker.Valid() && certificates.Valid()
      ensures completedMaterials == old(completedMaterials) + {materialId}
      ensures activeLesson ==
        if IsSet(old(activeLesson))
           && AllVideosDone(CourseMaterials.GetMaterialsForLesson(table, old(activeLesson).value), materialId, old(completedMaterials))
        then NextActive(lessons, old(activeLesson).value, old(activeLesson))
        else old(activeLesson)
      ensures user.None? ==>
        && tracker.progressData == old(tracker.progressData)
        && certificates.certificates == old(certificates.certificates)
        && certificates.userOrder == old(certificates.userOrder)
    {
      var before := completedMaterials;
      completedMaterials := completedMaterials + {materialId};
      if user.Some? && IsSet(activeLesson) {
        tracker.MarkMaterialCompleted(user.value, course.id, activeLesson.value, materialId, now,
          catalog, certificates, idRandom, numberRandom);
      }
      if IsSet(activeLesson) {
        var materials := CourseMaterials.GetMaterialsForLesson(table, activeLesson.value);
        if AllVideosDone(materials, materialId, before) {
          HandleLessonComplete(activeLesson.value, user, timeSpent, now, tracker, certificates, catalog, idRandom, numberRandom);
        }
      }
    }
  }
}
