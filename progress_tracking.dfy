/**
 * The progress tracker (learnhub/lib/progress-tracking.ts): an in-memory store keyed by user,
 * holding one record per enrolled course and one per touched lesson. It computes a rounded
 * completion percentage and issues a course certificate the first time it reaches 100.
 *
 * The clock and the random strings of certificate issue are parameters; the course table the
 * tracker consults on completion is the `catalog` parameter.
 */
module ProgressTracking {
  import opened Wrappers
  import Courses
  import Certificates

  datatype LessonProgress = LessonProgress(
    lessonId: string,
    completed: bool,
    completedAt: Option<int>,
    timeSpent: int,
    materialsCompleted: seq<string>)

  /** The fields an update may carry (`Partial<LessonProgress>` without `lessonId`); None = absent. */
  datatype LessonUpdate = LessonUpdate(
    completed: Option<bool>,
    completedAt: Option<int>,
    timeSpent: Option<int>,
    materialsCompleted: Option<seq<string>>)

  datatype CourseProgress = CourseProgress(
    courseId: string,
    userId: string,
    enrolledAt: int,
    lastAccessedAt: int,
    overallProgress: nat,
    lessonsProgress: seq<LessonProgress>,
    certificateEarned: bool,
    certificateEarnedAt: Option<int>,
    totalLessons: Option<int>)

  datatype UserProgress = UserProgress(
    userId: string,
    coursesProgress: seq<CourseProgress>,
    totalCoursesCompleted: nat,
    totalTimeSpent: int,
    achievements: seq<string>)

  function NewUserProgress(userId: string): UserProgress {
    UserProgress(userId, [], 0, 0, [])
  }

  /** The user's record, or the empty record `getUserProgress` would create. */
  function UserOf(data: map<string, UserProgress>, userId: string): UserProgress {
    if userId in data then data[userId] else NewUserProgress(userId)
  }

  /** `find` by course id: the index of the first record for that course. */
  function FindCourse(cps: seq<CourseProgress>, courseId: string): (r: Option<nat>)
    ensures r.Some? ==>
      r.value < |cps| && cps[r.value].courseId == courseId && forall k :: 0 <= k < r.value ==> cps[k].courseId != courseId
    ensures r.None? <==> forall k :: 0 <= k < |cps| ==> cps[k].courseId != courseId
  {
    if cps == [] then None
    else if cps[0].courseId == courseId then Some(0)
    else match FindCourse(cps[1..], courseId)
      case Some(k) => Some(k + 1)
      case None => None
  }

  /** `find` by lesson id: the index of the first record for that lesson. */
  function FindLesson(lps: seq<LessonProgress>, lessonId: string): (r: Option<nat>)
    ensures r.Some? ==>
      r.value < |lps| && lps[r.value].lessonId == lessonId && forall k :: 0 <= k < r.value ==> lps[k].lessonId != lessonId
    ensures r.None? <==> forall k :: 0 <= k < |lps| ==> lps[k].lessonId != lessonId
  {
    if lps == [] then None
    else if lps[0].lessonId == lessonId then Some(0)
    else match FindLesson(lps[1..], lessonId)
      case Some(k) => Some(k + 1)
      case None => None
  }

  // ---------------------------------------------------------------- invariants

  predicate DistinctCourses(cps: seq<CourseProgress>) {
    forall i, j :: 0 <= i < j < |cps| ==> cps[i].courseId != cps[j].courseId
  }

  predicate DistinctLessons(lps: seq<LessonProgress>) {
    forall i, j :: 0 <= i < j < |lps| ==> lps[i].lessonId != lps[j].lessonId
  }

  /** How many course records carry a certificate. */
  function CountCertified(cps: seq<CourseProgress>): (n: nat)
    ensures n <= |cps|
  {
    if cps == [] then 0 else CountCertified(cps[..|cps| - 1]) + (if cps[|cps| - 1].certificateEarned then 1 else 0)
  }

  /**
   * One record per course, one per lesson within a course, a certificate date on every
   * certified course, and a completed-course count (and one achievement) per certified course.
   */
  predicate UserValid(u: UserProgress) {
    && DistinctCourses(u.coursesProgress)
    && (forall i :: 0 <= i < |u.coursesProgress| ==> DistinctLessons(u.coursesProgress[i].lessonsProgress))
    && (forall i :: 0 <= i < |u.coursesProgress| ==>
          u.coursesProgress[i].certificateEarned ==> u.coursesProgress[i].certificateEarnedAt.Some?)
    && u.totalCoursesCompleted == CountCertified(u.coursesProgress)
    && |u.achievements| == u.totalCoursesCompleted
  }

  lemma {:induction false} CountCertifiedAppend(cps: seq<CourseProgress>, c: CourseProgress)
    ensures CountCertified(cps + [c]) == CountCertified(cps) + (if c.certificateEarned then 1 else 0)
  {
    assert (cps + [c])[..|cps|] == cps;
  }

  lemma {:induction false} CountCertifiedUpdate(cps: seq<CourseProgress>, i: nat, c: CourseProgress)
    requires i < |cps|
    ensures CountCertified(cps[i := c]) + (if cps[i].certificateEarned then 1 else 0)
         == CountCertified(cps) + (if c.certificateEarned then 1 else 0)
  {
    var n := |cps| - 1;
    if i < n {
      CountCertifiedUpdate(cps[..n], i, c);
      assert cps[i := c][..n] == cps[..n][i := c];
    } else {
      assert cps[i := c][..n] == cps[..n];
    }
  }

  // ---------------------------------------------------------------- percentage

  /** `Math.round(completed / denominator * 100)` in exact arithmetic (halves round up), 0 without lessons. */
  function Percent(completed: nat, denominator: nat): (r: nat)
    ensures denominator > 0 ==> 2 * denominator * r <= 200 * completed + denominator < 2 * denominator * r + 2 * denominator
    ensures denominator == 0 ==> r == 0
  {
    if denominator > 0 then (200 * completed + denominator) / (2 * denominator) else 0
  }

  /** The percentage stays within 0..100 while completed <= denominator, with 0 and 100 at the ends. */
  lemma PercentBounds(completed: nat, denominator: nat)
    requires completed <= denominator
    ensures Percent(completed, denominator) <= 100
    ensures completed == 0 ==> Percent(completed, denominator) == 0
    ensures denominator > 0 && completed == denominator ==> Percent(completed, denominator) == 100
  {
    var r := Percent(completed, denominator);
    var d := denominator;
    if d > 0 {
      if r > 100 {
        MulMonotone(2 * d, 101, r);
      }
      if completed == d && r < 100 {
        MulMonotone(2 * d, r, 99);
      }
      if completed == 0 && r > 0 {
        MulMonotone(2 * d, 1, r);
      }
    }
  }

  /** Because of rounding, 100 is reached once completed / denominator >= 0.995. */
  lemma PercentReaches100(completed: nat, denominator: nat)
    ensures Percent(completed, denominator) >= 100 <==> denominator > 0 && 200 * completed >= 199 * denominator
  {
    var r := Percent(completed, denominator);
    var d := denominator;
    if d > 0 {
      if r >= 100 {
        MulMonotone(2 * d, 100, r);
      } else {
        MulMonotone(2 * d, r, 99);
      }
    }
  }

  lemma MulMonotone(k: nat, a: nat, b: nat)
    requires a <= b
    ensures k * a <= k * b
  {
  }

  function CountCompleted(lps: seq<LessonProgress>): (n: nat)
    ensures n <= |lps|
  {
    if lps == [] then 0 else CountCompleted(lps[..|lps| - 1]) + (if lps[|lps| - 1].completed then 1 else 0)
  }

  /** The declared lesson count when positive, else the number of lesson records. */
  function Denominator(cp: CourseProgress): nat {
    if cp.totalLessons.Some? && cp.totalLessons.value > 0 then cp.totalLessons.value else |cp.lessonsProgress|
  }

  function ProgressOf(cp: CourseProgress): nat {
    Percent(CountCompleted(cp.lessonsProgress), Denominator(cp))
  }

  /** The recomputation first reaches 100 on a course not yet certified. */
  predicate EarnsCertificate(cp: CourseProgress) {
    ProgressOf(cp) >= 100 && !cp.certificateEarned
  }

  /** `updateCourseProgress` on the course record itself. */
  function Recompute(cp: CourseProgress, now: int): CourseProgress {
    var c := cp.(overallProgress := ProgressOf(cp), lastAccessedAt := now);
    if EarnsCertificate(cp) then c.(certificateEarned := true, certificateEarnedAt := Some(now)) else c
  }

  /** `updateCourseProgress` on the user record: recompute course `i`, and count a first completion. */
  function Settle(u: UserProgress, i: nat, now: int): UserProgress
    requires i < |u.coursesProgress|
  {
    var cp := u.coursesProgress[i];
    var u1 := u.(coursesProgress := u.coursesProgress[i := Recompute(cp, now)]);
    if EarnsCertificate(cp) then
      u1.(totalCoursesCompleted := u1.totalCoursesCompleted + 1, achievements := u1.achievements + ["Completed " + cp.courseId])
    else u1
  }

  lemma SettlePreservesValid(u: UserProgress, i: nat, now: int)
    requires i < |u.coursesProgress| && UserValid(u)
    ensures UserValid(Settle(u, i, now))
  {
    CountCertifiedUpdate(u.coursesProgress, i, Recompute(u.coursesProgress[i], now));
  }

  /**
   * The certificate is earned at most once: the first settle that reaches 100 marks the course,
   * adds one completed course and one "Completed <id>" achievement; settling again adds nothing.
   */
  lemma CertificateAtMostOnce(u: UserProgress, i: nat, now: int, later: int)
    requires i < |u.coursesProgress|
    ensures var u1 := Settle(u, i, now);
      && u1.coursesProgress[i].certificateEarned == (u.coursesProgress[i].certificateEarned || ProgressOf(u.coursesProgress[i]) >= 100)
      && u1.totalCoursesCompleted == u.totalCoursesCompleted + (if EarnsCertificate(u.coursesProgress[i]) then 1 else 0)
      && u1.achievements == u.achievements + (if EarnsCertificate(u.coursesProgress[i]) then ["Completed " + u.coursesProgress[i].courseId] else [])
      && !EarnsCertificate(u1.coursesProgress[i])
      && Settle(u1, i, later).totalCoursesCompleted == u1.totalCoursesCompleted
      && Settle(u1, i, later).achievements == u1.achievements
  {
  }

  // ---------------------------------------------------------------- operations on records

  function NewCourseProgress(userId: string, courseId: string, totalLessons: Option<int>, now: int): CourseProgress {
    CourseProgress(courseId, userId, now, now, 0, [], false, None, totalLessons)
  }

  /** `enrollInCourse` on the user record: add a fresh course record unless one exists. */
  function Enroll(u: UserProgress, userId: string, courseId: string, totalLessons: Option<int>, now: int): UserProgress {
    if FindCourse(u.coursesProgress, courseId).Some? then u
    else u.(coursesProgress := u.coursesProgress + [NewCourseProgress(userId, courseId, totalLessons, now)])
  }

  lemma EnrollPreservesValid(u: UserProgress, userId: string, courseId: string, totalLessons: Option<int>, now: int)
    requires UserValid(u)
    ensures UserValid(Enroll(u, userId, courseId, totalLessons, now))
  {
    if FindCourse(u.coursesProgress, courseId).None? {
      CountCertifiedAppend(u.coursesProgress, NewCourseProgress(userId, courseId, totalLessons, now));
    }
  }

  /** Enrolling twice is enrolling once, and afterwards the course has exactly one record. */
  lemma EnrollIdempotent(u: UserProgress, userId: string, courseId: string, t1: Option<int>, t2: Option<int>, now1: int, now2: int)
    requires UserValid(u)
    ensures var e := Enroll(u, userId, courseId, t1, now1);
      && UserValid(e)
      && Enroll(e, userId, courseId, t2, now2) == e
      && (exists k :: 0 <= k < |e.coursesProgress| && e.coursesProgress[k].courseId == courseId)
      && (FindCourse(u.coursesProgress, courseId).None? ==>
            e.coursesProgress == u.coursesProgress + [NewCourseProgress(userId, courseId, t1, now1)])
  {
    var e := Enroll(u, userId, courseId, t1, now1);
    if FindCourse(u.coursesProgress, courseId).None? {
      CountCertifiedAppend(u.coursesProgress, NewCourseProgress(userId, courseId, t1, now1));
      assert e.coursesProgress[|u.coursesProgress|].courseId == courseId;
    }
  }

  /** `Object.assign(lesson, updates)`: each field the update carries replaces the lesson's. */
  function Assign(lp: LessonProgress, updates: LessonUpdate): LessonProgress {
    LessonProgress(
      lp.lessonId,
      updates.completed.GetOr(lp.completed),
      if updates.completedAt.Some? then updates.completedAt else lp.completedAt,
      updates.timeSpent.GetOr(lp.timeSpent),
      updates.materialsCompleted.GetOr(lp.materialsCompleted))
  }

  /** The update, then a completion date stamped when the update completes a lesson that has none. */
  function ApplyUpdate(lp: LessonProgress, updates: LessonUpdate, now: int): LessonProgress {
    var a := Assign(lp, updates);
    if updates.completed == Some(true) && a.completedAt.None? then a.(completedAt := Some(now)) else a
  }

  /** `completedAt` is stamped only the first time; a later completion keeps the first date. */
  lemma CompletedAtSetOnce(lp: LessonProgress, updates: LessonUpdate, now: int)
    ensures var r := ApplyUpdate(lp, updates, now);
      && r.lessonId == lp.lessonId
      && (updates.completed == Some(true) ==> r.completed && r.completedAt.Some?)
      && (lp.completedAt.Some? && updates.completedAt.None? ==> r.completedAt == lp.completedAt)
      && (updates.completed != Some(true) && updates.completedAt.None? ==> r.completedAt == lp.completedAt)
  {
  }

  function NewLesson(lessonId: string): LessonProgress {
    LessonProgress(lessonId, false, None, 0, [])
  }

  /** The lesson list with a fresh record for `lessonId` appended when it has none. */
  function WithLesson(lps: seq<LessonProgress>, lessonId: string): seq<LessonProgress> {
    if FindLesson(lps, lessonId).Some? then lps else lps + [NewLesson(lessonId)]
  }

  lemma WithLessonFinds(lps: seq<LessonProgress>, lessonId: string)
    requires DistinctLessons(lps)
    ensures DistinctLessons(WithLesson(lps, lessonId))
    ensures FindLesson(WithLesson(lps, lessonId), lessonId).Some?
    ensures WithLesson(lps, lessonId)[..|lps|] == lps
  {
    var w := WithLesson(lps, lessonId);
    if FindLesson(lps, lessonId).None? {
      assert w[|lps|].lessonId == lessonId;
    }
  }

  /** `updateLessonProgress` on the lesson list. */
  function UpdateLessons(lps: seq<LessonProgress>, lessonId: string, updates: LessonUpdate, now: int): seq<LessonProgress> {
    var w := WithLesson(lps, lessonId);
    WithLessonHasRecord(lps, lessonId);
    var k := FindLesson(w, lessonId).value;
    w[k := ApplyUpdate(w[k], updates, now)]
  }

  /** `push` unless already present. */
  function AddOnce(xs: seq<string>, x: string): seq<string> {
    if x in xs then xs else xs + [x]
  }

  /** A material id is recorded at most once: the list contains it afterwards and never gains a duplicate. */
  lemma AddOnceNoDuplicates(xs: seq<string>, x: string)
    ensures x in AddOnce(xs, x)
    ensures multiset(AddOnce(xs, x))[x] == (if x in xs then multiset(xs)[x] else 1)
    ensures forall y :: y != x ==> multiset(AddOnce(xs, x))[y] == multiset(xs)[y]
    ensures (forall i, j :: 0 <= i < j < |xs| ==> xs[i] != xs[j]) ==>
              forall i, j :: 0 <= i < j < |AddOnce(xs, x)| ==> AddOnce(xs, x)[i] != AddOnce(xs, x)[j]
  {
  }

  /** `markMaterialCompleted` on the lesson list. */
  function MarkLessons(lps: seq<LessonProgress>, lessonId: string, materialId: string): seq<LessonProgress> {
    var w := WithLesson(lps, lessonId);
    WithLessonHasRecord(lps, lessonId);
    var k := FindLesson(w, lessonId).value;
    w[k := w[k].(materialsCompleted := AddOnce(w[k].materialsCompleted, materialId))]
  }

  /** After `WithLesson` the lesson has a record (needs no distinctness, so the functions above can use it). */
  lemma WithLessonHasRecord(lps: seq<LessonProgress>, lessonId: string)
    ensures FindLesson(WithLesson(lps, lessonId), lessonId).Some?
  {
    if FindLesson(lps, lessonId).None? {
      assert WithLesson(lps, lessonId)[|lps|].lessonId == lessonId;
    }
  }

  /** The first record for a course depends only on the course ids. */
  lemma {:induction false} FindCourseSameIds(a: seq<CourseProgress>, b: seq<CourseProgress>, courseId: string)
    requires |a| == |b| && forall k :: 0 <= k < |a| ==> a[k].courseId == b[k].courseId
    ensures FindCourse(a, courseId) == FindCourse(b, courseId)
  {
    if a != [] {
      FindCourseSameIds(a[1..], b[1..], courseId);
    }
  }

  /** Changing the lessons of one course (the lesson ids of the new list being distinct) keeps the user record valid. */
  lemma ReplaceLessonsPreservesValid(u: UserProgress, i: nat, lps: seq<LessonProgress>)
    requires i < |u.coursesProgress| && UserValid(u) && DistinctLessons(lps)
    ensures UserValid(u.(coursesProgress := u.coursesProgress[i := u.coursesProgress[i].(lessonsProgress := lps)]))
    ensures FindCourse(u.coursesProgress[i := u.coursesProgress[i].(lessonsProgress := lps)], u.coursesProgress[i].courseId) == Some(i)
  {
    var cp := u.coursesProgress[i];
    CountCertifiedUpdate(u.coursesProgress, i, cp.(lessonsProgress := lps));
    FindCourseSameIds(u.coursesProgress, u.coursesProgress[i := cp.(lessonsProgress := lps)], cp.courseId);
  }

  lemma UpdateLessonsDistinct(lps: seq<LessonProgress>, lessonId: string, updates: LessonUpdate, now: int)
    requires DistinctLessons(lps)
    ensures DistinctLessons(UpdateLessons(lps, lessonId, updates, now))
    ensures exists k :: 0 <= k < |UpdateLessons(lps, lessonId, updates, now)| && UpdateLessons(lps, lessonId, updates, now)[k].lessonId == lessonId
  {
    WithLessonFinds(lps, lessonId);
    var w := WithLesson(lps, lessonId);
    var k := FindLesson(w, lessonId).value;
    assert UpdateLessons(lps, lessonId, updates, now)[k].lessonId == lessonId;
  }

  lemma MarkLessonsDistinct(lps: seq<LessonProgress>, lessonId: string, materialId: string)
    requires DistinctLessons(lps)
    ensures DistinctLessons(MarkLessons(lps, lessonId, materialId))
  {
    WithLessonFinds(lps, lessonId);
  }

  /** Marking the same material twice is marking it once. */
  lemma MarkLessonsIdempotent(lps: seq<LessonProgress>, lessonId: string, materialId: string)
    requires DistinctLessons(lps)
    ensures MarkLessons(MarkLessons(lps, lessonId, materialId), lessonId, materialId) == MarkLessons(lps, lessonId, materialId)
  {
    WithLessonFinds(lps, lessonId);
    var m := MarkLessons(lps, lessonId, materialId);
    var w := WithLesson(lps, lessonId);
    var k := FindLesson(w, lessonId).value;
    assert m[k].lessonId == lessonId;
    assert FindLesson(m, lessonId) == Some(k);
    assert WithLesson(m, lessonId) == m;
  }

  // ---------------------------------------------------------------- statistics

  datatype ProgressStats = ProgressStats(
    totalCourses: nat,
    completedCourses: nat,
    inProgressCourses: nat,
    totalTimeSpent: int,
    certificatesEarned: nat)

  function CountInProgress(cps: seq<CourseProgress>): (n: nat)
    ensures n <= |cps|
  {
    if cps == [] then 0
    else CountInProgress(cps[..|cps| - 1])
         + (if !cps[|cps| - 1].certificateEarned && cps[|cps| - 1].overallProgress > 0 then 1 else 0)
  }

  function LessonTime(lps: seq<LessonProgress>): int {
    if lps == [] then 0 else LessonTime(lps[..|lps| - 1]) + lps[|lps| - 1].timeSpent
  }

  function CourseTime(cps: seq<CourseProgress>): int {
    if cps == [] then 0 else CourseTime(cps[..|cps| - 1]) + LessonTime(cps[|cps| - 1].lessonsProgress)
  }

  /** `getProgressStats` on a user record. */
  function Stats(u: UserProgress): ProgressStats {
    var completed := CountCertified(u.coursesProgress);
    ProgressStats(|u.coursesProgress|, completed, CountInProgress(u.coursesProgress), CourseTime(u.coursesProgress), completed)
  }

  lemma {:induction false} CertifiedPlusInProgress(cps: seq<CourseProgress>)
    ensures CountCertified(cps) + CountInProgress(cps) <= |cps|
  {
    if cps != [] {
      CertifiedPlusInProgress(cps[..|cps| - 1]);
    }
  }

  /**
   * On a valid record the completed count equals the running total of completed courses, and no
   * course counts both as completed and as in progress.
   */
  lemma StatsAgreeWithTotals(u: UserProgress)
    requires UserValid(u)
    ensures var s := Stats(u);
      && s.completedCourses == u.totalCoursesCompleted == s.certificatesEarned
      && s.completedCourses + s.inProgressCourses <= s.totalCourses
      && s.completedCourses == |u.achievements|
  {
    CertifiedPlusInProgress(u.coursesProgress);
  }

  /** The course in the catalogue that a certificate is issued for: the first with that id. */
  function FindCatalogCourse(catalog: seq<Courses.Course>, courseId: string): (r: Option<Courses.Course>)
    ensures r.Some? ==> r.value in catalog && r.value.id == courseId
    ensures r.None? ==> forall k :: 0 <= k < |catalog| ==> catalog[k].id != courseId
    ensures r.Some? ==> exists k :: 0 <= k < |catalog| && catalog[k] == r.value && forall j :: 0 <= j < k ==> catalog[j].id != courseId
  {
    if catalog == [] then None
    else if catalog[0].id == courseId then Some(catalog[0])
    else
      var r := FindCatalogCourse(catalog[1..], courseId);
      assert r.Some? ==> exists k :: 0 <= k < |catalog| && catalog[k] == r.value && forall j :: 0 <= j < k ==> catalog[j].id != courseId by {
        if r.Some? {
          var k :| 0 <= k < |catalog[1..]| && catalog[1..][k] == r.value && forall j :: 0 <= j < k ==> catalog[1..][j].id != courseId;
          assert catalog[k + 1] == r.value;
          forall j | 0 <= j < k + 1 ensures catalog[j].id != courseId {
            if j > 0 {
              assert catalog[j] == catalog[1..][j - 1];
            }
          }
        }
      }
      r
  }

  /** The certificate issued when the course record `cp` first completes, if its course is in the catalogue. */
  function IssuedCertificate(catalog: seq<Courses.Course>, cp: CourseProgress, userId: string, now: nat,
                             idRandom: string, numberRandom: string): Option<Certificates.Certificate> {
    if !EarnsCertificate(cp) then None
    else match FindCatalogCourse(catalog, cp.courseId)
      case None => None
      case Some(c) =>
        Some(Certificates.NewCertificate(userId, cp.courseId, c.title, "Student Name", c.instructor, c.tags,
                                         now, idRandom, numberRandom))
  }

  /** The certificate store after an optional issue. */
  function CertificatesAfter(m: map<string, seq<Certificates.Certificate>>, userId: string,
                             issued: Option<Certificates.Certificate>): map<string, seq<Certificates.Certificate>> {
    if issued.Some? then Certificates.WithIssued(m, userId, issued.value) else m
  }

  /** The order of first-certified users after an optional issue: a user is appended on their first certificate. */
  function OrderAfter(order: seq<string>, m: map<string, seq<Certificates.Certificate>>, userId: string,
                      issued: Option<Certificates.Certificate>): seq<string> {
    if issued.Some? && userId !in m then order + [userId] else order
  }

  predicate AllValid(m: map<string, UserProgress>) {
    forall uid :: uid in m ==> UserValid(m[uid])
  }

  lemma UserOfValid(m: map<string, UserProgress>, userId: string)
    requires AllValid(m)
    ensures UserValid(UserOf(m, userId))
  {
  }

  lemma EnrollStepValid(m: map<string, UserProgress>, userId: string, courseId: string, totalLessons: Option<int>, now: int)
    requires AllValid(m)
    ensures AllValid(m[userId := Enroll(UserOf(m, userId), userId, courseId, totalLessons, now)])
  {
    UserOfValid(m, userId);
    EnrollPreservesValid(UserOf(m, userId), userId, courseId, totalLessons, now);
    PutPreservesValid(m, userId, Enroll(UserOf(m, userId), userId, courseId, totalLessons, now));
  }

  /** The user record with the lesson list of course `i` replaced. */
  function WithCourseLessons(u: UserProgress, i: nat, lps: seq<LessonProgress>): UserProgress
    requires i < |u.coursesProgress|
  {
    u.(coursesProgress := u.coursesProgress[i := u.coursesProgress[i].(lessonsProgress := lps)])
  }

  /** A change to one lesson record: an update, or a completed material. */
  datatype LessonChange = Update(updates: LessonUpdate, now: int) | Mark(materialId: string)

  function ChangeLessons(lps: seq<LessonProgress>, lessonId: string, change: LessonChange): seq<LessonProgress> {
    match change
    case Update(updates, now) => UpdateLessons(lps, lessonId, updates, now)
    case Mark(materialId) => MarkLessons(lps, lessonId, materialId)
  }

  /** The store after the lesson part of `updateLessonProgress` / `markMaterialCompleted`. */
  function LessonStep(m: map<string, UserProgress>, userId: string, courseId: string, lessonId: string,
                      change: LessonChange): map<string, UserProgress> {
    var u := UserOf(m, userId);
    match FindCourse(u.coursesProgress, courseId)
    case None => m[userId := u]
    case Some(i) => m[userId := WithCourseLessons(u, i, ChangeLessons(u.coursesProgress[i].lessonsProgress, lessonId, change))]
  }

  /** The store after `updateCourseProgress`. */
  function CourseStep(m: map<string, UserProgress>, userId: string, courseId: string, now: int): map<string, UserProgress> {
    var u := UserOf(m, userId);
    match FindCourse(u.coursesProgress, courseId)
    case None => m[userId := u]
    case Some(i) => m[userId := Settle(u, i, now)]
  }

  /** The certificate `updateCourseProgress` issues, if any. */
  function CourseIssued(m: map<string, UserProgress>, userId: string, courseId: string, catalog: seq<Courses.Course>,
                        now: nat, idRandom: string, numberRandom: string): Option<Certificates.Certificate> {
    var u := UserOf(m, userId);
    match FindCourse(u.coursesProgress, courseId)
    case None => None
    case Some(i) => IssuedCertificate(catalog, u.coursesProgress[i], userId, now, idRandom, numberRandom)
  }

  lemma CourseStepValid(m: map<string, UserProgress>, userId: string, courseId: string, now: int)
    requires AllValid(m)
    ensures AllValid(CourseStep(m, userId, courseId, now))
  {
    UserOfValid(m, userId);
    var u := UserOf(m, userId);
    match FindCourse(u.coursesProgress, courseId)
    case None =>
      PutPreservesValid(m, userId, u);
    case Some(i) =>
      SettlePreservesValid(u, i, now);
      PutPreservesValid(m, userId, Settle(u, i, now));
  }

  lemma LessonStepValid(m: map<string, UserProgress>, userId: string, courseId: string, lessonId: string, change: LessonChange)
    requires AllValid(m)
    ensures AllValid(LessonStep(m, userId, courseId, lessonId, change))
  {
    UserOfValid(m, userId);
    var u := UserOf(m, userId);
    match FindCourse(u.coursesProgress, courseId)
    case None =>
      PutPreservesValid(m, userId, u);
    case Some(i) =>
      var lps := u.coursesProgress[i].lessonsProgress;
      match change {
        case Update(updates, now) => UpdateLessonsDistinct(lps, lessonId, updates, now);
        case Mark(materialId) => MarkLessonsDistinct(lps, lessonId, materialId);
      }
      ReplaceLessonsPreservesValid(u, i, ChangeLessons(lps, lessonId, change));
      PutPreservesValid(m, userId, WithCourseLessons(u, i, ChangeLessons(lps, lessonId, change)));
  }

  /**
   * For a course the user is not enrolled in, the lesson operations change nothing but the
   * (possibly created) user record, and issue no certificate.
   */
  lemma NotEnrolledUnchanged(m: map<string, UserProgress>, userId: string, courseId: string, lessonId: string,
                             change: LessonChange, catalog: seq<Courses.Course>, now: nat, idRandom: string, numberRandom: string)
    requires FindCourse(UserOf(m, userId).coursesProgress, courseId).None?
    ensures var m1 := LessonStep(m, userId, courseId, lessonId, change);
      && m1 == m[userId := UserOf(m, userId)]
      && CourseStep(m1, userId, courseId, now) == m1
      && CourseIssued(m1, userId, courseId, catalog, now, idRandom, numberRandom).None?
  {
    var m1 := LessonStep(m, userId, courseId, lessonId, change);
    assert UserOf(m1, userId) == UserOf(m, userId);
  }

  /**
   * For an enrolled course, the lesson step keeps the course at the same position and leaves every
   * other course and every other user untouched.
   */
  lemma LessonStepLocal(m: map<string, UserProgress>, userId: string, courseId: string, lessonId: string, change: LessonChange)
    requires FindCourse(UserOf(m, userId).coursesProgress, courseId).Some?
    ensures var m1 := LessonStep(m, userId, courseId, lessonId, change);
      var u := UserOf(m, userId);
      var i := FindCourse(u.coursesProgress, courseId).value;
      && FindCourse(UserOf(m1, userId).coursesProgress, courseId) == Some(i)
      && (forall j :: 0 <= j < |u.coursesProgress| && j != i ==> UserOf(m1, userId).coursesProgress[j] == u.coursesProgress[j])
      && (forall other :: other != userId ==> UserOf(m1, other) == UserOf(m, other))
  {
    var u := UserOf(m, userId);
    var i := FindCourse(u.coursesProgress, courseId).value;
    var w := WithCourseLessons(u, i, ChangeLessons(u.coursesProgress[i].lessonsProgress, lessonId, change));
    FindCourseSameIds(u.coursesProgress, w.coursesProgress, courseId);
  }

  /** The store stays valid when one user's record is replaced by a valid one. */
  lemma PutPreservesValid(m: map<string, UserProgress>, userId: string, u: UserProgress)
    requires AllValid(m) && UserValid(u)
    ensures AllValid(m[userId := u])
  {
  }

  class ProgressTracker {
    var progressData: map<string, UserProgress>

    ghost predicate Valid()
      reads this
    {
      AllValid(progressData)
    }

    constructor()
      ensures Valid() && progressData == map[]
    {
      progressData := map[];
    }

    /** `getUserProgress`: creates the empty record on first access. */
    method GetUserProgress(userId: string) returns (u: UserProgress)
      requires Valid()
      modifies this
      ensures Valid()
      ensures u == UserOf(old(progressData), userId)
      ensures progressData == old(progressData)[userId := u]
    {
      if userId !in progressData {
        progressData := progressData[userId := NewUserProgress(userId)];
      }
      u := progressData[userId];
    }

    /** `getCourseProgress`: the first record for the course, creating the user record if needed. */
    method GetCourseProgress(userId: string, courseId: string) returns (r: Option<CourseProgress>)
      requires Valid()
      modifies this
      ensures Valid()
      ensures var u := UserOf(old(progressData), userId);
        && progressData == old(progressData)[userId := u]
        && (r.Some? <==> FindCourse(u.coursesProgress, courseId).Some?)
        && (r.Some? ==> r.value == u.coursesProgress[FindCourse(u.coursesProgress, courseId).value])
    {
      var u := GetUserProgress(userId);
      var k := FindCourse(u.coursesProgress, courseId);
      r := if k.Some? then Some(u.coursesProgress[k.value]) else None;
    }

    /** `enrollInCourse`: adds a fresh course record unless the user already has one. */
    method EnrollInCourse(userId: string, courseId: string, totalLessons: Option<int>, now: int)
      requires Valid()
      modifies this
      ensures Valid()
      ensures progressData == old(progressData)[userId := Enroll(UserOf(old(progressData), userId), userId, courseId, totalLessons, now)]
    {
      ghost var m0 := progressData;
      var u := GetUserProgress(userId);
      var existing := FindCourse(u.coursesProgress, courseId);
      if existing.None? {
        progressData := progressData[userId := u.(coursesProgress := u.coursesProgress + [NewCourseProgress(userId, courseId, totalLessons, now)])];
      }
      assert progressData == m0[userId := Enroll(UserOf(m0, userId), userId, courseId, totalLessons, now)];
      EnrollStepValid(m0, userId, courseId, totalLessons, now);
    }

    /**
     * `updateCourseProgress`: recomputes the course's percentage and, the first time it reaches
     * 100, marks the certificate, issues it through `certificates` when the course is in the
     * catalogue, and counts the completion.
     */
    method UpdateCourseProgress(userId: string, courseId: string, now: nat, catalog: seq<Courses.Course>,
                                certificates: Certificates.CertificateManager, idRandom: string, numberRandom: string)
      requires Valid() && certificates.Valid()
      modifies this, certificates
      ensures Valid() && certificates.Valid()
      ensures progressData == CourseStep(old(progressData), userId, courseId, now)
      ensures certificates.certificates == CertificatesAfter(old(certificates.certificates), userId,
                CourseIssued(old(progressData), userId, courseId, catalog, now, idRandom, numberRandom))
      ensures certificates.userOrder == OrderAfter(old(certificates.userOrder), old(certificates.certificates), userId,
                CourseIssued(old(progressData), userId, courseId, catalog, now, idRandom, numberRandom))
    {
      ghost var m0 := progressData;
      var u := GetUserProgress(userId);
      var k := FindCourse(u.coursesProgress, courseId);
      if k.None? {
        return;
      }
      var i := k.value;
      var cp := u.coursesProgress[i];
      CourseStepValid(m0, userId, courseId, now);
      progressData := progressData[userId := Settle(u, i, now)];
      assert progressData == CourseStep(m0, userId, courseId, now);
      if EarnsCertificate(cp) {
        var course := FindCatalogCourse(catalog, courseId);
        if course.Some? {
          var c := certificates.GenerateCertificate(userId, courseId, course.value.title, "Student Name",
                                                    course.value.instructor, course.value.tags, now, idRandom, numberRandom);
          assert CourseIssued(m0, userId, courseId, catalog, now, idRandom, numberRandom) == Some(c);
        }
      }
    }

    /**
     * `updateLessonProgress`: nothing for a course the user is not enrolled in; otherwise creates
     * the lesson record if needed, applies the update, and recomputes the course.
     */
    method UpdateLessonProgress(userId: string, courseId: string, lessonId: string, updates: LessonUpdate, now: nat,
                                catalog: seq<Courses.Course>, certificates: Certificates.CertificateManager,
                                idRandom: string, numberRandom: string)
      requires Valid() && certificates.Valid()
      modifies this, certificates
      ensures Valid() && certificates.Valid()
      ensures var m1 := LessonStep(old(progressData), userId, courseId, lessonId, Update(updates, now));
        && progressData == CourseStep(m1, userId, courseId, now)
        && certificates.certificates == CertificatesAfter(old(certificates.certificates), userId,
             CourseIssued(m1, userId, courseId, catalog, now, idRandom, numberRandom))
        && certificates.userOrder == OrderAfter(old(certificates.userOrder), old(certificates.certificates), userId,
             CourseIssued(m1, userId, courseId, catalog, now, idRandom, numberRandom))
    {
      ghost var m0 := progressData;
      var u := GetUserProgress(userId);
      var k := FindCourse(u.coursesProgress, courseId);
      if k.None? {
        NotEnrolledUnchanged(m0, userId, courseId, lessonId, Update(updates, now), catalog, now, idRandom, numberRandom);
        return;
      }
      var i := k.value;
      var cp := u.coursesProgress[i];
      var lessons := UpdateLessons(cp.lessonsProgress, lessonId, updates, now);
      LessonStepValid(m0, userId, courseId, lessonId, Update(updates, now));
      progressData := progressData[userId := WithCourseLessons(u, i, lessons)];
      assert progressData == LessonStep(m0, userId, courseId, lessonId, Update(updates, now));
      UpdateCourseProgress(userId, courseId, now, catalog, certificates, idRandom, numberRandom);
    }

    /**
     * `markMaterialCompleted`: nothing for a course the user is not enrolled in; otherwise records
     * the material once in the lesson (creating the lesson record if needed) and recomputes the course.
     */
    method MarkMaterialCompleted(userId: string, courseId: string, lessonId: string, materialId: string, now: nat,
                                 catalog: seq<Courses.Course>, certificates: Certificates.CertificateManager,
                                 idRandom: string, numberRandom: string)
      requires Valid() && certificates.Valid()
      modifies this, certificates
      ensures Valid() && certificates.Valid()
      ensures var m1 := LessonStep(old(progressData), userId, courseId, lessonId, Mark(materialId));
        && progressData == CourseStep(m1, userId, courseId, now)
        && certificates.certificates == CertificatesAfter(old(certificates.certificates), userId,
             CourseIssued(m1, userId, courseId, catalog, now, idRandom, numberRandom))
        && certificates.userOrder == OrderAfter(old(certificates.userOrder), old(certificates.certificates), userId,
             CourseIssued(m1, userId, courseId, catalog, now, idRandom, numberRandom))
    {
      ghost var m0 := progressData;
      var u := GetUserProgress(userId);
      var k := FindCourse(u.coursesProgress, courseId);
      if k.None? {
        NotEnrolledUnchanged(m0, userId, courseId, lessonId, Mark(materialId), catalog, now, idRandom, numberRandom);
        return;
      }
      var i := k.value;
      var cp := u.coursesProgress[i];
      var lessons := MarkLessons(cp.lessonsProgress, lessonId, materialId);
      LessonStepValid(m0, userId, courseId, lessonId, Mark(materialId));
      progressData := progressData[userId := WithCourseLessons(u, i, lessons)];
      assert progressData == LessonStep(m0, userId, courseId, lessonId, Mark(materialId));
      UpdateCourseProgress(userId, courseId, now, catalog, certificates, idRandom, numberRandom);
    }

    /** `getProgressStats`, which also creates the user record on first access. */
    method GetProgressStats(userId: string) returns (stats: ProgressStats)
      requires Valid()
      modifies this
      ensures Valid()
      ensures stats == Stats(UserOf(old(progressData), userId))
      ensures progressData == old(progressData)[userId := UserOf(old(progressData), userId)]
    {
      var u := GetUserProgress(userId);
      stats := Stats(u);
    }
  }
}
