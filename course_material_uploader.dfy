/**
 * The teacher-side uploader of learnhub/components/upload/course-material-uploader.tsx: the
 * lesson choices built from a course's curriculum, the material records made from uploaded
 * files, and the list that saving clears.
 */
module CourseMaterialUploader {
  import opened Wrappers
  import opened Strings
  import Courses

  /** A lesson choice: its id "<course>-<module>-<lesson>" and its label. */
  datatype LessonOption = LessonOption(id: string, title: string)

  /** A file reported by the upload zone: its id, name and MIME type. */
  datatype UploadedFile = UploadedFile(id: string, name: string, mimeType: string)

  datatype UploadType = Video | Pdf | Code

  datatype UploadedMaterial = UploadedMaterial(
    id: string,
    name: string,
    kind: UploadType,
    url: string,
    courseId: string,
    lessonId: string,
    title: string,
    description: string)

  /** `mockCourses.find(c => c.id === id)`. */
  function FindCourse(courses: seq<Courses.Course>, id: string): (r: Option<Courses.Course>)
    ensures r.Some? ==> r.value in courses && r.value.id == id
    ensures r.None? <==> forall i :: 0 <= i < |courses| ==> courses[i].id != id
    ensures r.Some? ==> exists k :: 0 <= k < |courses| && courses[k] == r.value && forall j :: 0 <= j < k ==> courses[j].id != id
  {
    if courses == [] then None
    else if courses[0].id == id then Some(courses[0])
    else
      var r := FindCourse(courses[1..], id);
      assert r.Some? ==> exists k :: 0 <= k < |courses| && courses[k] == r.value && forall j :: 0 <= j < k ==> courses[j].id != id by {
        if r.Some? {
          var k :| 0 <= k < |courses[1..]| && courses[1..][k] == r.value && forall j :: 0 <= j < k ==> courses[1..][j].id != id;
          assert courses[k + 1] == r.value;
          forall j | 0 <= j < k + 1 ensures courses[j].id != id {
            if j > 0 {
              assert courses[j] == courses[1..][j - 1];
            }
          }
        }
      }
      r
  }

  function OptionFor(courseId: string, m: Courses.CourseModule, l: Courses.CourseLesson): LessonOption {
    LessonOption(courseId + "-" + m.id + "-" + l.id, m.title + " - " + l.title)
  }

  /** The choices of one module, in lesson order. */
  function ModuleOptions(courseId: string, m: Courses.CourseModule, lessons: seq<Courses.CourseLesson>): (r: seq<LessonOption>)
    ensures |r| == |lessons|
    ensures forall j :: 0 <= j < |lessons| ==> r[j] == OptionFor(courseId, m, lessons[j])
  {
    if lessons == [] then [] else [OptionFor(courseId, m, lessons[0])] + ModuleOptions(courseId, m, lessons[1..])
  }

  /** The number of lessons in the given modules. */
  function LessonCount(modules: seq<Courses.CourseModule>): nat {
    if modules == [] then 0 else |modules[0].lessons| + LessonCount(modules[1..])
  }

  /** `curriculum.flatMap(...)`: every module's choices, module after module. */
  function CurriculumOptions(courseId: string, modules: seq<Courses.CourseModule>): (r: seq<LessonOption>)
    ensures |r| == LessonCount(modules)
  {
    if modules == [] then []
    else ModuleOptions(courseId, modules[0], modules[0].lessons) + CurriculumOptions(courseId, modules[1..])
  }

  /** `availableLessons`: no choices when the course is unknown or has no curriculum. */
  function AvailableLessons(courses: seq<Courses.Course>, selectedCourse: string): seq<LessonOption> {
    match FindCourse(courses, selectedCourse)
    case Some(c) => (match c.curriculum case Some(modules) => CurriculumOptions(selectedCourse, modules) case None => [])
    case None => []
  }

  /** The lessons before module `i`. */
  function Offset(modules: seq<Courses.CourseModule>, i: nat): nat
    requires i <= |modules|
  {
    LessonCount(modules[..i])
  }

  lemma {:induction false} LessonCountAppend(a: seq<Courses.CourseModule>, b: seq<Courses.CourseModule>)
    ensures LessonCount(a + b) == LessonCount(a) + LessonCount(b)
    decreases |a|
  {
    if a == [] {
      assert a + b == b;
    } else {
      assert (a + b)[1..] == a[1..] + b;
      LessonCountAppend(a[1..], b);
    }
  }

  /**
   * Lesson `j` of module `i` is offered at position `Offset(modules, i) + j`, with the id
   * "<course>-<module id>-<lesson id>": choices come module by module, in curriculum order.
   */
  lemma {:induction false} CurriculumOptionAt(courseId: string, modules: seq<Courses.CourseModule>, i: nat, j: nat)
    requires i < |modules| && j < |modules[i].lessons|
    ensures Offset(modules, i) + j < |CurriculumOptions(courseId, modules)|
    ensures CurriculumOptions(courseId, modules)[Offset(modules, i) + j]
      == OptionFor(courseId, modules[i], modules[i].lessons[j])
    ensures CurriculumOptions(courseId, modules)[Offset(modules, i) + j].id
      == courseId + "-" + modules[i].id + "-" + modules[i].lessons[j].id
    decreases i
  {
    assert modules == modules[..i] + modules[i..];
    LessonCountAppend(modules[..i], modules[i..]);
    assert LessonCount(modules[i..]) >= |modules[i].lessons|;
    if i > 0 {
      CurriculumOptionAt(courseId, modules[1..], i - 1, j);
      assert modules[1..][..i - 1] == modules[..i][1..];
    }
  }

  /** An unknown course, or one without a curriculum, offers no lessons. */
  lemma NoCurriculumNoLessons(courses: seq<Courses.Course>, selectedCourse: string)
    requires FindCourse(courses, selectedCourse).None? || FindCourse(courses, selectedCourse).value.curriculum.None?
    ensures AvailableLessons(courses, selectedCourse) == []
  {
  }

  /** The MIME mapping: "video/…" is a video, "application/pdf" a PDF, anything else code. */
  function TypeOfMime(mimeType: string): (t: UploadType)
    ensures t == Video <==> StartsWith(mimeType, "video/")
    ensures t == Pdf <==> mimeType == "application/pdf"
  {
    if StartsWith(mimeType, "video/") then
      assert mimeType[0] == 'v' != "application/pdf"[0];
      Video
    else if mimeType == "application/pdf" then Pdf
    else Code
  }

  /** The record made for one uploaded file under the current selection and form. */
  function NewMaterial(f: UploadedFile, courseId: string, lessonId: string, title: string, description: string): (m: UploadedMaterial)
    ensures m.id == f.id && m.name == f.name && m.kind == TypeOfMime(f.mimeType)
    ensures m.url == "/uploads/" + f.id
    ensures m.courseId == courseId && m.lessonId == lessonId && m.description == description
    ensures m.title == (if title == "" then f.name else title)
  {
    UploadedMaterial(f.id, f.name, TypeOfMime(f.mimeType), "/uploads/" + f.id, courseId, lessonId,
                     if title != "" then title else f.name, description)
  }

  /** `files.map(...)`: one record per file, in the same order. */
  function NewMaterials(files: seq<UploadedFile>, courseId: string, lessonId: string, title: string, description: string): (r: seq<UploadedMaterial>)
    ensures |r| == |files|
    ensures forall i :: 0 <= i < |files| ==> r[i] == NewMaterial(files[i], courseId, lessonId, title, description)
  {
    if files == [] then []
    else [NewMaterial(files[0], courseId, lessonId, title, description)] + NewMaterials(files[1..], courseId, lessonId, title, description)
  }

  /** The uploader's state. */
  class Uploader {
    var selectedCourse: string
    var selectedLesson: string
    var materialTitle: string
    var materialDescription: string
    var uploadedMaterials: seq<UploadedMaterial>

    constructor()
      ensures selectedCourse == "" && selectedLesson == "" && materialTitle == "" && materialDescription == ""
      ensures uploadedMaterials == []
    {
      selectedCourse, selectedLesson, materialTitle, materialDescription := "", "", "", "";
      uploadedMaterials := [];
    }

    /** `handleFilesUploaded`: one record per file, appended after the earlier ones in upload order. */
    method HandleFilesUploaded(files: seq<UploadedFile>)
      modifies this
      ensures |uploadedMaterials| == |old(uploadedMaterials)| + |files|
      ensures uploadedMaterials[..|old(uploadedMaterials)|] == old(uploadedMaterials)
      ensures forall i :: 0 <= i < |files| ==>
        uploadedMaterials[|old(uploadedMaterials)| + i] == NewMaterial(files[i], selectedCourse, selectedLesson, materialTitle, materialDescription)
      ensures selectedCourse == old(selectedCourse) && selectedLesson == old(selectedLesson)
      ensures materialTitle == old(materialTitle) && materialDescription == old(materialDescription)
    {
      uploadedMaterials := uploadedMaterials + NewMaterials(files, selectedCourse, selectedLesson, materialTitle, materialDescription);
    }

    /** `handleSaveMaterials`: reports how many were saved, then clears the list, title and description. */
    method HandleSaveMaterials() returns (saved: nat)
      modifies this
      ensures saved == |old(uploadedMaterials)|
      ensures uploadedMaterials == [] && materialTitle == "" && materialDescription == ""
      ensures selectedCourse == old(selectedCourse) && selectedLesson == old(selectedLesson)
    {
      saved := |uploadedMaterials|;
      uploadedMaterials := [];
      materialTitle := "";
      materialDescription := "";
    }
  }
}
