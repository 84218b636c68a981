/**
 * The material upload endpoint (learnhub/app/api/materials/upload/route.ts): the form is
 * checked against a schema, the file is uploaded, and the resulting material is added to the
 * course. The upload itself is outside the model: its outcome is a parameter.
 */
module MaterialsUploadRoute {
  import opened Wrappers
  import CourseMaterials
  import ObjectKeys

  /** The form fields; `None` is what `formData.get` returns for a missing field. */
  datatype UploadForm = UploadForm(
    hasFile: bool,
    courseId: Option<string>,
    lessonId: Option<string>,
    title: Option<string>,
    description: Option<string>,
    materialType: Option<string>)

  datatype Response =
    | InvalidForm          // 400 "Invalid form data"
    | UploadFailed         // 500 "Failed to upload material"
    | Uploaded(material: CourseMaterials.CourseMaterial)

  function Status(r: Response): nat {
    match r
    case InvalidForm => 400
    case UploadFailed => 500
    case Uploaded(_) => 200
  }

  /** `z.string().min(lo).max(hi)` on a field that may be missing. */
  predicate StringWithin(field: Option<string>, lo: nat, hi: nat) {
    field.Some? && lo <= |field.value| <= hi
  }

  const MaterialTypes: seq<string> := ["video", "pdf", "code", "assignment"]

  /**
   * The schema: non-empty course and lesson ids, a title of 1 to 200 characters, a description of
   * at most 1000 characters, and one of four types. A missing description is `null`, which
   * `.optional()` does not accept.
   */
  predicate SchemaAccepts(form: UploadForm) {
    && form.courseId.Some? && |form.courseId.value| >= 1
    && form.lessonId.Some? && |form.lessonId.value| >= 1
    && StringWithin(form.title, 1, 200)
    && StringWithin(form.description, 0, 1000)
    && form.materialType.Some? && form.materialType.value in MaterialTypes
  }

  function TypeOf(name: string): CourseMaterials.MaterialType {
    if name == "video" then CourseMaterials.Video
    else if name == "pdf" then CourseMaterials.Pdf
    else if name == "code" then CourseMaterials.Code
    else CourseMaterials.Assignment
  }

  /** The schema's bounds are inclusive: 200 characters of title pass, 201 do not, and "quiz" is refused. */
  lemma SchemaBounds(form: UploadForm)
    requires SchemaAccepts(form)
    ensures SchemaAccepts(form.(title := Some(seq(200, _ => 'a'))))
    ensures !SchemaAccepts(form.(title := Some(seq(201, _ => 'a'))))
    ensures !SchemaAccepts(form.(title := Some("")))
    ensures SchemaAccepts(form.(description := Some("")))
    ensures !SchemaAccepts(form.(description := None))
    ensures !SchemaAccepts(form.(materialType := Some("quiz")))
  {
    assert "quiz" != MaterialTypes[0] && "quiz" != MaterialTypes[1] && "quiz" != MaterialTypes[2] && "quiz" != MaterialTypes[3];
  }

  /**
   * `POST`: a missing file or a refused form gives 400 and nothing happens; a failed upload gives
   * 500 and nothing is added; otherwise the uploaded material is added to its course.
   */
  method Post(store: CourseMaterials.MaterialStore, form: UploadForm, upload: Option<CourseMaterials.CourseMaterial>)
    returns (response: Response)
    requires store.Valid()
    modifies store
    ensures store.Valid()
    ensures !form.hasFile || !SchemaAccepts(form) ==>
      response == InvalidForm && unchanged(store)
    ensures form.hasFile && SchemaAccepts(form) && upload.None? ==>
      response == UploadFailed && unchanged(store)
    ensures form.hasFile && SchemaAccepts(form) && upload.Some? ==>
      && response == Uploaded(upload.value)
      && store.courseMaterials == old(store.courseMaterials)[form.courseId.value :=
           CourseMaterials.MaterialsOf(old(store.courseMaterials), form.courseId.value) + [upload.value]]
      && store.courseOrder == if form.courseId.value in old(store.courseMaterials) then old(store.courseOrder)
                              else ObjectKeys.InsertKey(old(store.courseOrder), form.courseId.value)
  {
    if !form.hasFile || !SchemaAccepts(form) {
      return InvalidForm;
    }
    if upload.None? {
      return UploadFailed;
    }
    store.AddMaterialToCourse(form.courseId.value, upload.value);
    return Uploaded(upload.value);
  }
}
