/**
 * The generic upload endpoint (learnhub/app/api/upload/route.ts): rejects a request without a
 * file, stores it under the same folder scheme as the storage service and answers with the
 * uploaded file's record. It carries its own copy of the extension table.
 */
module UploadRoute {
  import opened Wrappers
  import opened Strings
  import FileStorage

  /** The form fields of the request. */
  datatype UploadForm = UploadForm(file: Option<FileStorage.FileInfo>, courseId: Option<string>, lessonId: Option<string>)

  datatype Response = Response(status: nat, body: Body)
  datatype Body = ErrorBody(error: string) | FileBody(file: FileStorage.UploadedFile)

  /** The route's own `getFileType`: the text after the last "." of the lower-cased name, looked up in the table. */
  function GetFileType(fileName: string): FileStorage.FileType {
    var pieces := Split(Lower(fileName), '.');
    var ext := pieces[|pieces| - 1];
    if ext == "mp4" || ext == "webm" || ext == "mov" then FileStorage.VideoFile
    else if ext == "pdf" then FileStorage.PdfFile
    else if ext == "js" || ext == "py" || ext == "zip" || ext == "html" || ext == "css" then FileStorage.CodeFile
    else if ext == "jpg" || ext == "jpeg" || ext == "png" || ext == "gif" then FileStorage.ImageFile
    else FileStorage.PdfFile
  }

  /** The route and the storage service classify every name alike. */
  lemma SameFileTypeAsStorage(fileName: string)
    ensures GetFileType(fileName) == FileStorage.GetFileType(fileName)
  {
  }

  /**
   * `POST`: no file gives 400 before anything is stored; a failing `put` gives 500; otherwise the
   * record of the stored file under the blob name `FileStorage.ObjectName`.
   */
  function Post(form: UploadForm, now: nat, put: FileStorage.PutOutcome): (r: Response)
    ensures form.file.None? ==> r == Response(400, ErrorBody("No file provided"))
    ensures form.file.Some? && put.Threw? ==> r == Response(500, ErrorBody("Upload failed"))
    ensures form.file.Some? && put.Stored? ==>
      && r.status == 200 && r.body.FileBody?
      && r.body.file.id == FileStorage.FileIdOf(put.url, now) && r.body.file.uploadedAt == now
      && r.body.file.url == put.url && r.body.file.name == form.file.value.name
      && r.body.file.fileType == FileStorage.GetFileType(form.file.value.name)
      && r.body.file.size == form.file.value.size
      && r.body.file.courseId == form.courseId && r.body.file.lessonId == form.lessonId
  {
    SameFileTypeAsStorage(if form.file.Some? then form.file.value.name else "");
    if form.file.None? then Response(400, ErrorBody("No file provided"))
    else match put
      case Threw(_) => Response(500, ErrorBody("Upload failed"))
      case Stored(url) =>
        var f := form.file.value;
        Response(200, FileBody(FileStorage.UploadedFile(
          FileStorage.FileIdOf(url, now), f.name, url, GetFileType(f.name), f.size, now, form.courseId, form.lessonId)))
  }

  /** The name the route hands to `put`. */
  function BlobName(form: UploadForm, now: nat): string
    requires form.file.Some?
  {
    FileStorage.ObjectName(form.courseId, now, form.file.value.name)
  }

  /** With a course id the blob lands under "courses/<id>/", otherwise under "uploads/". */
  lemma BlobFolder(form: UploadForm, now: nat)
    requires form.file.Some?
    ensures var name := BlobName(form, now);
      (form.courseId.Some? && form.courseId.value != "" ==> StartsWith(name, "courses/" + form.courseId.value + "/"))
      && (form.courseId.None? || form.courseId.value == "" ==> StartsWith(name, "uploads/"))
  {
    FileStorage.ObjectNameDecodes(form.courseId, now, form.file.value.name);
  }
}
