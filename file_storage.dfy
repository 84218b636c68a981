/**
 * File storage (learnhub/lib/file-storage.ts): classifying a file by the extension of its name,
 * the object name an upload is stored under, and the upload result built from the blob URL.
 *
 * The blob store is outside the model: what `put` did is a parameter, either the URL it
 * returned or the fact that it threw.
 */
module FileStorage {
  import opened Wrappers
  import opened Strings

  datatype FileType = VideoFile | PdfFile | CodeFile | ImageFile

  /** A browser `File`: its name and size in bytes. */
  datatype FileInfo = FileInfo(name: string, size: nat)

  /** The outcome of the blob `put` call. */
  datatype PutOutcome = Stored(url: string) | Threw(message: Option<string>)

  datatype UploadedFile = UploadedFile(
    id: string,
    name: string,
    url: string,
    fileType: FileType,
    size: nat,
    uploadedAt: int,
    courseId: Option<string>,
    lessonId: Option<string>)

  datatype FileUploadResult = UploadSucceeded(file: UploadedFile) | UploadFailed(error: string)

  /** The text after the last "." of the lower-cased name; the whole lower-cased name when there is no ".". */
  function Extension(fileName: string): (ext: string)
    ensures '.' !in ext
  {
    var pieces := Split(Lower(fileName), '.');
    SplitPiecesHaveNoSeparator(Lower(fileName), '.');
    pieces[|pieces| - 1]
  }

  /** The `switch` on the extension; anything unlisted counts as a PDF. */
  function TypeOfExtension(ext: string): FileType {
    if ext == "mp4" || ext == "webm" || ext == "mov" then VideoFile
    else if ext == "pdf" then PdfFile
    else if ext == "js" || ext == "py" || ext == "zip" || ext == "html" || ext == "css" then CodeFile
    else if ext == "jpg" || ext == "jpeg" || ext == "png" || ext == "gif" then ImageFile
    else PdfFile
  }

  /** `getFileType`. */
  function GetFileType(fileName: string): FileType {
    TypeOfExtension(Extension(fileName))
  }

  /** The extension is a dot-free tail of the lower-cased name, preceded by a "." unless it is the whole name. */
  lemma ExtensionIsLastDotSuffix(fileName: string)
    ensures var low := Lower(fileName); var ext := Extension(fileName);
      |ext| <= |low| && low[|low| - |ext|..] == ext
      && (|ext| < |low| ==> low[|low| - |ext| - 1] == '.')
      && ('.' !in fileName ==> ext == low)
  {
    var low := Lower(fileName);
    SplitLast(low, '.');
  }

  /** Classification ignores case: a name and its lower-cased form get the same type. */
  lemma FileTypeIgnoresCase(fileName: string)
    ensures GetFileType(Lower(fileName)) == GetFileType(fileName)
  {
    LowerIdempotent(fileName);
  }

  /** A name that lower-cases to one dot between two dot-free parts has the second part as extension. */
  lemma ExtensionOfSingleDot(fileName: string, stem: string, ext: string)
    requires Lower(fileName) == stem + ['.'] + ext && '.' !in stem && '.' !in ext
    ensures Extension(fileName) == ext
  {
    SplitConcat(stem, ext, '.');
    SplitSingle(ext, '.');
    SplitFirst(ext, '.');
  }

  /** "A.MP4" and "a.mp4" are both videos. */
  lemma UpperCaseVideoExample()
    ensures GetFileType("A.MP4") == VideoFile && GetFileType("a.mp4") == VideoFile
  {
    assert Lower("A.MP4") == "a" + ['.'] + "mp4";
    ExtensionOfSingleDot("A.MP4", "a", "mp4");
    assert Lower("a.mp4") == "a" + ['.'] + "mp4";
    ExtensionOfSingleDot("a.mp4", "a", "mp4");
  }

  /** An unlisted extension falls back to PDF. */
  lemma UnknownExtensionExample()
    ensures GetFileType("notes.tar") == PdfFile
  {
    assert Lower("notes.tar") == "notes" + ['.'] + "tar";
    ExtensionOfSingleDot("notes.tar", "notes", "tar");
  }

  /** Without a "." the whole name is the extension: unlisted names are PDFs, but a bare "mp4" is a video. */
  lemma NameWithoutDot(fileName: string)
    requires '.' !in fileName
    ensures GetFileType(fileName) == TypeOfExtension(Lower(fileName))
  {
    ExtensionIsLastDotSuffix(fileName);
  }

  /** `metadata?.courseId ? \`courses/${courseId}\` : "uploads"`: an absent or empty course id means "uploads". */
  function FolderPath(courseId: Option<string>): string {
    if courseId.Some? && courseId.value != "" then "courses/" + courseId.value else "uploads"
  }

  /** The blob name: folder, "/", the upload time, "_", the file name. */
  function ObjectName(courseId: Option<string>, now: nat, fileName: string): string {
    FolderPath(courseId) + "/" + NatToString(now) + "_" + fileName
  }

  lemma DigitsHaveNo(s: string, c: char)
    requires forall i :: 0 <= i < |s| ==> IsDigit(s[i])
    requires !IsDigit(c)
    ensures c !in s
  {
  }

  /**
   * The blob name reads back: it starts with the folder and "/", and after that the text before
   * the first "_" is the upload time in decimal.
   */
  lemma ObjectNameDecodes(courseId: Option<string>, now: nat, fileName: string)
    ensures var name := ObjectName(courseId, now, fileName);
      var folder := FolderPath(courseId);
      |name| > |folder| && name[..|folder| + 1] == folder + "/"
      && var stamp := Split(name[|folder| + 1..], '_')[0];
        (forall i :: 0 <= i < |stamp| ==> IsDigit(stamp[i])) && ParseDigits(stamp) == now
  {
    var folder := FolderPath(courseId);
    var digits := NatToString(now);
    var name := ObjectName(courseId, now, fileName);
    assert name == (folder + "/") + (digits + ['_'] + fileName);
    assert name[|folder| + 1..] == digits + ['_'] + fileName;
    DigitsHaveNo(digits, '_');
    SplitConcat(digits, fileName, '_');
    ParsePrintRoundTrip(now);
  }

  /** `blob.url.split("/").pop() || \`file_${now}\``. */
  function FileIdOf(url: string, now: nat): (id: string)
    ensures '/' !in id || id == "file_" + NatToString(now)
  {
    var pieces := Split(url, '/');
    SplitPiecesHaveNoSeparator(url, '/');
    var last := pieces[|pieces| - 1];
    if last != "" then last else "file_" + NatToString(now)
  }

  /** The id is the URL's last path segment when that is non-empty, and never contains a "/" then. */
  lemma FileIdIsLastSegment(url: string, now: nat)
    requires url != [] && url[|url| - 1] != '/'
    ensures var id := FileIdOf(url, now);
      id != "" && '/' !in id && |id| <= |url| && url[|url| - |id|..] == id
      && (|id| < |url| ==> url[|url| - |id| - 1] == '/')
  {
    SplitLast(url, '/');
    var pieces := Split(url, '/');
    var last := pieces[|pieces| - 1];
    assert last != "";
    assert FileIdOf(url, now) == last;
  }

  /** `uploadFile`: the record built from what `put` returned, or the thrown message. */
  function UploadFile(file: FileInfo, courseId: Option<string>, lessonId: Option<string>, now: nat, put: PutOutcome): (r: FileUploadResult)
    ensures put.Threw? ==> r.UploadFailed? && (r.error == if put.message.Some? then put.message.value else "Upload failed")
    ensures put.Stored? ==>
      && r.UploadSucceeded? && r.file.url == put.url && r.file.name == file.name
      && r.file.fileType == GetFileType(file.name) && r.file.size == file.size && r.file.uploadedAt == now
      && r.file.courseId == courseId && r.file.lessonId == lessonId
  {
    match put
    case Threw(message) => UploadFailed(if message.Some? then message.value else "Upload failed")
    case Stored(url) =>
      UploadSucceeded(UploadedFile(FileIdOf(url, now), file.name, url, GetFileType(file.name), file.size, now, courseId, lessonId))
  }

  /** `uploadCourseFile`: no file gives "No file provided" and nothing is uploaded. */
  function UploadCourseFile(file: Option<FileInfo>, courseId: Option<string>, lessonId: Option<string>, now: nat, put: PutOutcome): (r: FileUploadResult)
    ensures file.None? ==> r == UploadFailed("No file provided")
    ensures file.Some? ==> r == UploadFile(file.value, courseId, lessonId, now, put)
  {
    if file.None? then UploadFailed("No file provided") else UploadFile(file.value, courseId, lessonId, now, put)
  }
}
