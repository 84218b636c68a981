/**
 * The "Create New Post" dialog of learnhub/components/community/new-post-dialog.tsx: the
 * attachment size filter, attachment removal, submit validation, tag parsing and the reset
 * after a successful submit.
 */
module NewPostDialog {
  import opened Wrappers
  import opened Strings
  import opened Sorting
  import Community

  /** A chosen file: its name, size in bytes and MIME type. */
  datatype File = File(name: string, size: nat, mimeType: string)

  /** The post handed to the dialog's `onSubmit` callback. */
  datatype PostData = PostData(
    title: string,
    content: string,
    category: string,
    tags: seq<string>,
    attachments: seq<File>,
    author: Option<string>)

  /** The editable fields of the form. */
  datatype Field = Title | Content | Category | Tags

  const MaxSize: nat := 10 * 1024 * 1024
  const DefaultCategory := "General Discussion"
  const EnterTitle := "Please enter a title"
  const EnterContent := "Please enter content"

  function TooLargeMessage(f: File): string {
    "File " + f.name + " is too large. Maximum size is 10MB."
  }

  predicate WithinLimit(f: File) {
    f.size <= MaxSize
  }

  /** The files kept by the size filter, in the order chosen. */
  function AcceptedFiles(files: seq<File>): (r: seq<File>)
    ensures forall i :: 0 <= i < |r| ==> r[i] in files && r[i].size <= MaxSize
    ensures forall i :: 0 <= i < |files| && files[i].size <= MaxSize ==> files[i] in r
    ensures IsSubsequence(r, files)
  {
    FilterIsSubsequence(files, WithinLimit);
    Filter(files, WithinLimit)
  }

  /** The last rejected file: the size filter sets the error once per rejected file, so the last one shows. */
  function LastTooLarge(files: seq<File>): (r: Option<File>)
    ensures r.None? <==> forall i :: 0 <= i < |files| ==> files[i].size <= MaxSize
    ensures r.Some? ==> exists i :: (0 <= i < |files| && files[i] == r.value && files[i].size > MaxSize
                                    && forall j :: i < j < |files| ==> files[j].size <= MaxSize)
  {
    if files == [] then None
    else if files[|files| - 1].size > MaxSize then Some(files[|files| - 1])
    else LastTooLarge(files[..|files| - 1])
  }

  /** `prev.filter((_, i) => i !== index)`, written as the filter over positions. */
  function RemoveAt(s: seq<File>, index: int): seq<File>
    decreases |s|
  {
    if s == [] then []
    else (if index == 0 then [] else [s[0]]) + RemoveAt(s[1..], index - 1)
  }

  /** Removal drops exactly the element at `index`, keeps the rest in order, and ignores an index out of range. */
  lemma {:induction false} RemoveAtSpec(s: seq<File>, index: int)
    ensures 0 <= index < |s| ==> RemoveAt(s, index) == s[..index] + s[index + 1..]
    ensures !(0 <= index < |s|) ==> RemoveAt(s, index) == s
    decreases |s|
  {
    if s != [] {
      RemoveAtSpec(s[1..], index - 1);
      if 0 < index < |s| {
        assert [s[0]] + s[1..][..index - 1] == s[..index];
        assert s[1..][index - 1 + 1..] == s[index + 1..];
      } else if index != 0 {
        assert [s[0]] + s[1..] == s;
      }
    }
  }

  /** The pieces trimmed, with the ones that trim to nothing dropped. */
  function CleanTags(pieces: seq<string>): seq<string>
    decreases |pieces|
  {
    if pieces == [] then []
    else
      var t := Trim(pieces[0]);
      (if t == "" then [] else [t]) + CleanTags(pieces[1..])
  }

  /** `tags.split(",").map(t => t.trim()).filter(Boolean)`. */
  function ParseTags(raw: string): seq<string> {
    CleanTags(Split(raw, ','))
  }

  /** A trimmed string trims to itself. */
  lemma TrimIdempotent(s: string)
    ensures Trim(Trim(s)) == Trim(s)
  {
    TrimIsSlice(s);
    var t := Trim(s);
    if t != [] {
      assert TrimStart(t) == t;
      assert TrimEnd(t) == t;
    }
  }

  /** Every cleaned tag is the non-empty trim of some piece. */
  lemma {:induction false} CleanTagsFromPieces(pieces: seq<string>)
    ensures forall k :: 0 <= k < |CleanTags(pieces)| ==>
      CleanTags(pieces)[k] != "" && exists i :: 0 <= i < |pieces| && CleanTags(pieces)[k] == Trim(pieces[i])
    decreases |pieces|
  {
    if pieces != [] {
      CleanTagsFromPieces(pieces[1..]);
      var head: seq<string> := if Trim(pieces[0]) == "" then [] else [Trim(pieces[0])];
      var rest := CleanTags(pieces[1..]);
      assert CleanTags(pieces) == head + rest;
      forall k | 0 <= k < |CleanTags(pieces)|
        ensures CleanTags(pieces)[k] != "" && exists i :: 0 <= i < |pieces| && CleanTags(pieces)[k] == Trim(pieces[i])
      {
        if k >= |head| {
          var i :| 0 <= i < |pieces[1..]| && rest[k - |head|] == Trim(pieces[1..][i]);
          assert pieces[1..][i] == pieces[i + 1];
        } else {
          assert CleanTags(pieces)[k] == Trim(pieces[0]);
        }
      }
    }
  }

  /** A piece that does not trim to nothing yields a tag. */
  lemma {:induction false} CleanTagsKeepsNonBlank(pieces: seq<string>, i: int)
    requires 0 <= i < |pieces| && Trim(pieces[i]) != ""
    ensures Trim(pieces[i]) in CleanTags(pieces)
    decreases |pieces|
  {
    if i > 0 {
      CleanTagsKeepsNonBlank(pieces[1..], i - 1);
    }
  }

  /** Every parsed tag is non-empty, already trimmed, and free of commas. */
  lemma ParsedTagsClean(raw: string)
    ensures forall k :: 0 <= k < |ParseTags(raw)| ==>
      var tag := ParseTags(raw)[k]; tag != "" && Trim(tag) == tag && ',' !in tag
  {
    var pieces := Split(raw, ',');
    SplitPiecesHaveNoSeparator(raw, ',');
    CleanTagsFromPieces(pieces);
    forall k | 0 <= k < |ParseTags(raw)|
      ensures var tag := ParseTags(raw)[k]; tag != "" && Trim(tag) == tag && ',' !in tag
    {
      var tag := ParseTags(raw)[k];
      var i :| 0 <= i < |pieces| && tag == Trim(pieces[i]);
      TrimIdempotent(pieces[i]);
      TrimIsSlice(pieces[i]);
      var at :| OccursAt(pieces[i], Trim(pieces[i]), at);
    }
  }

  /** A non-blank piece between commas becomes a tag. */
  lemma NonBlankPieceKept(raw: string, i: int)
    requires 0 <= i < |Split(raw, ',')| && Trim(Split(raw, ',')[i]) != ""
    ensures Trim(Split(raw, ',')[i]) in ParseTags(raw)
  {
    CleanTagsKeepsNonBlank(Split(raw, ','), i);
  }

  /** `!s.trim()`: by `TrimEmptyIffBlank`, exactly the strings made only of whitespace. */
  predicate Blank(s: string) {
    Trim(s) == []
  }

  /** The dialog's form state. */
  class Dialog {
    var title: string
    var content: string
    var category: string
    var tags: string
    var attachments: seq<File>
    var error: string

    /** The state a fresh dialog starts in, and returns to after a successful submit. */
    predicate IsReset()
      reads this
    {
      title == "" && content == "" && category == DefaultCategory && tags == "" && attachments == []
    }

    constructor()
      ensures IsReset() && error == ""
    {
      title, content, category, tags := "", "", DefaultCategory, "";
      attachments := [];
      error := "";
    }

    /** `handleInputChange`: sets one field and clears the error. */
    method SetField(field: Field, value: string)
      modifies this
      ensures error == "" && attachments == old(attachments)
      ensures title == (if field == Title then value else old(title))
      ensures content == (if field == Content then value else old(content))
      ensures category == (if field == Category then value else old(category))
      ensures tags == (if field == Tags then value else old(tags))
    {
      match field {
        case Title => title := value;
        case Content => content := value;
        case Category => category := value;
        case Tags => tags := value;
      }
      error := "";
    }

    /** `handleFileUpload`: files within 10 MiB are appended; the last oversized file's name is reported. */
    method HandleFileUpload(files: seq<File>)
      modifies this
      ensures attachments == old(attachments) + AcceptedFiles(files)
      ensures error == match LastTooLarge(files) case Some(f) => TooLargeMessage(f) case None => old(error)
      ensures title == old(title) && content == old(content) && category == old(category) && tags == old(tags)
    {
      match LastTooLarge(files) {
        case Some(f) => error := TooLargeMessage(f);
        case None =>
      }
      attachments := attachments + AcceptedFiles(files);
    }

    /** `removeAttachment(index)`. */
    method RemoveAttachment(index: int)
      modifies this
      ensures 0 <= index < |old(attachments)| ==> attachments == old(attachments)[..index] + old(attachments)[index + 1..]
      ensures !(0 <= index < |old(attachments)|) ==> attachments == old(attachments)
      ensures title == old(title) && content == old(content) && category == old(category)
      ensures tags == old(tags) && error == old(error)
    {
      RemoveAtSpec(attachments, index);
      attachments := RemoveAt(attachments, index);
    }

    /**
     * `handleSubmit`: a blank title, then a blank content, stops the submit with an error and
     * leaves the form as it was; otherwise the post is handed over and the form resets.
     */
    method HandleSubmit(author: Option<string>) returns (post: Option<PostData>)
      modifies this
      ensures Blank(old(title)) ==> post.None? && error == EnterTitle
      ensures !Blank(old(title)) && Blank(old(content)) ==> post.None? && error == EnterContent
      ensures post.None? ==> title == old(title) && content == old(content) && category == old(category)
      ensures post.None? ==> tags == old(tags) && attachments == old(attachments)
      ensures post.Some? <==> !Blank(old(title)) && !Blank(old(content))
      ensures post.Some? ==> post.value == PostData(old(title), old(content), old(category), ParseTags(old(tags)), old(attachments), author)
      ensures post.Some? ==> title == "" && content == "" && category == DefaultCategory && tags == ""
      ensures post.Some? ==> attachments == [] && error == ""
    {
      error := "";
      if Blank(title) {
        error := EnterTitle;
        post := None;
      } else if Blank(content) {
        error := EnterContent;
        post := None;
      } else {
        post := Some(PostData(title, content, category, ParseTags(tags), attachments, author));
        title, content, category, tags := "", "", DefaultCategory, "";
        attachments := [];
      }
    }
  }

  /** The category menu: every forum category but the "All Categories" wildcard. */
  function CategoryChoices(): (r: seq<string>)
    ensures |r| == |Community.ForumCategories| - 1
    ensures forall i :: 0 <= i < |r| ==> r[i] == Community.ForumCategories[i + 1]
  {
    Community.ForumCategories[1..]
  }

  /** The menu excludes the wildcard and offers the default category. */
  lemma CategoryChoicesSpec()
    ensures "All Categories" !in CategoryChoices()
    ensures DefaultCategory in CategoryChoices()
  {
    assert CategoryChoices()[0] == DefaultCategory;
  }

  /** Exactly 10 MiB is accepted; one byte more is not. */
  lemma SizeLimitInclusive(name: string, mimeType: string)
    ensures AcceptedFiles([File(name, 10485760, mimeType)]) == [File(name, 10485760, mimeType)]
    ensures AcceptedFiles([File(name, 10485761, mimeType)]) == []
  {
  }
}
