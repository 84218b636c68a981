/**
 * The YouTube player of learnhub/components/courses/youtube-player.tsx: extracting the video
 * id from an embed, watch or short URL, and the once-only completion guard.
 */
module YouTubePlayer {
  import opened Wrappers
  import opened Strings

  /** A character of the class `[a-zA-Z0-9_-]`. */
  predicate IsIdChar(c: char) {
    'a' <= c <= 'z' || 'A' <= c <= 'Z' || '0' <= c <= '9' || c == '_' || c == '-'
  }

  /** The longest prefix of `s` made of id characters (what a greedy `[a-zA-Z0-9_-]+` captures). */
  function IdRun(s: string): (r: string)
    ensures |r| <= |s| && r == s[..|r|]
    ensures forall i :: 0 <= i < |r| ==> IsIdChar(r[i])
    ensures |r| < |s| ==> !IsIdChar(s[|r|])
  {
    if s != [] && IsIdChar(s[0]) then [s[0]] + IdRun(s[1..]) else []
  }

  /** A run of id characters followed by a non-id character (or nothing) is captured whole. */
  lemma {:induction false} IdRunOf(a: string, b: string)
    requires forall i :: 0 <= i < |a| ==> IsIdChar(a[i])
    requires b == [] || !IsIdChar(b[0])
    ensures IdRun(a + b) == a
  {
    if a != [] {
      assert (a + b)[1..] == a[1..] + b;
      IdRunOf(a[1..], b);
    }
  }

  /** The three URL shapes, tried in this order. */
  datatype Marker = Embed | Watch | Short

  /** The literal text the pattern expects before the id. */
  function MarkerLength(m: Marker): nat {
    match m
    case Embed => |"/embed/"|
    case Watch => 3
    case Short => |"youtu.be/"|
  }

  /** The marker `m` occurs in `url` at index `i`: "/embed/", "?v=" or "&v=", "youtu.be/". */
  predicate MarkerAt(url: string, m: Marker, i: nat) {
    match m
    case Embed => OccursAt(url, "/embed/", i)
    case Watch => i + 3 <= |url| && (url[i] == '?' || url[i] == '&') && url[i + 1] == 'v' && url[i + 2] == '='
    case Short => OccursAt(url, "youtu.be/", i)
  }

  /** The id characters that follow a marker at index `i`. */
  function CapturedAt(url: string, m: Marker, i: nat): string
    requires MarkerAt(url, m, i)
  {
    IdRun(url[i + MarkerLength(m)..])
  }

  /** The pattern for `m` matches at index `i`: the marker, then at least six id characters. */
  predicate MatchesAt(url: string, m: Marker, i: nat) {
    MarkerAt(url, m, i) && |CapturedAt(url, m, i)| >= 6
  }

  /** `url.match(pattern)` searched from index `from`: the capture of the leftmost match. */
  function FirstMatch(url: string, m: Marker, from: nat): (r: Option<string>)
    ensures r.None? <==> forall i :: from <= i <= |url| ==> !MatchesAt(url, m, i)
    ensures r.Some? ==> exists i :: (from <= i <= |url| && MatchesAt(url, m, i) && r.value == CapturedAt(url, m, i)
                                    && forall j :: from <= j < i ==> !MatchesAt(url, m, j))
    decreases |url| - from
  {
    if from > |url| then None
    else if MatchesAt(url, m, from) then Some(CapturedAt(url, m, from))
    else FirstMatch(url, m, from + 1)
  }

  /** `extractVideoId`: the embed form first, then the watch form, then the short form. */
  function ExtractVideoId(url: string): Option<string> {
    match FirstMatch(url, Embed, 0)
    case Some(id) => Some(id)
    case None =>
      match FirstMatch(url, Watch, 0)
      case Some(id) => Some(id)
      case None => FirstMatch(url, Short, 0)
  }

  /** The pattern for `m` matches somewhere in `url`. */
  predicate Matches(url: string, m: Marker) {
    exists i :: 0 <= i <= |url| && MatchesAt(url, m, i)
  }

  /**
   * The precedence of `extractVideoId`: an embed match wins; a watch match counts only without
   * an embed match; a short-link match only without either; with none the result is null.
   */
  lemma ExtractPrecedence(url: string)
    ensures Matches(url, Embed) ==> ExtractVideoId(url) == FirstMatch(url, Embed, 0)
    ensures !Matches(url, Embed) && Matches(url, Watch) ==> ExtractVideoId(url) == FirstMatch(url, Watch, 0)
    ensures !Matches(url, Embed) && !Matches(url, Watch) ==> ExtractVideoId(url) == FirstMatch(url, Short, 0)
    ensures ExtractVideoId(url).None? <==> !Matches(url, Embed) && !Matches(url, Watch) && !Matches(url, Short)
  {
  }

  /** An extracted id is at least six id characters long, and is exactly the run after some marker. */
  lemma ExtractedIdShape(url: string)
    requires ExtractVideoId(url).Some?
    ensures |ExtractVideoId(url).value| >= 6
    ensures forall k :: 0 <= k < |ExtractVideoId(url).value| ==> IsIdChar(ExtractVideoId(url).value[k])
    ensures exists m: Marker, i :: 0 <= i <= |url| && MatchesAt(url, m, i) && ExtractVideoId(url).value == CapturedAt(url, m, i)
  {
    var id := ExtractVideoId(url).value;
    var m: Marker := if FirstMatch(url, Embed, 0).Some? then Embed else if FirstMatch(url, Watch, 0).Some? then Watch else Short;
    assert FirstMatch(url, m, 0) == Some(id);
    var i :| 0 <= i <= |url| && MatchesAt(url, m, i) && id == CapturedAt(url, m, i);
  }

  /** An embed URL with a query string: the id stops at the "?". */
  lemma EmbedExample()
    ensures ExtractVideoId("/embed/nu_pCVPKzTk?si=x") == Some("nu_pCVPKzTk")
  {
    var url := "/embed/nu_pCVPKzTk?si=x";
    assert MarkerAt(url, Embed, 0);
    assert url[7..] == "nu_pCVPKzTk" + "?si=x";
    IdRunOf("nu_pCVPKzTk", "?si=x");
  }

  /** An id shorter than six characters does not qualify. */
  lemma ShortIdRejected()
    ensures ExtractVideoId("?v=abc") == None
  {
    var url := "?v=abc";
    assert IdRun(url[3..]) == "abc";
    assert !MatchesAt(url, Watch, 0);
    forall i | 0 <= i <= |url| ensures !MatchesAt(url, Embed, i) && !MatchesAt(url, Watch, i) && !MatchesAt(url, Short, i) {
      if i == 0 {
        assert !OccursAt(url, "/embed/", i) && !OccursAt(url, "youtu.be/", i);
      }
    }
  }

  /**
   * The `completedRef` guard of one mounted player: the ended event and the progress threshold
   * both go through it, so `onComplete` fires at most once.
   */
  class CompletionGuard {
    /** `completedRef.current`. */
    var completed: bool
    /** How many times `onComplete` has been called on this mount. */
    var completions: nat

    ghost predicate Valid()
      reads this
    {
      completions == if completed then 1 else 0
    }

    constructor()
      ensures Valid() && !completed && completions == 0
    {
      completed := false;
      completions := 0;
    }

    /** Calls `onComplete` unless it has already been called; reports whether it fired. */
    method Complete() returns (fired: bool)
      requires Valid()
      modifies this
      ensures Valid() && completed && completions <= 1
      ensures fired <==> !old(completed)
      ensures completions == old(completions) + (if fired then 1 else 0)
    {
      fired := !completed;
      if !completed {
        completed := true;
        completions := completions + 1;
      }
    }

    /** The player's state-change event: only the ENDED state completes. */
    method OnStateChange(ended: bool) returns (fired: bool)
      requires Valid()
      modifies this
      ensures Valid() && completions <= 1
      ensures fired <==> ended && !old(completed)
      ensures completed == (old(completed) || ended)
    {
      fired := false;
      if ended {
        fired := Complete();
      }
    }

    /** A progress poll: `reachedThreshold` stands for the progress having reached 95 %. */
    method OnPoll(reachedThreshold: bool) returns (fired: bool)
      requires Valid()
      modifies this
      ensures Valid() && completions <= 1
      ensures fired <==> reachedThreshold && !old(completed)
      ensures completed == (old(completed) || reachedThreshold)
    {
      fired := false;
      if reachedThreshold {
        fired := Complete();
      }
    }
  }
}
