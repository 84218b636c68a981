/**
 * The discussion forum's list utilities (learnhub/lib/community.ts): the search, category
 * filter and sort of `filterPosts`, the relative-time label, and the zero case of the
 * file-size label.
 */
module Community {
  import opened Wrappers
  import opened Strings
  import opened Sorting

  datatype Author = Author(id: string, name: string)

  datatype Reply = Reply(id: string, content: string, author: Author, createdAt: int, upvotes: int)

  /** A forum post; `createdAt` is a timestamp in milliseconds. */
  datatype ForumPost = ForumPost(
    id: string,
    title: string,
    content: string,
    author: Author,
    category: string,
    tags: seq<string>,
    createdAt: int,
    replies: seq<Reply>,
    upvotes: int,
    downvotes: int,
    isPinned: bool)

  /** The forum's categories; the first entry is the wildcard of the category filter. */
  const ForumCategories: seq<string> := [
    "All Categories", "General Discussion", "Course Help", "Study Groups", "Career Advice",
    "Technical Support", "Project Showcase", "Resources & Materials", "Announcements"]

  /** Some tag of the post contains `t` once lower-cased. */
  predicate SomeTagContains(tags: seq<string>, t: string) {
    exists i :: 0 <= i < |tags| && Contains(Lower(tags[i]), t)
  }

  /** Case-insensitive search over title, content, author name and tags. */
  predicate MatchesSearch(p: ForumPost, searchTerm: string) {
    var t := Lower(searchTerm);
    || Contains(Lower(p.title), t)
    || Contains(Lower(p.content), t)
    || Contains(Lower(p.author.name), t)
    || SomeTagContains(p.tags, t)
  }

  predicate MatchesPost(p: ForumPost, searchTerm: string, category: string) {
    MatchesSearch(p, searchTerm) && (category == "All Categories" || p.category == category)
  }

  /** The filter step of `filterPosts`: the matching posts in input order. */
  function MatchingPosts(posts: seq<ForumPost>, searchTerm: string, category: string): (r: seq<ForumPost>)
    ensures forall i :: 0 <= i < |r| ==> r[i] in posts && MatchesPost(r[i], searchTerm, category)
    ensures forall p :: p in posts && MatchesPost(p, searchTerm, category) ==> p in r
    ensures IsSubsequence(r, posts)
  {
    FilterIsSubsequence(posts, p => MatchesPost(p, searchTerm, category));
    Filter(posts, p => MatchesPost(p, searchTerm, category))
  }

  function CreatedKey(p: ForumPost): real { p.createdAt as real }
  function RepliesKey(p: ForumPost): real { |p.replies| as real }
  function UpvotesKey(p: ForumPost): real { p.upvotes as real }

  /** The default sort key: pinned first, then newest. */
  datatype PinnedCreated = PinnedCreated(pinned: bool, createdAt: int)

  function PinnedCreatedKey(p: ForumPost): PinnedCreated { PinnedCreated(p.isPinned, p.createdAt) }

  function PinnedThenNewest(a: PinnedCreated, b: PinnedCreated): bool {
    (a.pinned && !b.pinned) || (a.pinned == b.pinned && a.createdAt > b.createdAt)
  }

  lemma PinnedThenNewestIsStrictTotalOrder()
    ensures StrictTotalOrder(PinnedThenNewest)
  {
  }

  /** The sort step of `filterPosts`, chosen by `sortBy`. */
  function SortPosts(s: seq<ForumPost>, sortBy: string): seq<ForumPost> {
    if sortBy == "newest" then StableSort(s, CreatedKey, Descending)
    else if sortBy == "oldest" then StableSort(s, CreatedKey, Ascending)
    else if sortBy == "most-replies" then StableSort(s, RepliesKey, Descending)
    else if sortBy == "most-upvotes" then StableSort(s, UpvotesKey, Descending)
    else StableSort(s, PinnedCreatedKey, PinnedThenNewest)
  }

  function FilterPosts(posts: seq<ForumPost>, searchTerm: string, category: string, sortBy: string): seq<ForumPost> {
    SortPosts(MatchingPosts(posts, searchTerm, category), sortBy)
  }

  /** The result holds exactly the matching posts, each as often as in the input's matching subset. */
  lemma FilterPostsIsPermutationOfMatches(posts: seq<ForumPost>, searchTerm: string, category: string, sortBy: string)
    ensures var r := FilterPosts(posts, searchTerm, category, sortBy);
      && multiset(r) == multiset(MatchingPosts(posts, searchTerm, category))
      && forall p :: p in r <==> p in posts && MatchesPost(p, searchTerm, category)
  {
    var m := MatchingPosts(posts, searchTerm, category);
    var r := FilterPosts(posts, searchTerm, category, sortBy);
    forall p ensures p in r <==> p in m {
      assert p in r <==> p in multiset(r);
      assert p in m <==> p in multiset(m);
    }
  }

  /** The four named orders: newest first, oldest first, most replies first, most upvotes first. */
  lemma FilterPostsSortedByKey(posts: seq<ForumPost>, searchTerm: string, category: string, sortBy: string)
    ensures var r := FilterPosts(posts, searchTerm, category, sortBy);
      && (sortBy == "newest" ==> forall i, j :: 0 <= i < j < |r| ==> r[i].createdAt >= r[j].createdAt)
      && (sortBy == "oldest" ==> forall i, j :: 0 <= i < j < |r| ==> r[i].createdAt <= r[j].createdAt)
      && (sortBy == "most-replies" ==> forall i, j :: 0 <= i < j < |r| ==> |r[i].replies| >= |r[j].replies|)
      && (sortBy == "most-upvotes" ==> forall i, j :: 0 <= i < j < |r| ==> r[i].upvotes >= r[j].upvotes)
  {
    var m := MatchingPosts(posts, searchTerm, category);
    DescendingIsStrictTotalOrder();
    AscendingIsStrictTotalOrder();
    if sortBy == "newest" {
      StableSortSorted(m, CreatedKey, Descending);
    } else if sortBy == "oldest" {
      StableSortSorted(m, CreatedKey, Ascending);
    } else if sortBy == "most-replies" {
      StableSortSorted(m, RepliesKey, Descending);
    } else if sortBy == "most-upvotes" {
      StableSortSorted(m, UpvotesKey, Descending);
    }
  }

  /** Any other `sortBy`: pinned posts first, each group newest first, ties in input order. */
  lemma FilterPostsDefaultOrder(posts: seq<ForumPost>, searchTerm: string, category: string, sortBy: string)
    requires sortBy != "newest" && sortBy != "oldest" && sortBy != "most-replies" && sortBy != "most-upvotes"
    ensures var r := FilterPosts(posts, searchTerm, category, sortBy);
      && (forall i, j :: 0 <= i < j < |r| && r[j].isPinned ==> r[i].isPinned)
      && (forall i, j :: 0 <= i < j < |r| && r[i].isPinned == r[j].isPinned ==> r[i].createdAt >= r[j].createdAt)
      && (forall k :: KeyClass(r, PinnedCreatedKey, k) == KeyClass(MatchingPosts(posts, searchTerm, category), PinnedCreatedKey, k))
  {
    var m := MatchingPosts(posts, searchTerm, category);
    var r := FilterPosts(posts, searchTerm, category, sortBy);
    PinnedThenNewestIsStrictTotalOrder();
    StableSortSorted(m, PinnedCreatedKey, PinnedThenNewest);
    forall i, j | 0 <= i < j < |r| && r[j].isPinned ensures r[i].isPinned {
      assert !PinnedThenNewest(PinnedCreatedKey(r[j]), PinnedCreatedKey(r[i]));
    }
    forall i, j | 0 <= i < j < |r| && r[i].isPinned == r[j].isPinned ensures r[i].createdAt >= r[j].createdAt {
      assert !PinnedThenNewest(PinnedCreatedKey(r[j]), PinnedCreatedKey(r[i]));
    }
    forall k ensures KeyClass(r, PinnedCreatedKey, k) == KeyClass(m, PinnedCreatedKey, k) {
      StableSortKeyClass(m, PinnedCreatedKey, PinnedThenNewest, k);
    }
  }

  /**
   * `getTimeAgo(date)` with the clock passed in as `now` (both in milliseconds). None stands for
   * the final branch, a locale-formatted date, which is not modelled.
   */
  function TimeAgo(date: int, now: int): Option<string> {
    var d := (now - date) / 1000;
    if d < 60 then Some("just now")
    else if d < 3600 then Some(NatToString(d / 60) + "m ago")
    else if d < 86400 then Some(NatToString(d / 3600) + "h ago")
    else if d < 2592000 then Some(NatToString(d / 86400) + "d ago")
    else None
  }

  /**
   * Each relative label names a count that stays inside its unit: 1..59 minutes, 1..23 hours,
   * 1..29 days; under a minute (or a date in the future) reads "just now".
   */
  lemma TimeAgoLabels(date: int, now: int)
    ensures var d := (now - date) / 1000;
      && (d < 60 <==> TimeAgo(date, now) == Some("just now"))
      && (60 <= d < 3600 ==> exists m :: 1 <= m <= 59 && TimeAgo(date, now) == Some(NatToString(m) + "m ago") && m * 60 <= d)
      && (3600 <= d < 86400 ==> exists h :: 1 <= h <= 23 && TimeAgo(date, now) == Some(NatToString(h) + "h ago") && h * 3600 <= d)
      && (86400 <= d < 2592000 ==> exists n :: 1 <= n <= 29 && TimeAgo(date, now) == Some(NatToString(n) + "d ago") && n * 86400 <= d)
      && (TimeAgo(date, now).None? <==> d >= 2592000)
  {
    var d := (now - date) / 1000;
    if 60 <= d < 3600 {
      assert 1 <= d / 60 <= 59;
    }
    if 3600 <= d < 86400 {
      assert 1 <= d / 3600 <= 23;
    }
    if 86400 <= d < 2592000 {
      assert 1 <= d / 86400 <= 29;
    }
    if d >= 60 {
      var s := TimeAgo(date, now).GetOr("");
      assert s != "just now" by {
        if d < 2592000 {
          assert |s| >= 5 && s[|s| - 4..] == " ago";
          assert "just now"[4..] != " ago";
        }
      }
    }
  }

  /** `formatFileSize(0)`; other sizes use floating point and are not modelled (None). */
  function FormatFileSize(bytes: nat): (r: Option<string>)
    ensures bytes == 0 ==> r == Some("0 Bytes")
  {
    if bytes == 0 then Some("0 Bytes") else None
  }
}
