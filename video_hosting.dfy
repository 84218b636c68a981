/**
 * The video hosting service (learnhub/lib/video-hosting.ts): uploading stores the video's
 * metadata in a map under a generated id; lookups read that map.
 *
 * The clock and the random suffix of the id are parameters; the file itself is only its name.
 */
module VideoHosting {
  import opened Wrappers
  import opened Strings
  import Sorting

  datatype Quality = Q720p | Q1080p | Q480p | Q360p
  datatype Format = Mp4 | Webm | Hls

  datatype VideoSource = VideoSource(url: string, quality: Quality, format: Format)
  datatype Subtitle = Subtitle(language: string, url: string)
  datatype Chapter = Chapter(title: string, time: int)

  datatype VideoMetadata = VideoMetadata(
    id: string,
    title: string,
    description: string,
    duration: int,
    thumbnail: string,
    sources: seq<VideoSource>,
    subtitles: Option<seq<Subtitle>>,
    chapters: Option<seq<Chapter>>)

  /** A `Partial<VideoMetadata>`: `Some` for each key the caller supplied. */
  datatype PartialMetadata = PartialMetadata(
    id: Option<string>,
    title: Option<string>,
    description: Option<string>,
    duration: Option<int>,
    thumbnail: Option<string>,
    sources: Option<seq<VideoSource>>,
    subtitles: Option<seq<Subtitle>>,
    chapters: Option<seq<Chapter>>)

  const NoMetadata := PartialMetadata(None, None, None, None, None, None, None, None)

  /** `video_<now>_<random>`, the random part being nine base-36 characters. */
  function VideoId(now: nat, random: string): string {
    "video_" + NatToString(now) + "_" + random
  }

  /** `a || b` on strings: the empty string is falsy. */
  function OrElse(a: Option<string>, b: string): string {
    if a.Some? && a.value != "" then a.value else b
  }

  /** The literal object before the spread: fallbacks, a zero duration, a thumbnail path and two 1080p sources. */
  function Defaults(videoId: string, fileName: string, metadata: PartialMetadata): VideoMetadata {
    VideoMetadata(
      videoId,
      OrElse(metadata.title, fileName),
      OrElse(metadata.description, ""),
      0,
      "/thumbnails/" + videoId + ".jpg",
      [VideoSource("/videos/" + videoId + ".mp4", Q1080p, Mp4),
       VideoSource("/videos/" + videoId + ".webm", Q1080p, Webm)],
      None,
      None)
  }

  /** `{ ...base, ...metadata }`: every supplied key replaces the base value. */
  function Spread(base: VideoMetadata, metadata: PartialMetadata): VideoMetadata {
    VideoMetadata(
      metadata.id.GetOr(base.id),
      metadata.title.GetOr(base.title),
      metadata.description.GetOr(base.description),
      metadata.duration.GetOr(base.duration),
      metadata.thumbnail.GetOr(base.thumbnail),
      metadata.sources.GetOr(base.sources),
      if metadata.subtitles.Some? then metadata.subtitles else base.subtitles,
      if metadata.chapters.Some? then metadata.chapters else base.chapters)
  }

  /** The stored record as the upload code builds it: the spread comes after the fallbacks. */
  function AsWrittenMetadata(videoId: string, fileName: string, metadata: PartialMetadata): VideoMetadata {
    Spread(Defaults(videoId, fileName, metadata), metadata)
  }

  /** The stored record with the title fallback taking effect: an empty title is replaced by the file name. */
  function UploadedMetadata(videoId: string, fileName: string, metadata: PartialMetadata): VideoMetadata {
    AsWrittenMetadata(videoId, fileName, metadata).(title := OrElse(metadata.title, fileName))
  }

  /** Without metadata the stored record is made of the defaults alone. */
  lemma DefaultsWithoutMetadata(videoId: string, fileName: string)
    ensures var v := AsWrittenMetadata(videoId, fileName, NoMetadata);
      && v.id == videoId && v.title == fileName && v.description == "" && v.duration == 0
      && v.thumbnail == "/thumbnails/" + videoId + ".jpg"
      && |v.sources| == 2
      && v.sources[0] == VideoSource("/videos/" + videoId + ".mp4", Q1080p, Mp4)
      && v.sources[1] == VideoSource("/videos/" + videoId + ".webm", Q1080p, Webm)
      && v.subtitles.None? && v.chapters.None?
      && v == UploadedMetadata(videoId, fileName, NoMetadata)
  {
  }

  /**
   * The spread comes last: every supplied key of the stored record, the id and an empty title
   * included, is the caller's value, and every absent key keeps its default.
   */
  lemma SuppliedFieldsOverride(videoId: string, fileName: string, metadata: PartialMetadata)
    ensures var v := AsWrittenMetadata(videoId, fileName, metadata);
      && v.id == metadata.id.GetOr(videoId)
      && v.title == metadata.title.GetOr(fileName)
      && v.description == metadata.description.GetOr("")
      && v.duration == metadata.duration.GetOr(0)
      && v.thumbnail == metadata.thumbnail.GetOr("/thumbnails/" + videoId + ".jpg")
      && v.sources == metadata.sources.GetOr(Defaults(videoId, fileName, NoMetadata).sources)
      && v.subtitles == metadata.subtitles
      && v.chapters == metadata.chapters
  {
  }

  /** The title fallback: a missing or empty title becomes the file name, so a named file never gets an empty title. */
  lemma TitleFallsBackToFileName(videoId: string, fileName: string, metadata: PartialMetadata)
    ensures var v := UploadedMetadata(videoId, fileName, metadata);
      (metadata.title.None? || metadata.title.value == "" ==> v.title == fileName)
      && (fileName != "" ==> v.title != "")
  {
  }

  /** As written, a supplied empty title survives the spread and the file-name fallback never applies. */
  lemma AsWrittenKeepsEmptyTitle(videoId: string, fileName: string)
    requires fileName != ""
    ensures var md := NoMetadata.(title := Some(""));
      AsWrittenMetadata(videoId, fileName, md).title == "" != UploadedMetadata(videoId, fileName, md).title
  {
  }

  /** The service's store of uploaded videos. */
  class VideoHostingService {
    var videos: map<string, VideoMetadata>

    constructor()
      ensures videos == map[]
    {
      videos := map[];
    }

    /** `uploadVideo`: the record is stored under the generated id, whatever id the metadata carries. */
    method UploadVideo(fileName: string, metadata: PartialMetadata, now: nat, random: string) returns (v: VideoMetadata)
      modifies this
      ensures v == AsWrittenMetadata(VideoId(now, random), fileName, metadata)
      ensures videos == old(videos)[VideoId(now, random) := v]
    {
      var videoId := VideoId(now, random);
      v := AsWrittenMetadata(videoId, fileName, metadata);
      videos := videos[videoId := v];
    }

    /** `getVideo`: the stored record, or null for an id never uploaded. */
    function GetVideo(videoId: string): (r: Option<VideoMetadata>)
      reads this
      ensures r.Some? <==> videoId in videos
      ensures r.Some? ==> r.value == videos[videoId]
    {
      if videoId in videos then Some(videos[videoId]) else None
    }

    /** `getVideosByIds`: the stored records in the order asked for, unknown ids dropped. */
    function GetVideosByIds(videoIds: seq<string>): (r: seq<VideoMetadata>)
      reads this
      ensures var known := KnownIds(videoIds, videos);
        |r| == |known| && forall i :: 0 <= i < |r| ==> known[i] in videos && r[i] == videos[known[i]]
      ensures (forall j :: 0 <= j < |videoIds| ==> videoIds[j] in videos) ==>
        |r| == |videoIds| && forall i :: 0 <= i < |r| ==> r[i] == videos[videoIds[i]]
    {
      if forall j :: 0 <= j < |videoIds| ==> videoIds[j] in videos then
        KnownIdsAll(videoIds, videos);
        Lookups(videoIds, videos)
      else
        Lookups(videoIds, videos)
    }
  }

  /** `map(id => videos.get(id)).filter(Boolean)` over a store: one record per known id, in order. */
  function Lookups(videoIds: seq<string>, store: map<string, VideoMetadata>): (r: seq<VideoMetadata>)
    ensures var known := KnownIds(videoIds, store);
      |r| == |known| && forall i :: 0 <= i < |r| ==> known[i] in store && r[i] == store[known[i]]
  {
    if videoIds == [] then []
    else
      var rest := Lookups(videoIds[1..], store);
      KnownIdsCons(videoIds, store);
      if videoIds[0] in store then
        PrependLookup(videoIds[0], KnownIds(videoIds[1..], store), rest, store);
        assert KnownIds(videoIds, store) == [videoIds[0]] + KnownIds(videoIds[1..], store);
        [store[videoIds[0]]] + rest
      else
        assert KnownIds(videoIds, store) == KnownIds(videoIds[1..], store);
        rest
  }

  /** The requested ids that the store knows, in request order: `filter(Boolean)` after the lookup. */
  function KnownIds(videoIds: seq<string>, store: map<string, VideoMetadata>): seq<string> {
    Sorting.Filter(videoIds, id => id in store)
  }

  /** Looking up a known id in front of a run of lookups extends both runs by one. */
  lemma PrependLookup(id: string, ids: seq<string>, rest: seq<VideoMetadata>, store: map<string, VideoMetadata>)
    requires id in store
    requires |rest| == |ids| && forall i :: 0 <= i < |rest| ==> ids[i] in store && rest[i] == store[ids[i]]
    ensures var r, known := [store[id]] + rest, [id] + ids;
      |r| == |known| && forall i :: 0 <= i < |r| ==> known[i] in store && r[i] == store[known[i]]
  {
  }

  /** When every requested id is known, none is dropped. */
  lemma {:induction false} KnownIdsAll(videoIds: seq<string>, store: map<string, VideoMetadata>)
    requires forall j :: 0 <= j < |videoIds| ==> videoIds[j] in store
    ensures KnownIds(videoIds, store) == videoIds
  {
    if videoIds != [] {
      KnownIdsCons(videoIds, store);
      KnownIdsAll(videoIds[1..], store);
      assert [videoIds[0]] + videoIds[1..] == videoIds;
    }
  }

  lemma KnownIdsCons(videoIds: seq<string>, store: map<string, VideoMetadata>)
    requires videoIds != []
    ensures KnownIds(videoIds, store) == (if videoIds[0] in store then [videoIds[0]] else []) + KnownIds(videoIds[1..], store)
  {
  }

  /** After an upload the new id finds the new record, and every other id finds what it found before. */
  lemma UploadThenGet(s: VideoHostingService, before: map<string, VideoMetadata>, videoId: string, v: VideoMetadata, other: string)
    requires s.videos == before[videoId := v] && other != videoId
    ensures s.GetVideo(videoId) == Some(v)
    ensures s.GetVideosByIds([videoId]) == [v]
    ensures s.GetVideo(other) == (if other in before then Some(before[other]) else None)
  {
  }
}
