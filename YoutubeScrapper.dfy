/**
 * The video side of the backend (backend/youtube_scrapper.py): picking
 * gameplay videos off a search results page, downloading them, and pairing
 * them with the references the staging step returns.
 *
 * The page is modelled as what the HTML parser finds in it: whether it has
 * a `contents` region, and the `title` and `href` attributes of each element
 * with id `video-title`, in document order. The downloader is an oracle
 * from a video link to the local file it writes, or to a failure.
 */
module YoutubeScrapper {
  import opened Wrappers
  import opened Text
  import Staging

  const YouTubeBase := "https://www.youtube.com/"
  const Keyword := "gameplay"
  const MaxVideos := 5

  /** An element with id `video-title`: its `title` and `href` attributes, when present. */
  datatype VideoTag = VideoTag(title: Option<string>, href: Option<string>)

  /** A search results page, without or with a `contents` region. */
  datatype SearchPage = NoContents | Contents(tags: seq<VideoTag>)

  datatype Video = Video(title: string, link: string)

  predicate IsGameplay(title: string) {
    Contains(Keyword, Lower(title))
  }

  /** The keyword test does not depend on letter case. */
  lemma GameplayTestIgnoresCase(t1: string, t2: string)
    requires SameUpToCase(t1, t2)
    ensures IsGameplay(t1) <==> IsGameplay(t2)
  {
    LowerIgnoresCase(t1, t2);
  }

  /** So a title spelled "GamePlay" passes the test. */
  lemma MixedCaseTitleIsGameplay()
    ensures IsGameplay("GamePlay")
  {
    var t := "GamePlay";
    forall i | 0 <= i < |t|
      ensures SameLetterUpToCase(t[i], Keyword[i])
    {
      if i == 0 || i == 4 {
        assert IsUpper(t[i]) && Keyword[i] == (t[i] as int + 32) as char;
      } else {
        assert t[i] == Keyword[i];
      }
    }
    LowerIgnoresCase(t, Keyword);
    LowerFixesLowerCase(Keyword);
    assert Keyword[..|Keyword|] == Keyword;
  }

  /** `title and href and "gameplay" in title.lower()`: an empty attribute is falsy. */
  predicate Qualifies(t: VideoTag) {
    && t.title.Some? && t.title.value != ""
    && t.href.Some? && t.href.value != ""
    && IsGameplay(t.title.value)
  }

  /** The videos of `tags` that qualify, in page order, before the cap. */
  function Gameplay(tags: seq<VideoTag>): seq<Video> {
    if tags == [] then []
    else (if Qualifies(tags[0]) then [Video(tags[0].title.value, YouTubeBase + tags[0].href.value)] else [])
         + Gameplay(tags[1..])
  }

  /** Python's `s[:n]`. */
  function Take<T>(s: seq<T>, n: nat): seq<T> {
    if |s| <= n then s else s[..n]
  }

  /** Filtering two runs of tags one after the other keeps both results, in page order. */
  lemma {:induction false} GameplayAppend(a: seq<VideoTag>, b: seq<VideoTag>)
    ensures Gameplay(a + b) == Gameplay(a) + Gameplay(b)
  {
    if a == [] {
      assert a + b == b;
    } else {
      assert (a + b)[1..] == a[1..] + b;
      GameplayAppend(a[1..], b);
    }
  }

  /** `v` is the video the tag `t` contributes: its title unchanged, its href behind the base URL. */
  predicate Yields(t: VideoTag, v: Video) {
    Qualifies(t) && v.title == t.title.value && v.link == YouTubeBase + t.href.value
  }

  /**
   * A video is a candidate exactly when some tag has a non-empty title
   * containing "gameplay" (any case) and a non-empty href, and the video
   * carries that title unchanged and the href behind the YouTube base URL.
   */
  lemma {:induction false} GameplayMembers(tags: seq<VideoTag>, v: Video)
    ensures v in Gameplay(tags) <==> exists i :: 0 <= i < |tags| && Yields(tags[i], v)
  {
    if tags != [] {
      GameplayMembers(tags[1..], v);
      if i :| 0 <= i < |tags| - 1 && Yields(tags[1..][i], v) {
        assert tags[1..][i] == tags[i + 1];
      }
      if i :| 0 <= i < |tags| && Yields(tags[i], v) {
        if i > 0 {
          assert tags[1..][i - 1] == tags[i];
        }
      }
    }
  }

  /** At most one candidate per tag; exactly one per tag when every tag qualifies. */
  lemma {:induction false} GameplayLength(tags: seq<VideoTag>)
    ensures |Gameplay(tags)| <= |tags|
    ensures (forall i :: 0 <= i < |tags| ==> Qualifies(tags[i])) ==> |Gameplay(tags)| == |tags|
  {
    if tags != [] {
      GameplayLength(tags[1..]);
      assert forall i :: 0 <= i < |tags| - 1 ==> tags[1..][i] == tags[i + 1];
    }
  }

  /** Without a `contents` region the result is empty; otherwise the first five candidates. */
  function GrabbedVideos(page: SearchPage): seq<Video> {
    match page
    case NoContents => []
    case Contents(tags) => Take(Gameplay(tags), MaxVideos)
  }

  /**
   * `grab_videos`: collects the qualifying videos in page order, then keeps
   * the first five.
   */
  method GrabVideos(page: SearchPage) returns (videos: seq<Video>)
    ensures page.NoContents? ==> videos == []
    ensures page.Contents? ==> videos == Take(Gameplay(page.tags), MaxVideos)
    ensures |videos| <= MaxVideos
  {
    if page.NoContents? {
      return [];
    }
    var tags := page.tags;
    var found: seq<Video> := [];
    var i := 0;
    while i < |tags|
      invariant 0 <= i <= |tags|
      invariant found == Gameplay(tags[..i])
    {
      var t := tags[i];
      assert tags[..i + 1] == tags[..i] + [t];
      GameplayAppend(tags[..i], [t]);
      if t.title.Some? && t.href.Some? && t.title.value != "" && t.href.value != "" && IsGameplay(t.title.value) {
        found := found + [Video(t.title.value, YouTubeBase + t.href.value)];
      }
      i := i + 1;
    }
    assert tags[..i] == tags;
    videos := if |found| <= MaxVideos then found else found[..MaxVideos];
  }

  /** One download attempt: the title logged and the file yt-dlp wrote (from `fetch`), or the failed link. */
  datatype DownloadEvent = Downloaded(title: string, file: string) | DownloadFailed(link: string)

  function Attempt(v: Video, fetch: string -> Option<string>): DownloadEvent {
    match fetch(v.link)
    case Some(file) => Downloaded(v.title, file)
    case None => DownloadFailed(v.link)
  }

  /**
   * `download_videos`: one attempt per video, in list order; a failure is
   * logged and the remaining videos are still attempted.
   */
  method DownloadVideos(videos: seq<Video>, fetch: string -> Option<string>) returns (log: seq<DownloadEvent>)
    ensures |log| == |videos|
    ensures forall i :: 0 <= i < |videos| ==> log[i] == Attempt(videos[i], fetch)
  {
    log := [];
    for i := 0 to |videos|
      invariant |log| == i
      invariant forall k :: 0 <= k < i ==> log[k] == Attempt(videos[k], fetch)
    {
      var v := videos[i];
      match fetch(v.link)
      case Some(file) =>
        log := log + [Downloaded(v.title, file)];
      case None =>
        log := log + [DownloadFailed(v.link)];
    }
  }

  /** A video with the storage reference paired to it, if any. */
  datatype StagedVideo = StagedVideo(title: string, link: string, gcsPath: Option<string>)

  /**
   * The positional pairing of `scrape_videos`: one item per video, item `i`
   * carrying video `i`'s title and link and the `i`-th upload reference, or
   * no reference past the end of `uploads`.
   */
  ghost predicate PairedByPosition(videos: seq<Video>, uploads: seq<string>, items: seq<StagedVideo>) {
    && |items| == |videos|
    && forall i :: 0 <= i < |items| ==>
         && items[i].title == videos[i].title
         && items[i].link == videos[i].link
         && items[i].gcsPath == (if i < |uploads| then Some(uploads[i]) else None)
  }

  /** The pairing loop of `scrape_videos`; it never fails and never drops a video. */
  method PairUploads(videos: seq<Video>, uploads: seq<string>) returns (items: seq<StagedVideo>)
    ensures PairedByPosition(videos, uploads, items)
  {
    items := [];
    for i := 0 to |videos|
      invariant PairedByPosition(videos[..i], uploads, items)
    {
      var path := if i < |uploads| then Some(uploads[i]) else None;
      items := items + [StagedVideo(videos[i].title, videos[i].link, path)];
    }
    assert videos[..|videos|] == videos;
  }

  /**
   * The pairing is right only under assumptions nothing in the code
   * enforces: every download succeeded, the directory listing gives the
   * files in download order, and every upload succeeded. Then each video is
   * paired with the reference of its own file.
   */
  lemma PairingMatchesOwnUpload(videos: seq<Video>, fetch: string -> Option<string>, files: seq<string>,
                                bucket: string, accepts: string -> bool, items: seq<StagedVideo>)
    requires |files| == |videos|
    requires forall i :: 0 <= i < |videos| ==> fetch(videos[i].link) == Some(files[i])
    requires forall i :: 0 <= i < |files| ==> accepts(files[i])
    requires PairedByPosition(videos, Staging.StagedPaths(bucket, files, accepts), items)
    ensures forall i :: 0 <= i < |items| ==>
      items[i].gcsPath == Some(Staging.GcsPath(bucket, Staging.VideosDir, files[i]))
  {
    Staging.AllAcceptedPaths(bucket, files, accepts);
  }

  /**
   * When an upload in the middle fails, the later references shift down one
   * place: with three downloaded files and the second upload failing, the
   * second video is paired with the third video's file and the third video
   * with nothing.
   */
  lemma MiddleUploadFailureMisaligns(videos: seq<Video>, items: seq<StagedVideo>)
    requires |videos| == 3
    requires PairedByPosition(videos,
      Staging.StagedPaths(Staging.DefaultBucket, ["a.mp4", "b.mp4", "c.mp4"], f => f != "b.mp4"), items)
    ensures items[1].gcsPath == Some(Staging.GcsPath(Staging.DefaultBucket, Staging.VideosDir, "c.mp4"))
    ensures items[2].gcsPath == None
  {
    var files := ["a.mp4", "b.mp4", "c.mp4"];
    var accepts: string -> bool := f => f != "b.mp4";
    assert files[1..] == ["b.mp4", "c.mp4"];
    assert files[1..][1..] == ["c.mp4"];
    assert ["c.mp4"][1..] == [];
    assert "b.mp4" != "c.mp4";
    assert "a.mp4" != "b.mp4";
  }
}
