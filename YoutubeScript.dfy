/**
 * The stand-alone scraper's `grab_videos`
 * (Selenium_Scrappers/YoutubeScrapper/youtube_videos.py). Unlike the
 * backend version it has no guard: a page without a `contents` region, or
 * a `video-title` element without a `title`, makes it fail, and a missing
 * href is formatted into the link as the text "None".
 */
module YoutubeScript {
  import opened Wrappers
  import opened Text
  import opened YoutubeScrapper
  import Paging

  datatype GrabError = NoContentsRegion | MissingTitle

  /** The list comprehension: fails at a tag without a title, else keeps the gameplay titles. */
  function ScriptGameplay(tags: seq<VideoTag>): (r: Result<seq<Video>, GrabError>)
    ensures r.Failure? ==> r.error == MissingTitle
    ensures r.Success? ==> |r.value| <= |tags|
  {
    if tags == [] then Success([])
    else if tags[0].title.None? then Failure(MissingTitle)
    else
      match ScriptGameplay(tags[1..])
      case Failure(e) => Failure(e)
      case Success(rest) =>
        if IsGameplay(tags[0].title.value)
        then Success([Video(tags[0].title.value, YouTubeBase + Rendered(tags[0].href))] + rest)
        else Success(rest)
  }

  /**
   * `grab_videos`: the comprehension, then the first five when more
   * qualify. It fails without a `contents` region, or when the
   * comprehension fails on a tag without a title.
   */
  function GrabVideos(page: SearchPage): (r: Result<seq<Video>, GrabError>)
    ensures page.NoContents? ==> r == Failure(NoContentsRegion)
    ensures page.Contents? ==> (r == Failure(MissingTitle) <==> ScriptGameplay(page.tags).Failure?)
    ensures page.Contents? && ScriptGameplay(page.tags).Success? ==> r.Success?
    ensures page.Contents? && r.Success? ==>
      var all := ScriptGameplay(page.tags).value;
      |r.value| == Paging.Min(|all|, MaxVideos) && r.value == all[..|r.value|]
    ensures r.Success? ==> |r.value| <= MaxVideos
  {
    match page
    case NoContents => Failure(NoContentsRegion)
    case Contents(tags) =>
      match ScriptGameplay(tags)
      case Failure(e) => Failure(e)
      case Success(videos) => if |videos| > MaxVideos then Success(videos[..MaxVideos]) else Success(videos)
  }

  /** The comprehension fails exactly when some tag has no title. */
  lemma {:induction false} ScriptFailsIffTitleMissing(tags: seq<VideoTag>)
    ensures ScriptGameplay(tags).Failure? <==> exists i :: 0 <= i < |tags| && tags[i].title.None?
  {
    if tags != [] && tags[0].title.Some? {
      ScriptFailsIffTitleMissing(tags[1..]);
      if i :| 0 <= i < |tags| && tags[i].title.None? {
        assert tags[1..][i - 1] == tags[i];
      }
      if i :| 0 <= i < |tags| - 1 && tags[1..][i].title.None? {
        assert tags[i + 1] == tags[1..][i];
      }
    }
  }

  /** `v` is the video the comprehension builds from `t`. */
  predicate KeptFrom(t: VideoTag, v: Video) {
    t.title.Some? && IsGameplay(t.title.value) && v == Video(t.title.value, YouTubeBase + Rendered(t.href))
  }

  /**
   * Every video the comprehension keeps comes from a tag whose title
   * contains "gameplay" in any case, with that title and the rendered href.
   */
  lemma {:induction false} ScriptVideosAreGameplay(tags: seq<VideoTag>, k: nat)
    requires ScriptGameplay(tags).Success? && k < |ScriptGameplay(tags).value|
    ensures exists i :: 0 <= i < |tags| && KeptFrom(tags[i], ScriptGameplay(tags).value[k])
  {
    var rest := ScriptGameplay(tags[1..]).value;
    if IsGameplay(tags[0].title.value) && k == 0 {
      assert KeptFrom(tags[0], ScriptGameplay(tags).value[0]);
    } else {
      var k' := if IsGameplay(tags[0].title.value) then k - 1 else k;
      assert ScriptGameplay(tags).value[k] == rest[k'];
      ScriptVideosAreGameplay(tags[1..], k');
      var i :| 0 <= i < |tags| - 1 && KeptFrom(tags[1..][i], rest[k']);
      assert tags[1..][i] == tags[i + 1];
    }
  }

  /**
   * Conversely, when the comprehension succeeds it keeps every tag whose
   * title contains "gameplay", with the href as the f-string renders it.
   */
  lemma {:induction false} ScriptKeepsGameplayTags(tags: seq<VideoTag>, i: int)
    requires ScriptGameplay(tags).Success? && 0 <= i < |tags|
    requires tags[i].title.Some? && IsGameplay(tags[i].title.value)
    ensures Video(tags[i].title.value, YouTubeBase + Rendered(tags[i].href)) in ScriptGameplay(tags).value
  {
    if i > 0 {
      assert tags[1..][i - 1] == tags[i];
      ScriptKeepsGameplayTags(tags[1..], i - 1);
    }
  }

  /**
   * The comprehension over two runs of tags succeeds exactly when it
   * succeeds on both, and then keeps the videos of the first run before
   * those of the second: page order is preserved.
   */
  lemma {:induction false} ScriptGameplayAppend(a: seq<VideoTag>, b: seq<VideoTag>)
    ensures ScriptGameplay(a + b).Success? <==> ScriptGameplay(a).Success? && ScriptGameplay(b).Success?
    ensures ScriptGameplay(a + b).Success? ==>
      ScriptGameplay(a + b).value == ScriptGameplay(a).value + ScriptGameplay(b).value
  {
    if a == [] {
      assert a + b == b;
    } else {
      assert (a + b)[0] == a[0];
      assert (a + b)[1..] == a[1..] + b;
      ScriptGameplayAppend(a[1..], b);
      if ScriptGameplay(a + b).Success? {
        var t := a[0];
        if IsGameplay(t.title.value) {
          var v := Video(t.title.value, YouTubeBase + Rendered(t.href));
          assert ScriptGameplay(a + b).value == [v] + ScriptGameplay(a[1..] + b).value;
          assert ScriptGameplay(a).value == [v] + ScriptGameplay(a[1..]).value;
        }
      }
    }
  }

  /**
   * On pages whose every tag has a non-empty title and href, the script and
   * the backend pick the same videos.
   */
  lemma {:induction false} ScriptAgreesWithBackend(tags: seq<VideoTag>)
    requires forall i :: 0 <= i < |tags| ==>
      tags[i].title.Some? && tags[i].title.value != "" && tags[i].href.Some? && tags[i].href.value != ""
    ensures ScriptGameplay(tags) == Success(Gameplay(tags))
    ensures GrabVideos(Contents(tags)) == Success(GrabbedVideos(Contents(tags)))
  {
    if tags != [] {
      assert forall i :: 0 <= i < |tags| - 1 ==> tags[1..][i] == tags[i + 1];
      ScriptAgreesWithBackend(tags[1..]);
      var t, rest := tags[0], Gameplay(tags[1..]);
      assert Qualifies(t) <==> IsGameplay(t.title.value);
      if IsGameplay(t.title.value) {
        assert ScriptGameplay(tags) == Success([Video(t.title.value, YouTubeBase + Rendered(t.href))] + rest);
        assert Gameplay(tags) == [Video(t.title.value, YouTubeBase + t.href.value)] + rest;
      } else {
        assert ScriptGameplay(tags) == Success(rest);
        assert Gameplay(tags) == [] + rest;
        assert [] + rest == rest;
        assert Gameplay(tags) == rest;
      }
    }
  }

  /**
   * Where they differ: a gameplay tag without an href is dropped by the
   * backend but kept by the script, with "None" as its href.
   */
  lemma MissingHrefKeptAsNone()
    ensures GrabVideos(Contents([VideoTag(Some("gameplay"), None)]))
      == Success([Video("gameplay", "https://www.youtube.com/None")])
    ensures GrabbedVideos(Contents([VideoTag(Some("gameplay"), None)])) == []
  {
    var t := VideoTag(Some("gameplay"), None);
    LowerFixesLowerCase("gameplay");
    assert "gameplay"[..|"gameplay"|] == "gameplay";
    assert IsGameplay("gameplay");
    assert [t][1..] == [];
    assert ScriptGameplay([t][1..]) == Success([]);
    assert t.title.value == "gameplay" && !t.title.None?;
    assert IsGameplay(t.title.value);
    assert Rendered(t.href) == "None";
    var v := Video("gameplay", YouTubeBase + "None");
    assert [v] + [] == [v];
    assert YouTubeBase + "None" == "https://www.youtube.com/None";
    assert GrabVideos(Contents([t])) == Success([v]);
    assert ScriptGameplay([t]) == Success([Video("gameplay", YouTubeBase + "None")]);
  }
}
