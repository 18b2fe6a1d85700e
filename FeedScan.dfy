/**
 * The browser-driven Reddit feed scanner `gather_posts`, which appears
 * twice with the same algorithm (Selenium_Scrappers/RedditScrapper/reddit_posts.py
 * and Selenium_Scrappers/post_grabber.py).
 *
 * The browser is an oracle. Scrolling to the bottom and waiting until the
 * post whose `feedindex` attribute equals the anchor is visible gives
 * `waitFor(step, anchor)`: a timeout, or what the HTML parser then finds (the
 * text posts of the `shreddit-feed` element, if there is one) together
 * with the scroll height measured afterwards. Opening a post's link gives
 * `detail(link)`: what the parser finds in the post's text body.
 */
module FeedScan {
  import opened Wrappers
  import opened Text
  import Paging

  /** The attributes of one `post-type="text"` element: `post-title`, `content-href`, `feedindex`. */
  datatype PostAttrs = PostAttrs(title: Option<string>, contentHref: Option<string>, feedIndex: Option<string>)

  /** An entry of `post_list`; a missing title becomes the text "None". */
  datatype FeedPost = FeedPost(title: string, postLink: Option<string>, feedIndex: Option<string>)

  function Collect(a: PostAttrs): FeedPost {
    FeedPost(a.title.GetOr("None"), a.contentHref, a.feedIndex)
  }

  /** The entries built from a batch of text posts, in page order. */
  function CollectAll(batch: seq<PostAttrs>): (r: seq<FeedPost>)
    ensures |r| == |batch|
    ensures forall i :: 0 <= i < |batch| ==> r[i] == Collect(batch[i])
  {
    if batch == [] then [] else [Collect(batch[0])] + CollectAll(batch[1..])
  }

  /** One scroll-and-wait: a timeout, or the parsed feed (absent without `shreddit-feed`) and the new height. */
  datatype WaitResult = Timeout | Loaded(feed: Option<seq<PostAttrs>>, height: int)

  /**
   * How a batch is cut once it would reach `amount`: `AsWritten` is the
   * slice `posts[:len(post_list) + len(posts) - amount + 2]` of the source,
   * `Intended` keeps only the `amount - len(post_list)` posts still wanted.
   */
  datatype Truncation = AsWritten | Intended

  datatype StopReason = CountReached | HeightUnchanged

  datatype ScanError = WaitTimedOut | NoFeedElement | NoPostToAnchor | FeedRanOut

  datatype ScanOutcome = Scanned(posts: seq<FeedPost>, reason: StopReason) | ScanFailed(error: ScanError)

  /**
   * How many of the `m` visible posts are appended when `n` are already
   * collected. Only called under the loop guard `n < amount`.
   */
  function BatchLength(mode: Truncation, n: nat, m: nat, amount: int): (k: nat)
    requires n < amount
    ensures k <= m
  {
    if n + m < amount then m
    else if mode == Intended then amount - n
    else if m <= n + m - amount + 2 then m
    else n + m - amount + 2
  }

  /**
   * The first wait looks for the post with feed index 0; each later one for
   * the last collected post's feed index, as the f-string renders it.
   */
  const FirstAnchor := "0"

  /**
   * The scan loop from the state (`step`, `anchor`, `lastHeight`, `collected`);
   * `fuel` bounds the number of rounds the model follows.
   */
  function Scan(mode: Truncation, amount: int, waitFor: (nat, string) -> WaitResult,
                step: nat, fuel: nat, anchor: string, lastHeight: int, collected: seq<FeedPost>): ScanOutcome
    decreases fuel
  {
    if |collected| >= amount then Scanned(collected, CountReached)
    else if fuel == 0 then ScanFailed(FeedRanOut)
    else
      var seen := waitFor(step, anchor);
      if seen.Timeout? then ScanFailed(WaitTimedOut)
      else if seen.feed.None? then ScanFailed(NoFeedElement)
      else
        var visible := seen.feed.value;
        var next := collected + CollectAll(visible[..BatchLength(mode, |collected|, |visible|, amount)]);
        if next == [] then ScanFailed(NoPostToAnchor)
        else if seen.height == lastHeight then Scanned(next, HeightUnchanged)
        else Scan(mode, amount, waitFor, step + 1, fuel - 1, Rendered(next[|next| - 1].feedIndex), seen.height, next)
  }

  /** The loop of `gather_posts` from its initial state. */
  function ScanFrom(mode: Truncation, amount: int, waitFor: (nat, string) -> WaitResult, maxSteps: nat, initialHeight: int): ScanOutcome {
    Scan(mode, amount, waitFor, 0, maxSteps, FirstAnchor, initialHeight, [])
  }

  /** `for post in posts: post_list.append(...)`: appends one entry per post, in order. */
  method AppendBatch(collected: seq<FeedPost>, batch: seq<PostAttrs>) returns (r: seq<FeedPost>)
    ensures r == collected + CollectAll(batch)
  {
    r := collected;
    for i := 0 to |batch|
      invariant r == collected + CollectAll(batch[..i])
    {
      assert batch[..i + 1] == batch[..i] + [batch[i]];
      CollectAllAppend(batch[..i], [batch[i]]);
      r := r + [Collect(batch[i])];
    }
    assert batch[..|batch|] == batch;
  }

  lemma {:induction false} CollectAllAppend(a: seq<PostAttrs>, b: seq<PostAttrs>)
    ensures CollectAll(a + b) == CollectAll(a) + CollectAll(b)
  {
    var l, r := CollectAll(a + b), CollectAll(a) + CollectAll(b);
    assert |l| == |r|;
    forall i | 0 <= i < |l|
      ensures l[i] == r[i]
    {
      if i < |a| {
        assert (a + b)[i] == a[i];
      } else {
        assert (a + b)[i] == b[i - |a|];
      }
    }
  }

  /**
   * The scan loop of `gather_posts`: scroll, wait for the anchor post,
   * append the visible text posts (cut as `mode` says), re-anchor on the
   * last collected post, and stop once enough are collected or the page
   * height stopped changing.
   */
  method ScanFeed(mode: Truncation, amount: int, waitFor: (nat, string) -> WaitResult, maxSteps: nat, initialHeight: int)
    returns (out: ScanOutcome)
    ensures out == ScanFrom(mode, amount, waitFor, maxSteps, initialHeight)
  {
    var collected: seq<FeedPost> := [];
    var anchor := FirstAnchor;
    var lastHeight := initialHeight;
    var step: nat := 0;
    while |collected| < amount
      invariant step <= maxSteps
      invariant ScanFrom(mode, amount, waitFor, maxSteps, initialHeight)
             == Scan(mode, amount, waitFor, step, maxSteps - step, anchor, lastHeight, collected)
      decreases maxSteps - step
    {
      if step == maxSteps {
        return ScanFailed(FeedRanOut);
      }
      var seen := waitFor(step, anchor);
      if seen.Timeout? {
        return ScanFailed(WaitTimedOut);
      }
      if seen.feed.None? {
        return ScanFailed(NoFeedElement);
      }
      var visible := seen.feed.value;
      if |collected| + |visible| >= amount {
        visible := visible[..BatchLength(mode, |collected|, |visible|, amount)];
      }
      assert visible == seen.feed.value[..BatchLength(mode, |collected|, |seen.feed.value|, amount)];
      collected := AppendBatch(collected, visible);
      if collected == [] {
        return ScanFailed(NoPostToAnchor);
      }
      anchor := Rendered(collected[|collected| - 1].feedIndex);
      if seen.height == lastHeight {
        return Scanned(collected, HeightUnchanged);
      }
      lastHeight := seen.height;
      step := step + 1;
    }
    return Scanned(collected, CountReached);
  }

  /** With a non-positive amount the loop body never runs: nothing is read and nothing collected. */
  lemma NothingReadForNonPositiveAmount(mode: Truncation, amount: int, waitFor: (nat, string) -> WaitResult,
                                        maxSteps: nat, initialHeight: int)
    requires amount <= 0
    ensures ScanFrom(mode, amount, waitFor, maxSteps, initialHeight) == Scanned([], CountReached)
  {
  }

  /**
   * A scan that ends normally has either collected at least `amount` posts
   * or seen the page height stay the same; it reports the count only when it
   * was reached.
   */
  lemma {:induction false} ScanStopCondition(mode: Truncation, amount: int, waitFor: (nat, string) -> WaitResult,
      step: nat, fuel: nat, anchor: string, lastHeight: int, collected: seq<FeedPost>)
    requires Scan(mode, amount, waitFor, step, fuel, anchor, lastHeight, collected).Scanned?
    ensures var out := Scan(mode, amount, waitFor, step, fuel, anchor, lastHeight, collected);
      && (out.reason == CountReached ==> |out.posts| >= amount)
      && (|out.posts| < amount ==> out.reason == HeightUnchanged)
    decreases fuel
  {
    if |collected| < amount && fuel > 0 {
      var s := waitFor(step, anchor);
      var visible := s.feed.value;
      var next := collected + CollectAll(visible[..BatchLength(mode, |collected|, |visible|, amount)]);
      if s.height != lastHeight {
        ScanStopCondition(mode, amount, waitFor, step + 1, fuel - 1, Rendered(next[|next| - 1].feedIndex), s.height, next);
      }
    }
  }

  /**
   * The loop only appends: what was collected before stays, unchanged, at
   * the front of the final list.
   */
  lemma {:induction false} ScanOnlyAppends(mode: Truncation, amount: int, waitFor: (nat, string) -> WaitResult,
      step: nat, fuel: nat, anchor: string, lastHeight: int, collected: seq<FeedPost>)
    requires Scan(mode, amount, waitFor, step, fuel, anchor, lastHeight, collected).Scanned?
    ensures var ps := Scan(mode, amount, waitFor, step, fuel, anchor, lastHeight, collected).posts;
      |collected| <= |ps| && ps[..|collected|] == collected
    decreases fuel
  {
    if |collected| < amount && fuel > 0 {
      var s := waitFor(step, anchor);
      var visible := s.feed.value;
      var next := collected + CollectAll(visible[..BatchLength(mode, |collected|, |visible|, amount)]);
      assert next[..|collected|] == collected;
      if s.height != lastHeight {
        ScanOnlyAppends(mode, amount, waitFor, step + 1, fuel - 1, Rendered(next[|next| - 1].feedIndex), s.height, next);
        var ps := Scan(mode, amount, waitFor, step + 1, fuel - 1, Rendered(next[|next| - 1].feedIndex), s.height, next).posts;
        assert ps[..|collected|] == ps[..|next|][..|collected|];
      }
    }
  }

  /**
   * A first snapshot without text posts leaves `post_list` empty, so
   * `post_list[-1]` raises: an empty feed is an error, not an empty result,
   * whether or not the page height changed.
   */
  lemma EmptyFirstSnapshotFails(mode: Truncation, amount: int, waitFor: (nat, string) -> WaitResult,
      step: nat, fuel: nat, anchor: string, lastHeight: int, height: int)
    requires 0 < amount && fuel > 0
    requires waitFor(step, anchor) == Loaded(Some([]), height)
    ensures Scan(mode, amount, waitFor, step, fuel, anchor, lastHeight, []) == ScanFailed(NoPostToAnchor)
  {
    assert [] + CollectAll([][..BatchLength(mode, 0, 0, amount)]) == [];
  }

  /**
   * After a first round that collects `next`, the second wait is anchored
   * on the feed index of the last entry of `next`, as the f-string renders a
   * missing index.
   */
  lemma SecondWaitAnchorsOnLastPost(mode: Truncation, amount: int, waitFor: (nat, string) -> WaitResult,
      maxSteps: nat, initialHeight: int, visible: seq<PostAttrs>, height: int)
    requires 0 < amount && maxSteps > 0 && height != initialHeight
    requires waitFor(0, FirstAnchor) == Loaded(Some(visible), height)
    requires 0 < |visible| < amount
    ensures var last := visible[|visible| - 1].feedIndex;
      ScanFrom(mode, amount, waitFor, maxSteps, initialHeight)
      == Scan(mode, amount, waitFor, 1, maxSteps - 1, Rendered(last), height, CollectAll(visible))
  {
    assert visible[..|visible|] == visible;
    assert [] + CollectAll(visible) == CollectAll(visible);
  }

  /**
   * A round whose new page height equals the last one ends the scan with
   * what has been collected, however few that is.
   */
  lemma HeightUnchangedStops(mode: Truncation, amount: int, waitFor: (nat, string) -> WaitResult,
      step: nat, fuel: nat, anchor: string, lastHeight: int, collected: seq<FeedPost>, visible: seq<PostAttrs>)
    requires |collected| < amount && fuel > 0
    requires waitFor(step, anchor) == Loaded(Some(visible), lastHeight)
    requires collected != [] || visible != []
    ensures var next := collected + CollectAll(visible[..BatchLength(mode, |collected|, |visible|, amount)]);
      Scan(mode, amount, waitFor, step, fuel, anchor, lastHeight, collected) == Scanned(next, HeightUnchanged)
  {
  }

  /** A timed-out wait aborts the scan, whatever was collected so far. */
  lemma TimeoutAborts(mode: Truncation, amount: int, waitFor: (nat, string) -> WaitResult,
      step: nat, fuel: nat, anchor: string, lastHeight: int, collected: seq<FeedPost>)
    requires |collected| < amount && fuel > 0
    requires waitFor(step, anchor) == Timeout
    ensures Scan(mode, amount, waitFor, step, fuel, anchor, lastHeight, collected) == ScanFailed(WaitTimedOut)
  {
  }

  /**
   * The as-written cut keeps `len(post_list) + len(posts) - amount + 2` of
   * the visible posts: never fewer than two (when there are two), and the
   * new length is not `amount` in general.
   */
  lemma AsWrittenBatch(n: nat, m: nat, amount: int)
    requires n < amount <= n + m
    ensures BatchLength(AsWritten, n, m, amount) >= Paging.Min(m, 2)
    ensures n + BatchLength(AsWritten, n, m, amount) == Paging.Min(n + m, 2 * n + m - amount + 2)
  {
  }

  /**
   * Over-collection: asked for 5 posts, a first page showing 10 text posts
   * ends the scan with 7.
   */
  lemma AsWrittenOverCollects(waitFor: (nat, string) -> WaitResult, maxSteps: nat, initialHeight: int,
                              visible: seq<PostAttrs>, height: int)
    requires maxSteps > 0 && |visible| == 10 && height != initialHeight
    requires waitFor(0, FirstAnchor) == Loaded(Some(visible), height)
    ensures ScanFrom(AsWritten, 5, waitFor, maxSteps, initialHeight) == Scanned(CollectAll(visible[..7]), CountReached)
    ensures |ScanFrom(AsWritten, 5, waitFor, maxSteps, initialHeight).posts| == 7
  {
    assert BatchLength(AsWritten, 0, 10, 5) == 7;
    var next := [] + CollectAll(visible[..7]);
    assert next == CollectAll(visible[..7]);
    assert Scan(AsWritten, 5, waitFor, 1, maxSteps - 1, Rendered(next[6].feedIndex), height, next) == Scanned(next, CountReached);
  }

  /**
   * Under-collection: asked for 5 posts, a last page showing exactly 5 text
   * posts keeps only 2 of them.
   */
  lemma AsWrittenUnderCollects(waitFor: (nat, string) -> WaitResult, maxSteps: nat, initialHeight: int,
                               visible: seq<PostAttrs>)
    requires maxSteps > 0 && |visible| == 5
    requires waitFor(0, FirstAnchor) == Loaded(Some(visible), initialHeight)
    ensures ScanFrom(AsWritten, 5, waitFor, maxSteps, initialHeight) == Scanned(CollectAll(visible[..2]), HeightUnchanged)
  {
  }

  /**
   * No dedupe: a post still on screen after the next scroll is collected a
   * second time.
   */
  lemma PostSeenTwiceCollectedTwice(mode: Truncation, waitFor: (nat, string) -> WaitResult, maxSteps: nat, p: PostAttrs)
    requires maxSteps >= 2
    requires waitFor(0, FirstAnchor) == Loaded(Some([p]), 1)
    requires waitFor(1, Rendered(p.feedIndex)) == Loaded(Some([p]), 1)
    ensures ScanFrom(mode, 3, waitFor, maxSteps, 0) == Scanned([Collect(p), Collect(p)], HeightUnchanged)
  {
    assert [p][..1] == [p];
    assert CollectAll([p]) == [Collect(p)];
    var first := [] + CollectAll([p][..1]);
    assert first == [Collect(p)];
    var second := first + CollectAll([p][..1]);
    assert second == [Collect(p), Collect(p)];
    assert Scan(mode, 3, waitFor, 1, maxSteps - 1, Rendered(p.feedIndex), 1, first) == Scanned(second, HeightUnchanged);
  }

  function Max(a: int, b: int): int {
    if a >= b then a else b
  }

  /**
   * With the intended cut the scan never collects more than `amount`
   * posts, and reports the count reached only with exactly `amount` of them.
   */
  lemma {:induction false} IntendedKeepsBound(amount: int, waitFor: (nat, string) -> WaitResult,
      step: nat, fuel: nat, anchor: string, lastHeight: int, collected: seq<FeedPost>)
    requires |collected| <= Max(amount, 0)
    requires Scan(Intended, amount, waitFor, step, fuel, anchor, lastHeight, collected).Scanned?
    ensures var out := Scan(Intended, amount, waitFor, step, fuel, anchor, lastHeight, collected);
      && |out.posts| <= Max(amount, 0)
      && (out.reason == CountReached ==> |out.posts| == Max(amount, 0))
    decreases fuel
  {
    if |collected| < amount && fuel > 0 {
      var s := waitFor(step, anchor);
      var visible := s.feed.value;
      var next := collected + CollectAll(visible[..BatchLength(Intended, |collected|, |visible|, amount)]);
      assert |next| <= amount;
      if s.height != lastHeight {
        IntendedKeepsBound(amount, waitFor, step + 1, fuel - 1, Rendered(next[|next| - 1].feedIndex), s.height, next);
      }
    }
  }

  /** The same first page as in `AsWrittenOverCollects` gives exactly 5 posts with the intended cut. */
  lemma IntendedCollectsExactly(waitFor: (nat, string) -> WaitResult, maxSteps: nat, initialHeight: int,
                                visible: seq<PostAttrs>, height: int)
    requires maxSteps > 0 && |visible| == 10 && height != initialHeight
    requires waitFor(0, FirstAnchor) == Loaded(Some(visible), height)
    ensures ScanFrom(Intended, 5, waitFor, maxSteps, initialHeight) == Scanned(CollectAll(visible[..5]), CountReached)
  {
    assert BatchLength(Intended, 0, 10, 5) == 5;
    var next := [] + CollectAll(visible[..5]);
    assert next == CollectAll(visible[..5]);
    assert Scan(Intended, 5, waitFor, 1, maxSteps - 1, Rendered(next[4].feedIndex), height, next) == Scanned(next, CountReached);
  }

  // Enrichment: the second loop of `gather_posts`.

  /** The first child of a `<p>` element of a post's text body. */
  datatype FirstChild = NoChild | TextChild(text: string) | ElementChild

  /** What opening a post's link shows. */
  datatype PostPage = Unreachable | NoPostElement | NoTextBody | TextBody(paragraphs: seq<FirstChild>)

  datatype EnrichError = NavigationFailed | MissingPostElement | MissingTextBody | EmptyParagraph | NonTextParagraph

  /**
   * `[item.contents[0].strip() for item in content]`: indexing an empty
   * paragraph fails, and so does calling `strip` on an element child.
   */
  function ParagraphTexts(ps: seq<FirstChild>): Result<seq<string>, EnrichError> {
    if ps == [] then Success([])
    else if ps[0].NoChild? then Failure(EmptyParagraph)
    else if ps[0].ElementChild? then Failure(NonTextParagraph)
    else match ParagraphTexts(ps[1..])
      case Failure(e) => Failure(e)
      case Success(rest) => Success([Strip(ps[0].text)] + rest)
  }

  /**
   * The paragraph texts exist exactly when every paragraph starts with
   * text; then there is one per paragraph, stripped, in document order.
   */
  lemma {:induction false} ParagraphTextsSpec(ps: seq<FirstChild>)
    ensures ParagraphTexts(ps).Success? <==> forall i :: 0 <= i < |ps| ==> ps[i].TextChild?
    ensures ParagraphTexts(ps).Success? ==>
      |ParagraphTexts(ps).value| == |ps|
      && forall i :: 0 <= i < |ps| ==> ParagraphTexts(ps).value[i] == Strip(ps[i].text)
  {
    if ps != [] {
      ParagraphTextsSpec(ps[1..]);
      assert forall i :: 0 < i < |ps| ==> ps[i] == ps[1..][i - 1];
      if ParagraphTexts(ps).Success? {
        var rest := ParagraphTexts(ps[1..]).value;
        assert ParagraphTexts(ps).value == [Strip(ps[0].text)] + rest;
      }
    }
  }

  /** The content of one post: its page must be reachable and have a post element and a text body. */
  function Content(post: FeedPost, detail: string -> PostPage): Result<seq<string>, EnrichError> {
    if post.postLink.None? then Failure(NavigationFailed)
    else match detail(post.postLink.value)
      case Unreachable => Failure(NavigationFailed)
      case NoPostElement => Failure(MissingPostElement)
      case NoTextBody => Failure(MissingTextBody)
      case TextBody(ps) => ParagraphTexts(ps)
  }

  /** An entry of `post_list` once `content` has been added to it. */
  datatype EnrichedPost = EnrichedPost(post: FeedPost, content: seq<string>)

  /** Post `i` is the first whose content cannot be read. */
  predicate FirstFailure(posts: seq<FeedPost>, detail: string -> PostPage, i: int) {
    && 0 <= i < |posts|
    && Content(posts[i], detail).Failure?
    && forall k :: 0 <= k < i ==> Content(posts[k], detail).Success?
  }

  /**
   * The outcome of the enrichment loop: every post, in order, with its
   * content when all can be read; otherwise the error of the first that
   * cannot, since nothing is skipped.
   */
  ghost predicate EnrichedAll(posts: seq<FeedPost>, detail: string -> PostPage, r: Result<seq<EnrichedPost>, EnrichError>) {
    && (r.Success? <==> forall i :: 0 <= i < |posts| ==> Content(posts[i], detail).Success?)
    && (r.Success? ==>
          |r.value| == |posts|
          && forall i :: 0 <= i < |posts| ==> r.value[i] == EnrichedPost(posts[i], Content(posts[i], detail).value))
    && (r.Failure? ==> exists i :: FirstFailure(posts, detail, i) && r.error == Content(posts[i], detail).error)
  }

  /** The enrichment loop of `gather_posts`: opens each post once, in list order. */
  method Enrich(posts: seq<FeedPost>, detail: string -> PostPage) returns (r: Result<seq<EnrichedPost>, EnrichError>)
    ensures EnrichedAll(posts, detail, r)
  {
    var done: seq<EnrichedPost> := [];
    for i := 0 to |posts|
      invariant |done| == i
      invariant forall k :: 0 <= k < i ==> Content(posts[k], detail).Success?
      invariant forall k :: 0 <= k < i ==> done[k] == EnrichedPost(posts[k], Content(posts[k], detail).value)
    {
      var c := Content(posts[i], detail);
      if c.Failure? {
        assert FirstFailure(posts, detail, i);
        return Failure(c.error);
      }
      done := done + [EnrichedPost(posts[i], c.value)];
    }
    r := Success(done);
  }

  datatype GatherError = ScanStopped(scanError: ScanError) | EnrichFailed(enrichError: EnrichError)

  function LiftEnrich(r: Result<seq<EnrichedPost>, EnrichError>): Result<seq<EnrichedPost>, GatherError> {
    match r
    case Success(v) => Success(v)
    case Failure(e) => Failure(EnrichFailed(e))
  }

  /**
   * `gather_posts`: the scan loop, then the enrichment loop over everything
   * collected. `mode == AsWritten` is the function as the source has it.
   */
  method GatherPosts(mode: Truncation, amount: int, waitFor: (nat, string) -> WaitResult, maxSteps: nat,
                     initialHeight: int, detail: string -> PostPage)
    returns (r: Result<seq<EnrichedPost>, GatherError>)
    ensures var scan := ScanFrom(mode, amount, waitFor, maxSteps, initialHeight);
      && (scan.ScanFailed? ==> r == Failure(ScanStopped(scan.error)))
      && (scan.Scanned? ==> exists e :: EnrichedAll(scan.posts, detail, e) && r == LiftEnrich(e))
  {
    var scan := ScanFeed(mode, amount, waitFor, maxSteps, initialHeight);
    if scan.ScanFailed? {
      return Failure(ScanStopped(scan.error));
    }
    var e := Enrich(scan.posts, detail);
    r := LiftEnrich(e);
  }
}
