# AutoReel acquisition core in Dafny

AutoReel gathers material for short videos from two feeds:

- a Reddit feed of text posts, scanned in a browser or read through the Reddit API;
- a YouTube search for gameplay clips.

It downloads the clips, puts them in a Google Cloud Storage bucket, and keeps the Reddit posts it saved in a database table that a web API pages, patches and marks as used.

This project models that core and proves properties of the model.

| module | models |
|---|---|
| `Wrappers` | `Option` and `Result`. |
| `Text` | The Python string methods the core relies on: `lower`, `in` on strings, and `strip` over the ASCII whitespace set. |
| `Paging` | SQL `OFFSET … LIMIT …` over an ordered sequence of rows. |
| `Staging` | `backend/bucket_upload.py`. The local download directory and the bucket are the two sets of the class `StagingArea`. |
| `YoutubeScrapper` | `backend/youtube_scrapper.py`: the gameplay filter with its cap of 5, the download loop, and the positional pairing of videos with uploaded paths in `scrape_videos`. |
| `YoutubeScript` | The `grab_videos` of `Selenium_Scrappers/YoutubeScrapper/youtube_videos.py`. It has different edge cases from the backend version. |
| `SavedPosts` | `backend/reddit_posts.py`. The feed read maps Reddit submissions to records. The class `PostStore` models the saved-post table with its save, page, delete, patch-audio and use operations and their HTTP error codes. |
| `FeedScan` | `gather_posts`. Two source files hold the same algorithm. The model covers the scroll-and-wait loop with its cut of the last batch, its stop conditions and its failure modes, then the enrichment loop that opens every collected post and reads its paragraphs. |

External systems become parameters of the model:

| external system | modelled as |
|---|---|
| Browser | The function `waitFor(step, anchor)` gives what the page shows after the `step`-th scroll, once the post with the `anchor` feed index is visible. |
| Opening a post | `detail(link)`. |
| yt-dlp | `fetch(link)` gives the downloaded file, or nothing. |
| Bucket | `accepts(file)` says whether an upload succeeds. |
| Reddit API | The `FeedFetch` and `SubmissionFetch` values, including the exception classes they raise. |
| Database | The state of `PostStore`. The flag `fault` says the database fails during the operation, at the lookup or at the commit. Every handler reports that as 500, before any 404 or 400. |

Where what the program is expected to do and what its code does disagree, the model follows the code:

- The docstring of `gather_posts` (Selenium_Scrappers/RedditScrapper/reddit_posts.py:41) says it gathers a set number of posts. The code's cut of the last batch does not stop at exactly that number (see Findings).
- `gather_posts` does not deduplicate posts across scrolls. `FeedScan.PostSeenTwiceCollectedTwice` proves that a post still on screen is collected twice.
- `grab_videos` does not deduplicate videos either.
- `get_posts_from_subreddit` has a 404 handler for a missing feed (backend/reddit_posts.py:55-56) that never runs. The Reddit client's `NotFound` is a subclass of `ResponseException`, so the 401 handler at :53-54 catches it first. `SavedPosts.MissingFeedReportedUnauthorized` states this.
- `save_post_db` has a 404 handler for a missing post (backend/reddit_posts.py:71-72) that never runs. Creating the submission object does not fetch it. The fetch happens when its title is read at :81, inside the database block, whose catch-all handler turns any fetch error into 500.
- `scrape_videos` pairs videos with uploads by position in the directory listing, not by identity. `YoutubeScrapper.MiddleUploadFailureMisaligns` shows the shift this causes.

## Model

| member | source | states |
|---|---|---|
| Text.Lower | backend/youtube_scrapper.py:36 | Lower-casing keeps the length, maps each character to its ASCII lower-case form (`A`-`Z` to `a`-`z`, others unchanged), and leaves no upper-case letter. |
| Text.LowerIgnoresCase | backend/youtube_scrapper.py:36 | Two strings that differ only in the case of ASCII letters lower-case to the same string. |
| Text.LowerFixesLowerCase | backend/youtube_scrapper.py:36 | A string without upper-case letters is its own lower-case form, so the keyword `gameplay` matches itself. |
| Text.ContainsIffOccurs | backend/youtube_scrapper.py:36 | `needle in hay` holds exactly when the needle occurs at some position of the haystack. |
| Text.TrimStartSpec | backend/reddit_posts.py:44 | Stripping the front removes exactly a whitespace prefix, and the result does not start with whitespace. |
| Text.TrimEndSpec | backend/reddit_posts.py:44 | Stripping the back removes exactly a whitespace suffix, and the result does not end with whitespace. |
| Text.StripSpec | backend/reddit_posts.py:44-47 | `strip()` returns a contiguous slice of the input, with only whitespace cut on both sides, and neither end of the result is whitespace. |
| Text.StripIdempotent | backend/reddit_posts.py:81-84 | Stripping twice is the same as stripping once. |
| Paging.Page | backend/reddit_posts.py:106-107 | An offset/limit page has at most `limit` rows. It has exactly `min(limit, len - offset)` rows (none past the end), and row `i` is row `offset + i` of the table. |
| Paging.PagesCompose | backend/youtube_scrapper.py:142-143 | Two adjacent pages of sizes `a` and `b` concatenate to the page of size `a + b`. |
| Staging.GcsPathInjective | backend/bucket_upload.py:56-64 | The `gs://bucket/subdir/file` path determines the file name, so distinct files get distinct paths. |
| Staging.StagedPathsAppend | backend/bucket_upload.py:22-33 | The uploads of a concatenated listing are the uploads of each part, in order. |
| Staging.StagedPathsLength | backend/bucket_upload.py:22-33 | There are never more uploads than files, and there are as many exactly when every upload is accepted. |
| Staging.StagedPathsMembers | backend/bucket_upload.py:22-33 | A path is reported exactly when it is the bucket path of a listed file whose upload was accepted. |
| Staging.AllAcceptedPaths | backend/bucket_upload.py:22-33 | When every upload succeeds, upload `i` is the bucket path of file `i` of the listing. |
| Staging.StagingArea.UploadFileToBucket | backend/bucket_upload.py:35-68 | A missing file or a rejected upload fails and changes nothing. A successful upload stores `gs://bucket/subdir/file`, deletes the local file, and returns that path. |
| Staging.StagingArea.UploadDownloadedFiles | backend/bucket_upload.py:7-33 | A missing download directory makes the listing at :19 fail outside the `try`, so the call fails and nothing changes. Otherwise it succeeds with the paths of the accepted files in listing order, the accepted files leave the directory, and their paths are added to the bucket. |
| Staging.StagingArea.UploadListed | backend/bucket_upload.py:20-33 | The returned paths are those of the accepted files in listing order, and failures are skipped. Exactly the accepted files leave the directory, and exactly their paths are added to the bucket. |
| YoutubeScrapper.GameplayTestIgnoresCase | backend/youtube_scrapper.py:36 | The `gameplay` test gives the same answer for titles that differ only in letter case. |
| YoutubeScrapper.MixedCaseTitleIsGameplay | backend/youtube_scrapper.py:36 | The title `GamePlay` passes the `gameplay` test. |
| YoutubeScrapper.GameplayAppend | backend/youtube_scrapper.py:32-40 | The filter distributes over concatenation. |
| YoutubeScrapper.GameplayMembers | backend/youtube_scrapper.py:33-40 | A video is kept exactly when some tag has a non-empty title containing `gameplay` in any case, and a non-empty href that the video links to under `https://www.youtube.com/`. |
| YoutubeScrapper.GameplayLength | backend/youtube_scrapper.py:32-40 | The filter keeps at most one video per tag, and all of them when every tag qualifies. |
| YoutubeScrapper.GrabVideos | backend/youtube_scrapper.py:16-43 | A page without a `contents` region gives no videos. Otherwise the result is the first 5 kept videos in page order. |
| YoutubeScrapper.DownloadVideos | backend/youtube_scrapper.py:46-64 | There is one attempt per video, in order. A failed download is logged and the loop goes on. The script's loop at Selenium_Scrappers/YoutubeScrapper/youtube_videos.py:35-40 is the same, except that it prints instead of logging. |
| YoutubeScrapper.PairUploads | backend/youtube_scrapper.py:94-101 | Item `i` carries video `i`'s title and link, and upload `i` when there is one, otherwise no path. |
| YoutubeScrapper.PairingMatchesOwnUpload | backend/youtube_scrapper.py:85-101 | If every download and upload succeeds and the directory lists the files in download order, each item gets its own file's bucket path. |
| YoutubeScrapper.MiddleUploadFailureMisaligns | backend/youtube_scrapper.py:91-99 | With three files where the middle upload fails, the second video gets the third file's path and the third video gets none. |
| YoutubeScript.ScriptGameplay | Selenium_Scrappers/YoutubeScrapper/youtube_videos.py:15-17 | The comprehension can fail only with a missing title, and keeps at most one video per tag. |
| YoutubeScript.GrabVideos | Selenium_Scrappers/YoutubeScrapper/youtube_videos.py:10-20 | The script version fails when the page has no `contents` region, and fails with a missing title exactly when the comprehension does. When the comprehension succeeds, so does the call: it returns the first `min(n, 5)` of the `n` videos the comprehension keeps, in order. |
| YoutubeScript.ScriptFailsIffTitleMissing | Selenium_Scrappers/YoutubeScrapper/youtube_videos.py:15-17 | The script's filter fails exactly when some tag has no title (`None.lower()`). |
| YoutubeScript.ScriptVideosAreGameplay | Selenium_Scrappers/YoutubeScrapper/youtube_videos.py:15-17 | Every video the script keeps comes from a tag whose title contains `gameplay`, linked by the href as the f-string renders it (possibly `None`). |
| YoutubeScript.ScriptKeepsGameplayTags | Selenium_Scrappers/YoutubeScrapper/youtube_videos.py:15-17 | When the comprehension succeeds, every tag whose title contains `gameplay` in any case is kept, with the f-string-rendered href in its link. |
| YoutubeScript.ScriptGameplayAppend | Selenium_Scrappers/YoutubeScrapper/youtube_videos.py:15-17 | Over two runs of tags the comprehension succeeds exactly when it succeeds on both, and then keeps the first run's videos before the second's, so page order is preserved. |
| YoutubeScript.ScriptAgreesWithBackend | Selenium_Scrappers/YoutubeScrapper/youtube_videos.py:10-20 | When every tag has a non-empty title and href, the script and the backend select the same videos. |
| YoutubeScript.MissingHrefKeptAsNone | Selenium_Scrappers/YoutubeScrapper/youtube_videos.py:15 | A gameplay tag without an href is kept by the script with the link `https://www.youtube.com/None`, and dropped by the backend. |
| SavedPosts.MissingFeedReportedUnauthorized | backend/reddit_posts.py:53-56 | In the handler order of the source, a missing feed is reported as 401. No feed error is ever reported as 404, and every HTTP error response gives 401. |
| SavedPosts.GetPostsFromSubreddit | backend/reddit_posts.py:30-59 | Any HTTP error response from Reddit, a missing feed included, gives 401. Any other failure gives 500. Otherwise the result holds the first `limit` submissions in order, each with stripped title, content and subreddit, the URL as it is, and the id. |
| SavedPosts.Without | backend/reddit_posts.py:121-127 | Removing an id keeps every other id, keeps the ids distinct, and never lengthens the list. |
| SavedPosts.InOrder | backend/reddit_posts.py:104-108 | The listing has one row per stored id, in storage order. |
| SavedPosts.PostStore.SavePost | backend/reddit_posts.py:62-93 | Any error fetching the submission, a missing one included, gives 500, because the fetch happens lazily at :81 and is caught at :91-93. A database fault also gives 500, even for a duplicate id. Without a fault, an existing id gives 400 at the commit. Each failure leaves the table unchanged. Otherwise the stripped submission is added with no audio URL and unused, and appended to the storage order. |
| SavedPosts.PostStore.GetSavedPosts | backend/reddit_posts.py:96-111 | Returns the offset/limit page of the rows in storage order, or 500 on a fault. It changes nothing. |
| SavedPosts.PostStore.DeleteSavedPost | backend/reddit_posts.py:114-132 | A database fault gives 500, whatever the id. Otherwise an absent id gives 404. Both leave the table unchanged. Otherwise exactly that row is removed and its id is returned. |
| SavedPosts.PostStore.PatchPostAudio | backend/reddit_posts.py:135-156 | A database fault gives 500, whatever the id. Otherwise an absent id gives 404. Otherwise only the audio URL of that row changes, and the updated row is returned. |
| SavedPosts.PostStore.UsePost | backend/reddit_posts.py:159-185 | A database fault gives 500, whatever the row. Otherwise an absent id gives 404 and an already used post 400. Otherwise only the `used` flag of that row becomes true. |
| SavedPosts.UseTwice | backend/reddit_posts.py:171-174 | Using the same post twice never succeeds twice. If the first call succeeds, the second gives 400. |
| FeedScan.CollectAll | Selenium_Scrappers/RedditScrapper/reddit_posts.py:70-71 | There is one entry per text post, in page order. A missing title becomes `None`, and the link and feed index are kept when present. |
| FeedScan.BatchLength | Selenium_Scrappers/RedditScrapper/reddit_posts.py:67-68 | A batch cut never keeps more posts than are visible. |
| FeedScan.AppendBatch | Selenium_Scrappers/RedditScrapper/reddit_posts.py:70-71 | The append loop adds exactly the entries of the batch, after what was collected. |
| FeedScan.CollectAllAppend | Selenium_Scrappers/RedditScrapper/reddit_posts.py:70-71 | Building entries distributes over concatenation. |
| FeedScan.ScanFeed | Selenium_Scrappers/RedditScrapper/reddit_posts.py:49-79 | The imperative scan loop, which also models Selenium_Scrappers/post_grabber.py:30-60. It computes the outcome the scan function defines: anchor `0` first, then the last post's feed index; a stop when enough were collected or the height did not change; a timeout, a missing feed or an empty list as errors. |
| FeedScan.NothingReadForNonPositiveAmount | Selenium_Scrappers/RedditScrapper/reddit_posts.py:55 | With `amount <= 0` the loop body never runs and the result is empty. |
| FeedScan.ScanStopCondition | Selenium_Scrappers/RedditScrapper/reddit_posts.py:55-79 | A scan that ends normally reports the count only when at least `amount` posts were collected. With fewer, it ended because the height stayed the same. |
| FeedScan.ScanOnlyAppends | Selenium_Scrappers/RedditScrapper/reddit_posts.py:70-71 | What was collected earlier stays unchanged at the front of the final list. |
| FeedScan.EmptyFirstSnapshotFails | Selenium_Scrappers/RedditScrapper/reddit_posts.py:70-73 | A first snapshot without text posts makes `post_list[-1]` fail. An empty feed is an error, not an empty result, whatever the height. |
| FeedScan.SecondWaitAnchorsOnLastPost | Selenium_Scrappers/RedditScrapper/reddit_posts.py:61-79 | After a first round that collects every visible post, the second wait is anchored on the last post's feed index, with `None` for a missing one, and the loop continues from there. |
| FeedScan.HeightUnchangedStops | Selenium_Scrappers/RedditScrapper/reddit_posts.py:76-78 | A round whose new page height equals the last one ends the scan with what has been collected, however few posts that is. |
| FeedScan.TimeoutAborts | Selenium_Scrappers/RedditScrapper/reddit_posts.py:60-61 | A wait that times out aborts the scan, whatever was collected. |
| FeedScan.AsWrittenBatch | Selenium_Scrappers/RedditScrapper/reddit_posts.py:67-68 | The as-written cut keeps at least two of the visible posts (if there are two), and gives the new length in closed form. |
| FeedScan.AsWrittenOverCollects | Selenium_Scrappers/RedditScrapper/reddit_posts.py:67-68 | Asked for 5, a first page showing 10 text posts ends the scan with 7. |
| FeedScan.AsWrittenUnderCollects | Selenium_Scrappers/RedditScrapper/reddit_posts.py:67-68 | Asked for 5, a last page showing exactly 5 text posts keeps 2. |
| FeedScan.PostSeenTwiceCollectedTwice | Selenium_Scrappers/RedditScrapper/reddit_posts.py:66-71 | A post visible in two successive snapshots is appended twice, because there is no dedupe. |
| FeedScan.IntendedKeepsBound | Selenium_Scrappers/RedditScrapper/reddit_posts.py:67-68 | With the corrected cut the scan never exceeds `amount`, and reports the count reached only with exactly `amount` posts. |
| FeedScan.IntendedCollectsExactly | Selenium_Scrappers/RedditScrapper/reddit_posts.py:67-68 | With the corrected cut, the 10-post page of the over-collection case gives exactly 5 posts. |
| FeedScan.ParagraphTextsSpec | Selenium_Scrappers/RedditScrapper/reddit_posts.py:86-87 | The paragraph texts exist exactly when every `<p>` starts with a text node. Then there is one stripped text per paragraph, in document order. |
| FeedScan.Enrich | Selenium_Scrappers/RedditScrapper/reddit_posts.py:81-88 | Every collected post, in order, gets its content. If any post's page cannot be read, the result is the error of the first such post. |
| FeedScan.GatherPosts | Selenium_Scrappers/RedditScrapper/reddit_posts.py:38-90 | The scan's error, or the enrichment of exactly the posts the scan collected. The same function is at Selenium_Scrappers/post_grabber.py:29-71. |

## Left out

**Not modelled at all**

- `reddit_login` and `login`: browser login with credentials. They are not part of this model.
- `save_video_to_db` (backend/youtube_scrapper.py:106-131): outside the modelled core.
- `search_videos`: outside the modelled core.
- The module-level script code and `main`: browser setup, the navigation helpers, the `Utils` module and `print`.
- `Selenium_Scrappers/youtube_videos.py` and the two short `bucket_upload.py` copies under `Selenium_Scrappers`: they are not part of this model.
- JSON encoding (`json.dumps`, `model_dump_json`): results are returned as values.
- The `logging.error` calls: backend/bucket_upload.py:31 and :67, and backend/reddit_posts.py:58, :74, :92, :110, :131, :155 and :184. Logging has no effect on results or state. Only `YoutubeScrapper.DownloadVideos` records its log lines, as events.

**External systems reduced to parameters**

- HTML parsing, BeautifulSoup queries and Selenium waits: the parser's findings are given as data. A `<p>` whose first child is an element is `ElementChild`, and it fails as `strip` on a tag does.
- Browser, yt-dlp, bucket and Reddit API: see the parameter table above.
- `os.listdir`: its result is the `listing` parameter of `UploadDownloadedFiles`. It lists the directory's files once each, in any order, or is absent when the directory is missing.
- `scrape_videos`: when the download directory is missing, the listing error escapes from `upload_downloaded_files` and so from `scrape_videos` (backend/youtube_scrapper.py:91). `YoutubeScrapper.PairUploads` models only the pairing that follows a successful upload call.

**Simplified behaviour**

- The script's `download_videos` (Selenium_Scrappers/YoutubeScrapper/youtube_videos.py:27-40) is modelled by `YoutubeScrapper.DownloadVideos`, whose loop it shares. The script passes yt-dlp a bare string rather than a list; what yt-dlp does with that is library behaviour and is not modelled.
- Strings: there is no Unicode case mapping or whitespace beyond ASCII. `lower` and `strip` are modelled on ASCII.
- `FeedScan.ScanFeed`: the loop is bounded by `maxSteps` rounds; running out gives `FeedRanOut`. The source has no bound and can scroll forever.
- `SavedPosts.PostStore.GetSavedPosts` and `SavedPosts.GetPostsFromSubreddit`: offsets and limits are natural numbers, where the source takes any `int`.
- `SavedPosts.PostStore.GetSavedPosts`: a `SELECT` without `ORDER BY` is modelled as insertion order.
- `fault`: a failure after the commit, in `session.refresh` at backend/reddit_posts.py:150 or :177, gives 500 in the source with the change already committed. The model has no such case: a fault always leaves the table unchanged.
- `UploadFileToBucket`: a failure of `os.remove` after a successful upload is not modelled.
- `FeedScan.Enrich`: `post["content"] = …` mutates the dictionaries of `post_list` in place. The model builds a new list of `EnrichedPost` values, so aliasing is not modelled.
- `YoutubeScrapper.DownloadVideos`: the log lines are modelled as one event per video. The file name yt-dlp chooses comes from the `fetch` parameter.

## Findings

| source | as written | input that shows it | evidently intended | confidence | as-written member | corrected member |
|---|---|---|---|---|---|---|
| Selenium_Scrappers/RedditScrapper/reddit_posts.py:67-68 (and Selenium_Scrappers/post_grabber.py:48-49) | The last batch is cut to `len(post_list) + len(posts) - amount + 2` posts, a number that grows with the surplus instead of shrinking to what is still needed. | `amount = 5`, a first snapshot with 10 text posts and a changed height: 7 posts are returned. A last snapshot with exactly 5 text posts and an unchanged height: only 2 are kept. | Keep `amount - len(post_list)` posts, so the scan returns at most `amount` posts, and exactly `amount` when it stops on the count. | medium, not executed | FeedScan.AsWrittenOverCollects | FeedScan.IntendedKeepsBound |

Both cuts are modelled. `FeedScan.Truncation` selects between the source's cut (`AsWritten`) and the corrected one (`Intended`). `ScanFeed` and `GatherPosts` take this mode as a parameter.
