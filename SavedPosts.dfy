/**
 * The Reddit side of the backend (backend/reddit_posts.py): turning a
 * fetched feed into records, and the saved-post table with its insert,
 * page, delete, audio-patch and one-shot "used" operations.
 *
 * The Reddit client is an oracle whose answer is given as a parameter,
 * and the database is a keyed table held by a `PostStore`. The `fault`
 * parameter of each operation says that the database itself fails during
 * the operation, whether at the lookup or at the commit. Every handler
 * catches that in its final `except Exception` and reports 500, ahead of
 * any 404 or 400, and the table is unchanged.
 */
module SavedPosts {
  import opened Wrappers
  import opened Text
  import Paging

  /** The HTTP errors the handlers raise: 400, 401, 404 and 500. */
  datatype Status = BadRequest | Unauthorized | NotFound | ServerError

  /** A row of the `Post` table; `id` is its primary key (backend/models.py). */
  datatype Post = Post(id: string, title: string, url: string, content: string, subreddit: string,
                       audioFileUrl: Option<string>, used: bool)

  /** A submission as the Reddit client returns it; `subreddit` is its display name. */
  datatype Submission = Submission(id: string, title: string, url: string, selftext: string, subreddit: string)

  /**
   * The exceptions a Reddit request can raise: an HTTP error response
   * (`prawcore.exceptions.ResponseException`), its subclass `NotFound`,
   * or anything else (a network failure, say).
   */
  datatype RedditError = ResponseRejected | NotFoundError | OtherError

  /** Whether the exception is caught by `except ResponseException`: `NotFound` is one. */
  predicate IsResponseException(e: RedditError) {
    e.ResponseRejected? || e.NotFoundError?
  }

  /** What reading the hot listing of a multireddit gives. */
  datatype FeedFetch = Listing(submissions: seq<Submission>) | FeedRaised(error: RedditError)

  /** What reading the fields of a submission fetched by id gives. */
  datatype SubmissionFetch = Fetched(submission: Submission) | SubmissionRaised(error: RedditError)

  /** One entry of the JSON array `get_posts_from_subreddit` returns. */
  datatype FeedRecord = FeedRecord(title: string, url: string, content: string, subreddit: string, postId: string)

  /** The record built for one submission: stripped text, URL and id as they are. */
  function ToRecord(s: Submission): FeedRecord {
    FeedRecord(Strip(s.title), s.url, Strip(s.selftext), Strip(s.subreddit), s.id)
  }

  /**
   * The `except` chain of `get_posts_from_subreddit`, tried in order:
   * `ResponseException` first, then `NotFound`, then any exception.
   */
  function FeedErrorStatus(e: RedditError): Status {
    if IsResponseException(e) then Unauthorized
    else if e.NotFoundError? then NotFound
    else ServerError
  }

  /**
   * Because `NotFound` is a `ResponseException`, the handler before it
   * catches it: a missing feed is reported as an authentication failure,
   * and no feed error is ever reported as 404.
   */
  lemma MissingFeedReportedUnauthorized(e: RedditError)
    ensures FeedErrorStatus(NotFoundError) == Unauthorized
    ensures FeedErrorStatus(e) != NotFound
    ensures FeedErrorStatus(e) == Unauthorized <==> e != OtherError
  {
  }

  /**
   * `get_posts_from_subreddit`: one record per submission of the hot
   * listing, at most `limit` of them, in listing order. Any HTTP error
   * response, a missing feed included, maps to 401; anything else to 500.
   */
  method GetPostsFromSubreddit(feed: FeedFetch, limit: nat) returns (r: Result<seq<FeedRecord>, Status>)
    ensures feed.FeedRaised? && IsResponseException(feed.error) ==> r == Failure(Unauthorized)
    ensures feed == FeedRaised(OtherError) ==> r == Failure(ServerError)
    ensures feed.Listing? ==> r.Success? && |r.value| == Paging.Min(limit, |feed.submissions|)
    ensures feed.Listing? ==> forall i :: 0 <= i < |r.value| ==> r.value[i] == ToRecord(feed.submissions[i])
  {
    match feed
    case FeedRaised(e) => return Failure(FeedErrorStatus(e));
    case Listing(submissions) =>
      var records: seq<FeedRecord> := [];
      var n := Paging.Min(limit, |submissions|);
      for i := 0 to n
        invariant |records| == i
        invariant forall k :: 0 <= k < i ==> records[k] == ToRecord(submissions[k])
      {
        var s := submissions[i];
        records := records + [FeedRecord(Strip(s.title), s.url, Strip(s.selftext), Strip(s.subreddit), s.id)];
      }
      return Success(records);
  }

  /** `s` without the key `x`. */
  function Without(s: seq<string>, x: string): (r: seq<string>)
    ensures forall y :: y in r <==> y in s && y != x
    ensures NoDuplicates(s) ==> NoDuplicates(r)
    ensures |r| <= |s|
  {
    if s == [] then []
    else if s[0] == x then Without(s[1..], x)
    else
      var rest := Without(s[1..], x);
      assert NoDuplicates(s) ==> s[0] !in s[1..] && NoDuplicates(s[1..]);
      [s[0]] + rest
  }

  /** The rows named by `keys`, in that order. */
  function InOrder(keys: seq<string>, rows: map<string, Post>): (r: seq<Post>)
    requires forall i :: 0 <= i < |keys| ==> keys[i] in rows
    ensures |r| == |keys|
    ensures forall i :: 0 <= i < |keys| ==> r[i] == rows[keys[i]]
  {
    if keys == [] then [] else [rows[keys[0]]] + InOrder(keys[1..], rows)
  }

  /**
   * The saved-post table: `rows` maps each primary key to its row, and
   * `order` is the storage order in which a SELECT without ORDER BY returns
   * them (insertion order; deleting a row keeps the others' order).
   */
  class PostStore {
    var rows: map<string, Post>
    var order: seq<string>

    ghost predicate Valid()
      reads this
    {
      && NoDuplicates(order)
      && (forall i :: 0 <= i < |order| ==> order[i] in rows)
      && (forall id :: id in rows ==> id in order)
      && (forall id :: id in rows ==> rows[id].id == id)
    }

    constructor ()
      ensures Valid() && rows == map[] && order == []
    {
      rows := map[];
      order := [];
    }

    /** The table's rows in storage order. */
    ghost function Listed(): seq<Post>
      reads this
      requires Valid()
    {
      InOrder(order, rows)
    }

    /**
     * `save_post_db`: stores the fetched submission as a new row, with its
     * text fields stripped, not yet used and without audio. The client
     * fetches the submission lazily, when its title is first read inside
     * the database block, so every fetch error, `NotFound` included, reaches
     * the catch-all handler there and is 500, as is a failing database. An
     * id already in the table violates the primary key at the commit and is
     * 400. Every failure leaves the table unchanged.
     */
    method SavePost(fetch: SubmissionFetch, fault: bool) returns (r: Result<Post, Status>)
      requires Valid()
      modifies this
      ensures Valid()
      ensures fetch.SubmissionRaised? || fault ==> r == Failure(ServerError)
      ensures fetch.Fetched? && !fault && fetch.submission.id in old(rows) ==> r == Failure(BadRequest)
      ensures fetch.Fetched? && !fault && fetch.submission.id !in old(rows) ==>
        var s := fetch.submission;
        var row := Post(s.id, Strip(s.title), Strip(s.url), Strip(s.selftext), Strip(s.subreddit), None, false);
        && r == Success(row)
        && rows == old(rows)[s.id := row]
        && order == old(order) + [s.id]
      ensures r.Failure? ==> rows == old(rows) && order == old(order)
    {
      if fetch.SubmissionRaised? || fault {
        return Failure(ServerError);
      }
      var s := fetch.submission;
      if s.id in rows {
        return Failure(BadRequest);
      }
      var row := Post(s.id, Strip(s.title), Strip(s.url), Strip(s.selftext), Strip(s.subreddit), None, false);
      rows := rows[s.id := row];
      order := order + [s.id];
      r := Success(row);
    }

    /** `get_saved_posts_db`: the rows from `offset` on, at most `limit`; the table is not changed. */
    method GetSavedPosts(offset: nat, limit: nat, fault: bool) returns (r: Result<seq<Post>, Status>)
      requires Valid()
      ensures fault ==> r == Failure(ServerError)
      ensures !fault ==> r == Success(Paging.Page(Listed(), offset, limit))
    {
      if fault {
        return Failure(ServerError);
      }
      var listed := InOrder(order, rows);
      r := Success(Paging.Page(listed, offset, limit));
    }

    /**
     * `delete_saved_post_db`: removes exactly the row with that id and
     * returns the id; 404 if absent, 500 if the database fails.
     */
    method DeleteSavedPost(id: string, fault: bool) returns (r: Result<string, Status>)
      requires Valid()
      modifies this
      ensures Valid()
      ensures fault ==> r == Failure(ServerError)
      ensures !fault && id !in old(rows) ==> r == Failure(NotFound)
      ensures !fault && id in old(rows) ==>
        r == Success(id) && rows == old(rows) - {id} && order == Without(old(order), id)
      ensures r.Failure? ==> rows == old(rows) && order == old(order)
    {
      if fault {
        return Failure(ServerError);
      }
      if id !in rows {
        return Failure(NotFound);
      }
      ghost var before := order;
      rows := rows - {id};
      order := Without(order, id);
      forall i | 0 <= i < |order|
        ensures order[i] in rows
      {
        assert order[i] in before;
      }
      r := Success(id);
    }

    /**
     * `patch_post_audio_db`: sets the row's audio URL to the supplied value
     * and changes nothing else; 404 if the id is absent, 500 if the
     * database fails.
     */
    method PatchPostAudio(id: string, audioFileUrl: Option<string>, fault: bool) returns (r: Result<Post, Status>)
      requires Valid()
      modifies this
      ensures Valid()
      ensures fault ==> r == Failure(ServerError)
      ensures !fault && id !in old(rows) ==> r == Failure(NotFound)
      ensures !fault && id in old(rows) ==>
        var row := old(rows)[id].(audioFileUrl := audioFileUrl);
        r == Success(row) && rows == old(rows)[id := row]
      ensures order == old(order)
      ensures r.Failure? ==> rows == old(rows)
    {
      if fault {
        return Failure(ServerError);
      }
      if id !in rows {
        return Failure(NotFound);
      }
      var row := rows[id].(audioFileUrl := audioFileUrl);
      rows := rows[id := row];
      r := Success(row);
    }

    /**
     * `use_post_db`: marks an unused row as used and changes nothing else;
     * 404 if the id is absent, 400 if the row is already used, 500 if the
     * database fails.
     */
    method UsePost(id: string, fault: bool) returns (r: Result<Post, Status>)
      requires Valid()
      modifies this
      ensures Valid()
      ensures fault ==> r == Failure(ServerError)
      ensures !fault && id !in old(rows) ==> r == Failure(NotFound)
      ensures !fault && id in old(rows) && old(rows)[id].used ==> r == Failure(BadRequest)
      ensures !fault && id in old(rows) && !old(rows)[id].used ==>
        var row := old(rows)[id].(used := true);
        r == Success(row) && rows == old(rows)[id := row]
      ensures order == old(order)
      ensures r.Failure? ==> rows == old(rows)
      ensures id in rows ==> (rows[id].used <==> old(rows)[id].used || r.Success?)
    {
      if fault {
        return Failure(ServerError);
      }
      if id !in rows {
        return Failure(NotFound);
      }
      if rows[id].used {
        return Failure(BadRequest);
      }
      var row := rows[id].(used := true);
      rows := rows[id := row];
      r := Success(row);
    }
  }

  /** The "used" flag is one-shot: a second use of the same id always fails. */
  method UseTwice(store: PostStore, id: string) returns (first: Result<Post, Status>, second: Result<Post, Status>)
    requires store.Valid()
    modifies store
    ensures store.Valid()
    ensures second.Failure?
    ensures first.Success? ==> second == Failure(BadRequest)
  {
    first := store.UsePost(id, false);
    second := store.UsePost(id, false);
  }
}
