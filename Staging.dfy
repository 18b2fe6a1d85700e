/**
 * Staging of downloaded videos to the storage bucket
 * (backend/bucket_upload.py). The directory listing and the storage
 * client are oracles: the listing names every local file once, in
 * whatever order the operating system gives, or is absent when the
 * download directory is missing; the upload of one file either succeeds
 * or raises.
 */
module Staging {
  import opened Wrappers
  import opened Text

  const DefaultBucket := "yt-videos-bucket"
  /** The default `gcs_subdir`; `upload_downloaded_files` never overrides it. */
  const VideosDir := "videos"

  datatype UploadError = MissingLocalFile | UploadRejected | MissingDownloadDir

  function BlobPath(subdir: string, fileName: string): string {
    subdir + "/" + fileName
  }

  /** The durable reference returned for an uploaded file. */
  function GcsPath(bucket: string, subdir: string, fileName: string): string {
    "gs://" + bucket + "/" + BlobPath(subdir, fileName)
  }

  /** Within one bucket and directory, distinct files get distinct references. */
  lemma GcsPathInjective(bucket: string, subdir: string, f1: string, f2: string)
    requires GcsPath(bucket, subdir, f1) == GcsPath(bucket, subdir, f2)
    ensures f1 == f2
  {
    var prefix := "gs://" + bucket + "/" + subdir + "/";
    assert GcsPath(bucket, subdir, f1) == prefix + f1;
    assert GcsPath(bucket, subdir, f2) == prefix + f2;
    assert (prefix + f1)[|prefix|..] == f1;
    assert (prefix + f2)[|prefix|..] == f2;
  }

  /**
   * The references `upload_downloaded_files` collects for `files`, taken in
   * order: one per file whose upload the storage service accepts.
   */
  function StagedPaths(bucket: string, files: seq<string>, accepts: string -> bool): seq<string> {
    if files == [] then []
    else (if accepts(files[0]) then [GcsPath(bucket, VideosDir, files[0])] else [])
         + StagedPaths(bucket, files[1..], accepts)
  }

  /** Staging two listings one after the other collects the two path lists in order. */
  lemma {:induction false} StagedPathsAppend(bucket: string, a: seq<string>, b: seq<string>, accepts: string -> bool)
    ensures StagedPaths(bucket, a + b, accepts) == StagedPaths(bucket, a, accepts) + StagedPaths(bucket, b, accepts)
  {
    if a != [] {
      assert (a + b)[1..] == a[1..] + b;
      StagedPathsAppend(bucket, a[1..], b, accepts);
    } else {
      assert a + b == b;
    }
  }

  /**
   * At most one reference per listed file, and exactly one per file when, and
   * only when, every upload succeeds.
   */
  lemma {:induction false} StagedPathsLength(bucket: string, files: seq<string>, accepts: string -> bool)
    ensures |StagedPaths(bucket, files, accepts)| <= |files|
    ensures |StagedPaths(bucket, files, accepts)| == |files| <==> forall i :: 0 <= i < |files| ==> accepts(files[i])
  {
    if files != [] {
      StagedPathsLength(bucket, files[1..], accepts);
      if forall i :: 0 <= i < |files| ==> accepts(files[i]) {
        assert accepts(files[0]);
        assert forall i :: 0 <= i < |files| - 1 ==> accepts(files[1..][i]) by {
          forall i | 0 <= i < |files| - 1 ensures accepts(files[1..][i]) {
            assert files[1..][i] == files[i + 1];
          }
        }
      } else {
        var j :| 0 <= j < |files| && !accepts(files[j]);
        if j > 0 {
          assert files[1..][j - 1] == files[j];
        }
      }
    }
  }

  /**
   * A reference is collected exactly when it is the path of a listed file
   * whose upload succeeded.
   */
  lemma {:induction false} StagedPathsMembers(bucket: string, files: seq<string>, accepts: string -> bool, p: string)
    ensures p in StagedPaths(bucket, files, accepts)
        <==> exists i :: 0 <= i < |files| && accepts(files[i]) && p == GcsPath(bucket, VideosDir, files[i])
  {
    if files != [] {
      StagedPathsMembers(bucket, files[1..], accepts, p);
      if exists i :: 0 <= i < |files| - 1 && accepts(files[1..][i]) && p == GcsPath(bucket, VideosDir, files[1..][i]) {
        var i :| 0 <= i < |files| - 1 && accepts(files[1..][i]) && p == GcsPath(bucket, VideosDir, files[1..][i]);
        assert files[1..][i] == files[i + 1];
      }
      if i :| 0 <= i < |files| && accepts(files[i]) && p == GcsPath(bucket, VideosDir, files[i]) {
        if i > 0 {
          assert files[1..][i - 1] == files[i];
        }
      }
    }
  }

  /** When every upload succeeds, reference `i` is the path of listed file `i`. */
  lemma {:induction false} AllAcceptedPaths(bucket: string, files: seq<string>, accepts: string -> bool)
    requires forall i :: 0 <= i < |files| ==> accepts(files[i])
    ensures |StagedPaths(bucket, files, accepts)| == |files|
    ensures forall i :: 0 <= i < |files| ==> StagedPaths(bucket, files, accepts)[i] == GcsPath(bucket, VideosDir, files[i])
  {
    if files != [] {
      assert forall i :: 0 <= i < |files| - 1 ==> files[1..][i] == files[i + 1];
      AllAcceptedPaths(bucket, files[1..], accepts);
    }
  }

  /** The local download directory and the bucket's stored objects. */
  class StagingArea {
    /** Names of the files in the local download directory. */
    var localFiles: set<string>
    /** References (`gs://bucket/dir/name`) of the objects stored in the bucket. */
    var stored: set<string>

    constructor (files: set<string>)
      ensures localFiles == files && stored == {}
    {
      localFiles := files;
      stored := {};
    }

    /**
     * `upload_file_to_bucket`: uploads one local file; the local copy is
     * removed only after the upload succeeded. `accepted` is the storage
     * service's verdict on the upload (retries and timeouts included).
     */
    method UploadFileToBucket(fileName: string, bucketName: string, subdir: string, accepted: bool)
      returns (r: Result<string, UploadError>)
      modifies this
      ensures fileName in old(localFiles) && accepted ==>
        && r == Success(GcsPath(bucketName, subdir, fileName))
        && localFiles == old(localFiles) - {fileName}
        && stored == old(stored) + {GcsPath(bucketName, subdir, fileName)}
      ensures fileName !in old(localFiles) ==> r == Failure(MissingLocalFile)
      ensures fileName in old(localFiles) && !accepted ==> r == Failure(UploadRejected)
      ensures r.Failure? ==> localFiles == old(localFiles) && stored == old(stored)
    {
      if fileName !in localFiles {
        return Failure(MissingLocalFile);
      }
      if !accepted {
        return Failure(UploadRejected);
      }
      var path := GcsPath(bucketName, subdir, fileName);
      stored := stored + {path};
      localFiles := localFiles - {fileName};
      r := Success(path);
    }

    /**
     * `upload_downloaded_files`: tries every listed file once, in listing
     * order; a failed upload is logged and skipped. Returns the references of
     * the uploads that succeeded, in listing order. `listing` is what
     * `os.listdir` gives, `None` when the download directory does not exist:
     * that call is outside the `try`, so the error escapes and nothing is
     * uploaded.
     */
    method UploadDownloadedFiles(listing: Option<seq<string>>, bucketName: string, accepts: string -> bool)
      returns (r: Result<seq<string>, UploadError>)
      requires listing.Some? ==> NoDuplicates(listing.value)
      requires listing.Some? ==> forall f :: f in listing.value <==> f in localFiles
      modifies this
      ensures listing.None? ==> r == Failure(MissingDownloadDir) && localFiles == old(localFiles) && stored == old(stored)
      ensures listing.Some? ==> r == Success(StagedPaths(bucketName, listing.value, accepts))
      ensures listing.Some? ==> localFiles == set f | f in old(localFiles) && !accepts(f)
      ensures listing.Some? ==>
        stored == old(stored) + set f | f in listing.value && accepts(f) :: GcsPath(bucketName, VideosDir, f)
    {
      if listing.None? {
        return Failure(MissingDownloadDir);
      }
      var uploads := UploadListed(listing.value, bucketName, accepts);
      r := Success(uploads);
    }

    /** The loop of `upload_downloaded_files` over an existing directory's listing. */
    method UploadListed(listing: seq<string>, bucketName: string, accepts: string -> bool)
      returns (uploads: seq<string>)
      requires NoDuplicates(listing)
      requires forall f :: f in listing <==> f in localFiles
      modifies this
      ensures uploads == StagedPaths(bucketName, listing, accepts)
      ensures localFiles == set f | f in old(localFiles) && !accepts(f)
      ensures stored == old(stored) + set f | f in listing && accepts(f) :: GcsPath(bucketName, VideosDir, f)
    {
      uploads := [];
      var i := 0;
      while i < |listing|
        invariant 0 <= i <= |listing|
        invariant uploads == StagedPaths(bucketName, listing[..i], accepts)
        invariant localFiles == set f | f in old(localFiles) && !(f in listing[..i] && accepts(f))
        invariant stored == old(stored) + set f | f in listing[..i] && accepts(f) :: GcsPath(bucketName, VideosDir, f)
      {
        var name := listing[i];
        assert name !in listing[..i];
        assert listing[..i + 1] == listing[..i] + [name];
        StagedPathsAppend(bucketName, listing[..i], [name], accepts);
        var r := UploadFileToBucket(name, bucketName, VideosDir, accepts(name));
        if r.Success? {
          uploads := uploads + [r.value];
        }
        i := i + 1;
      }
      assert listing[..i] == listing;
    }
  }
}
