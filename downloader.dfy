/** The deploy worker's S3 downloader (DeployService/utils/s3-downloader.js).
    The `ListObjectsV2` call is the input `listing`; the CloudFront fetch and
    file write for a key is the outcome `fetch(key)`. */
module Downloader {
  import opened Wrappers
  import opened Text
  import opened FileTree

  /** An entry of `listResponse.Contents`; `Key` may be missing. */
  datatype S3Object = S3Object(key: Option<string>)

  /** The listing call rejects, or answers with an optional `Contents`. */
  datatype ListOutcome = ListFailed(message: string) | Listed(contents: Option<seq<S3Object>>)

  /** The mkdir, GET and stream write for one key succeed, or one of them
      throws with a message. */
  datatype FetchOutcome = Fetched | FetchFailed(message: string)

  datatype DownloadResult = DownloadResult(success: bool, key: string, localPath: Option<string>, error: Option<string>)

  datatype Summary = Summary(totalFiles: nat, successful: nat, failed: nat, results: seq<DownloadResult>)

  // ---------------------------------------------------------------------
  // downloadFromCloudFront (DeployService/utils/s3-downloader.js:81-110)
  // ---------------------------------------------------------------------

  /** Never throws; a failure is reported in the result. */
  function DownloadFromCloudFront(key: string, localDir: string, outcome: FetchOutcome): (r: DownloadResult)
    ensures r.key == key
    ensures r.success <==> outcome.Fetched?
    ensures r.success <==> r.error.None?
    ensures r.success ==> r.localPath == Some(Join(localDir, key))
    ensures !r.success ==> r.localPath.None? && r.error == Some(outcome.message)
  {
    var localFilePath := Join(localDir, key);
    match outcome
    case Fetched => DownloadResult(true, key, Some(localFilePath), None)
    case FetchFailed(message) => DownloadResult(false, key, None, Some(message))
  }

  // ---------------------------------------------------------------------
  // downloadS3Folder (DeployService/utils/s3-downloader.js:25-76)
  // ---------------------------------------------------------------------

  /** `obj.Key && !obj.Key.endsWith('/')`: the empty key is falsy too. */
  predicate Downloadable(obj: S3Object) {
    obj.key.Some? && obj.key.value != "" && !EndsWith(obj.key.value, "/")
  }

  /** The `filter` of the listing, keeping order. */
  function FilterObjects(objs: seq<S3Object>): (r: seq<S3Object>)
    ensures |r| <= |objs|
    ensures forall i :: 0 <= i < |r| ==> Downloadable(r[i])
    ensures forall o :: o in r <==> o in objs && Downloadable(o)
  {
    if objs == [] then []
    else
      var rest := FilterObjects(objs[1..]);
      assert forall o :: o in objs <==> o == objs[0] || o in objs[1..];
      if Downloadable(objs[0]) then [objs[0]] + rest else rest
  }

  /** The filter keeps listing order: filtering a listing made of two parts
      filters each part and keeps the first part's objects first. */
  lemma {:induction false} FilterKeepsOrder(a: seq<S3Object>, b: seq<S3Object>)
    ensures FilterObjects(a + b) == FilterObjects(a) + FilterObjects(b)
    decreases |a|
  {
    if a == [] {
      assert a + b == b;
    } else {
      assert (a + b)[0] == a[0];
      assert (a + b)[1..] == a[1..] + b;
      FilterKeepsOrder(a[1..], b);
    }
  }

  /** The `map` callback for one kept object. */
  function DownloadObject(obj: S3Object, localDir: string, fetch: string -> FetchOutcome): (r: DownloadResult)
    ensures Downloadable(obj) ==> r.key == obj.key.value && (r.success <==> fetch(obj.key.value).Fetched?)
    ensures !Downloadable(obj) && (obj.key.None? || obj.key.value == "") ==> !r.success && r.key == "unknown"
  {
    if obj.key.None? || obj.key.value == "" then DownloadResult(false, "unknown", None, Some("No key found"))
    else DownloadFromCloudFront(obj.key.value, localDir, fetch(obj.key.value))
  }

  /** `Promise.all` over the mapped downloads: results in listing order. */
  function DownloadAll(objs: seq<S3Object>, localDir: string, fetch: string -> FetchOutcome): (r: seq<DownloadResult>)
    ensures |r| == |objs|
    ensures forall i :: 0 <= i < |objs| ==> r[i] == DownloadObject(objs[i], localDir, fetch)
  {
    seq(|objs|, i requires 0 <= i < |objs| => DownloadObject(objs[i], localDir, fetch))
  }

  /** `results.filter(r => r.success === want).length`. */
  function CountWhere(results: seq<DownloadResult>, want: bool): (n: nat)
    ensures n <= |results|
    ensures n == 0 <==> forall i :: 0 <= i < |results| ==> results[i].success != want
  {
    if results == [] then 0
    else (if results[0].success == want then 1 else 0) + CountWhere(results[1..], want)
  }

  /** Every result is counted exactly once, as a success or as a failure. */
  lemma {:induction false} CountsPartition(results: seq<DownloadResult>)
    ensures CountWhere(results, true) + CountWhere(results, false) == |results|
  {
    if results != [] {
      CountsPartition(results[1..]);
    }
  }

  const EmptySummary := Summary(0, 0, 0, [])

  /** `downloadS3Folder(prefix, localDir)` when the listing for `prefix` is
      `listing`; it rejects only when the listing does. */
  function DownloadS3Folder(localDir: string, listing: ListOutcome, fetch: string -> FetchOutcome): (r: Result<Summary, string>)
    ensures r.Failure? <==> listing.ListFailed?
    ensures listing.ListFailed? ==> r.error == listing.message
    ensures r.Success? ==> r.value.totalFiles == |r.value.results| == r.value.successful + r.value.failed
    ensures r.Success? ==> r.value.successful == CountWhere(r.value.results, true)
    ensures r.Success? ==> r.value.failed == CountWhere(r.value.results, false)
    ensures listing.Listed? && (listing.contents.None? || listing.contents.value == []) ==> r == Success(EmptySummary)
  {
    match listing
    case ListFailed(message) => Failure(message)
    case Listed(contents) =>
      if contents.None? || |contents.value| == 0 then Success(EmptySummary)
      else
        var files := FilterObjects(contents.value);
        var results := DownloadAll(files, localDir, fetch);
        CountsPartition(results);
        Success(Summary(|results|, CountWhere(results, true), CountWhere(results, false), results))
  }

  /** The keys a listing leads to download. */
  function DownloadKeys(contents: seq<S3Object>): (keys: seq<string>)
    ensures |keys| == |FilterObjects(contents)|
    ensures forall i :: 0 <= i < |keys| ==> Some(keys[i]) == FilterObjects(contents)[i].key
  {
    var files := FilterObjects(contents);
    seq(|files|, i requires 0 <= i < |files| => files[i].key.value)
  }

  /** One result per kept key, in listing order: the `'unknown'` branch is
      never taken, and the `i`-th result is the download of the `i`-th key. */
  lemma DownloadsFollowListing(localDir: string, contents: seq<S3Object>, fetch: string -> FetchOutcome)
    ensures var r := DownloadS3Folder(localDir, Listed(Some(contents)), fetch);
      r.Success? && |r.value.results| == |DownloadKeys(contents)| &&
      forall i :: 0 <= i < |DownloadKeys(contents)| ==>
        var key := DownloadKeys(contents)[i];
        r.value.results[i] == DownloadFromCloudFront(key, localDir, fetch(key)) &&
        r.value.results[i].key == key
  {
    var r := DownloadS3Folder(localDir, Listed(Some(contents)), fetch);
    if contents != [] {
      var files := FilterObjects(contents);
      forall i | 0 <= i < |files|
        ensures r.value.results[i] == DownloadFromCloudFront(files[i].key.value, localDir, fetch(files[i].key.value))
      {
        assert Downloadable(files[i]);
      }
    }
  }

  /** Exactly the keys that are present, non-empty and not folder markers
      are downloaded; folder markers ending in `/` never are. */
  lemma DownloadKeysExact(contents: seq<S3Object>, key: string)
    ensures key in DownloadKeys(contents) <==>
      S3Object(Some(key)) in contents && key != "" && !EndsWith(key, "/")
  {
    var files := FilterObjects(contents);
    var keys := DownloadKeys(contents);
    if key in keys {
      var i :| 0 <= i < |keys| && keys[i] == key;
      assert files[i] == S3Object(Some(key));
    }
    if S3Object(Some(key)) in contents && key != "" && !EndsWith(key, "/") {
      assert S3Object(Some(key)) in files;
      var i :| 0 <= i < |files| && files[i] == S3Object(Some(key));
      assert keys[i] == key;
    }
  }
}
