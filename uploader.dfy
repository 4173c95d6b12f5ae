/** The deploy worker's S3 uploader (DeployService/utils/s3-uploader.js): the
    walk of a build output, its content-type table, and the single, batch and
    directory uploads. The S3 `Upload` call is the parameter `put`, which
    tells for each request whether the object was stored (and where) or
    which error message the upload rejected with. */
module Uploader {
  import opened Wrappers
  import opened Text
  import opened NodePath
  import opened FileTree

  // ---------------------------------------------------------------------
  // getAllFiles (DeployService/utils/s3-uploader.js:108-125)
  // ---------------------------------------------------------------------

  /** The deploy walk passes over `.git` and `node_modules`. */
  const UploadSkip: set<string> := {".git", "node_modules"}

  method GetAllFiles(folderPath: string, entries: seq<Node>) returns (response: seq<string>)
    ensures response == Listing(UploadSkip, folderPath, entries)
    decreases entries
  {
    response := [];
    ghost var total := Listing(UploadSkip, folderPath, entries);
    var i := 0;
    while i < |entries|
      invariant 0 <= i <= |entries|
      invariant response + Listing(UploadSkip, folderPath, entries[i..]) == total
    {
      var file := entries[i];
      ListingStep(UploadSkip, folderPath, entries, i);
      ghost var rest := Listing(UploadSkip, folderPath, entries[i + 1..]);
      if file.name !in UploadSkip {
        var fullFilePath := Join(folderPath, file.name);
        match file
        case Dir(_, children) =>
          var sub := GetAllFiles(fullFilePath, children);
          assert (response + sub) + rest == response + (sub + rest);
          response := response + sub;
        case File(_) =>
          assert (response + [fullFilePath]) + rest == response + ([fullFilePath] + rest);
          response := response + [fullFilePath];
      }
      i := i + 1;
    }
    assert entries[|entries|..] == [];
  }

  /** A file is uploaded exactly when no directory on its way, at any depth,
      is `.git` or `node_modules`. */
  lemma UploadListingExact(entries: seq<Node>, p: seq<string>)
    ensures p in Paths(UploadSkip, entries) <==>
      FileAt(entries, p) && ".git" !in p && "node_modules" !in p
  {
    if p in Paths(UploadSkip, entries) {
      PathsSound(UploadSkip, entries, p);
    }
    if FileAt(entries, p) && ".git" !in p && "node_modules" !in p {
      PathsComplete(UploadSkip, entries, p);
    }
  }

  // ---------------------------------------------------------------------
  // getContentType (DeployService/utils/s3-uploader.js:127-143)
  // ---------------------------------------------------------------------

  const OctetStream := "application/octet-stream"

  const ContentTypes: map<string, string> := map[
    ".html" := "text/html",
    ".css" := "text/css",
    ".js" := "application/javascript",
    ".json" := "application/json",
    ".png" := "image/png",
    ".jpg" := "image/jpeg",
    ".jpeg" := "image/jpeg",
    ".gif" := "image/gif",
    ".pdf" := "application/pdf",
    ".txt" := "text/plain",
    ".zip" := "application/zip"
  ]

  function GetContentType(filePath: string): (t: string)
    ensures ToLower(Extname(filePath)) in ContentTypes ==> t == ContentTypes[ToLower(Extname(filePath))]
  {
    var ext := ToLower(Extname(filePath));
    if ext in ContentTypes then ContentTypes[ext] else OctetStream
  }

  /** Extensions outside the eleven-entry table, and only they, are sent as
      `application/octet-stream`. */
  lemma ContentTypeDefault(filePath: string)
    ensures GetContentType(filePath) == OctetStream <==> ToLower(Extname(filePath)) !in ContentTypes
  {
    assert OctetStream !in ContentTypes.Values;
  }

  lemma ContentTypeIgnoresCase(p: string)
    ensures GetContentType(ToLower(p)) == GetContentType(p)
  {
    ExtnameOfLower(p);
    ToLowerIdempotent(Extname(p));
  }

  // ---------------------------------------------------------------------
  // uploadSingleFile (DeployService/utils/s3-uploader.js:40-70)
  // ---------------------------------------------------------------------

  /** The parameters of one S3 `Upload`: bucket, key, the file streamed as
      the body, and its content type. */
  datatype PutRequest = PutRequest(bucket: string, key: string, source: string, contentType: string)

  /** How an upload ends: stored at a location, or rejected with a message
      (which also stands for the file being unreadable). */
  datatype PutOutcome = Stored(location: string) | PutFailed(message: string)

  datatype UploadResult = UploadResult(success: bool, key: string, location: Option<string>, error: Option<string>)

  function Request(bucket: string, filePath: string, s3Key: string): PutRequest {
    PutRequest(bucket, s3Key, filePath, GetContentType(filePath))
  }

  /** Never throws: every failure becomes a result with `success == false`. */
  function UploadSingleFile(bucket: string, filePath: string, s3Key: string,
                            put: PutRequest -> PutOutcome): (r: UploadResult)
    ensures r.key == s3Key
    ensures r.success <==> r.error.None?
    ensures r.success <==> put(Request(bucket, filePath, s3Key)).Stored?
    ensures r.success ==> r.location == Some(put(Request(bucket, filePath, s3Key)).location)
    ensures !r.success ==> r.location.None? && r.error == Some(put(Request(bucket, filePath, s3Key)).message)
  {
    match put(Request(bucket, filePath, s3Key))
    case Stored(location) => UploadResult(true, s3Key, Some(location), None)
    case PutFailed(message) => UploadResult(false, s3Key, None, Some(message))
  }

  // ---------------------------------------------------------------------
  // uploadMultipleFiles (DeployService/utils/s3-uploader.js:72-85)
  // ---------------------------------------------------------------------

  /** `uploads/${Date.now()}-${path.basename(file)}` for the clock reading `stamp`. */
  function BatchKey(stamp: nat, file: string): (key: string)
    ensures StartsWith(key, "uploads/")
    ensures EndsWith(key, "-" + Basename(file))
  {
    var key := "uploads/" + NatToString(stamp) + "-" + Basename(file);
    assert key[..8] == "uploads/";
    assert key[|key| - |"-" + Basename(file)|..] == "-" + Basename(file);
    key
  }

  /** Two files with the same name, in any two directories, uploaded within
      one clock tick get the same key, so the second overwrites the first. */
  lemma BatchKeyCollides(stamp: nat, dir1: string, dir2: string, name: string)
    requires name != [] && '/' !in name
    ensures BatchKey(stamp, dir1 + "/" + name) == BatchKey(stamp, dir2 + "/" + name)
  {
    BasenameOfChild(dir1, name);
    BasenameOfChild(dir2, name);
  }

  /** One result per file, in order; `stamps[i]` is the clock reading taken
      for `files[i]`. */
  method UploadMultipleFiles(bucket: string, files: seq<string>, stamps: seq<nat>,
                             put: PutRequest -> PutOutcome) returns (results: seq<UploadResult>)
    requires |stamps| == |files|
    ensures |results| == |files|
    ensures forall i :: 0 <= i < |files| ==>
      results[i] == UploadSingleFile(bucket, files[i], BatchKey(stamps[i], files[i]), put)
  {
    results := [];
    for i := 0 to |files|
      invariant |results| == i
      invariant forall k :: 0 <= k < i ==>
        results[k] == UploadSingleFile(bucket, files[k], BatchKey(stamps[k], files[k]), put)
    {
      var s3Key := BatchKey(stamps[i], files[i]);
      var result := UploadSingleFile(bucket, files[i], s3Key, put);
      results := results + [result];
    }
  }

  // ---------------------------------------------------------------------
  // uploadDirectory (DeployService/utils/s3-uploader.js:87-106)
  // ---------------------------------------------------------------------

  /** `path.relative(dirPath, file)` for a file below `dirPath`: the
      path that, joined back onto `dirPath`, gives the file again. */
  function Relative(dirPath: string, file: string): (r: string)
    ensures StartsWith(file, dirPath + "/") ==> dirPath + "/" + r == file && |r| < |file|
  {
    if StartsWith(file, dirPath + "/") then
      assert file == file[..|dirPath| + 1] + file[|dirPath| + 1..];
      file[|dirPath| + 1..]
    else file
  }

  /** `path.join(s3Prefix, relativePath).replace(/\\/g, '/')`. */
  function DirectoryKey(s3Prefix: string, relativePath: string): (key: string)
    ensures '\\' !in key
  {
    ReplaceChar(s3Prefix + "/" + relativePath, '\\', '/')
  }

  /** The upload of one walked file under its directory key. */
  function UploadUnder(bucket: string, dirPath: string, s3Prefix: string, file: string,
                       put: PutRequest -> PutOutcome): UploadResult
  {
    UploadSingleFile(bucket, file, DirectoryKey(s3Prefix, Relative(dirPath, file)), put)
  }

  /** What `uploadDirectory` returns for a directory holding `entries`. */
  function DirectoryUploads(bucket: string, dirPath: string, s3Prefix: string,
                            entries: seq<Node>, put: PutRequest -> PutOutcome): (r: seq<UploadResult>)
    ensures |r| == |Listing(UploadSkip, dirPath, entries)|
    ensures forall i :: 0 <= i < |r| ==>
      r[i] == UploadUnder(bucket, dirPath, s3Prefix, Listing(UploadSkip, dirPath, entries)[i], put)
  {
    var files := Listing(UploadSkip, dirPath, entries);
    seq(|files|, i requires 0 <= i < |files| => UploadUnder(bucket, dirPath, s3Prefix, files[i], put))
  }

  lemma PrefixGrows(s: seq<UploadResult>, i: nat)
    requires i < |s|
    ensures s[..i + 1] == s[..i] + [s[i]]
  {
  }

  /** `uploadDirectory(dirPath, s3Prefix, id)` when `dirPath` holds `tree`
      (`None`: the directory does not exist and `readdirSync` throws) and the
      awaited `connect()` of its log client succeeds exactly when
      `logConnects` holds. The walk comes first, then the connect, then the
      uploads. */
  method UploadDirectory(bucket: string, dirPath: string, s3Prefix: string,
                         tree: Option<seq<Node>>, logConnects: bool, put: PutRequest -> PutOutcome)
    returns (r: Result<seq<UploadResult>, string>)
    ensures tree.None? ==> r == Failure("ENOENT")
    ensures tree.Some? && !logConnects ==> r == Failure("ECONNREFUSED")
    ensures tree.Some? && logConnects ==> r == Success(DirectoryUploads(bucket, dirPath, s3Prefix, tree.value, put))
  {
    if tree.None? {
      return Failure("ENOENT");
    }
    var files := GetAllFiles(dirPath, tree.value);
    if !logConnects {
      return Failure("ECONNREFUSED");
    }
    ghost var uploads := DirectoryUploads(bucket, dirPath, s3Prefix, tree.value, put);
    assert |uploads| == |files|;
    var results := [];
    for i := 0 to |files|
      invariant results == uploads[..i]
    {
      var relativePath := Relative(dirPath, files[i]);
      var s3Key := DirectoryKey(s3Prefix, relativePath);
      var result := UploadSingleFile(bucket, files[i], s3Key, put);
      assert result == UploadUnder(bucket, dirPath, s3Prefix, files[i], put) == uploads[i];
      PrefixGrows(uploads, i);
      results := results + [result];
    }
    assert uploads[..|files|] == uploads;
    return Success(results);
  }

  lemma RelativeOfRendered(dirPath: string, segs: seq<string>)
    requires segs != []
    ensures Relative(dirPath, Render(dirPath, segs)) == JoinWith(segs, '/')
  {
    RenderJoins(dirPath, segs);
    var full := Render(dirPath, segs);
    assert full[..|dirPath + "/"|] == dirPath + "/";
  }

  /** One upload per file of the walk, in walk order, and the key of the
      `i`-th is the prefix, `/`, and the file's path below `dirPath`. */
  lemma DirectoryUploadsFollowTree(bucket: string, dirPath: string, s3Prefix: string,
                                   entries: seq<Node>, put: PutRequest -> PutOutcome)
    ensures |DirectoryUploads(bucket, dirPath, s3Prefix, entries, put)| == |Paths(UploadSkip, entries)|
    ensures forall i :: 0 <= i < |Paths(UploadSkip, entries)| ==>
      DirectoryUploads(bucket, dirPath, s3Prefix, entries, put)[i].key
        == DirectoryKey(s3Prefix, JoinWith(Paths(UploadSkip, entries)[i], '/'))
  {
    ListingRendersPaths(UploadSkip, dirPath, entries);
    var ps := Paths(UploadSkip, entries);
    forall i | 0 <= i < |ps|
      ensures Relative(dirPath, Listing(UploadSkip, dirPath, entries)[i]) == JoinWith(ps[i], '/')
    {
      PathsSound(UploadSkip, entries, ps[i]);
      RelativeOfRendered(dirPath, ps[i]);
    }
  }
}
