# Static-site hosting pipeline and asset gateway, modelled in Dafny

The system turns a git repository into a static site served on `<id>.<domain>`.

- **Intake.** The intake service's utilities generate a five-character deployment id (`generate`), walk a cloned source tree (`getAllFiles`), and push the id onto the Redis list `build-queue` and mark it `uploaded` in the Redis hash `status` (`publishBuildStatus`). These three are modelled as the intended hand-over to the worker. The shipped entry script UploadService/index.js calls none of them: its `/deploy` route is commented out and it only uploads `./output` under a fixed prefix.
- **Worker.** The worker pops ids from the other end of the list. For each id it downloads the sources from S3, builds them and uploads the build output under `<id>/dist/`. Then it marks the id `deployed`.
- **Gateway.** The asset gateway maps a request on `<id>.<domain>/<path>` to the storage key `<id>/dist/<sanitised path>`. It fetches that key from the CDN and answers with the object, or with a status taken from an error ladder.

## Modules

| module | file | what it is |
|---|---|---|
| `Gateway` | `gateway.dfy` | The request handler, as pure functions plus header- and error-building methods. |
| `Store` | `store.dfy` | A class `Redis` holding `buildQueue: seq<string>` (head first) and `status: map<string,string>`. Its methods `LPush`, `BRPop` and `HSet` update those fields in place. |
| `Intake` | `intake.dfy` | `publishBuildStatus` as a module-level method taking `r: Redis`, plus the function `Publish` that specifies it. |
| `Worker` | `worker.dfy` | `handleJob`, one loop pass and the `main` pop loop as module-level methods taking `r: Redis`, plus the functions `AfterJob`, `Step` and `Run` that specify them. |
| `Uploader` | `uploader.dfy` | The S3 uploader: its walk, its content-type table, and the single, batch and directory uploads. |
| `Downloader` | `downloader.dfy` | The S3 downloader: the listing filter, the downloads, and the summary counts. |
| `SourceUtils` | `sourceutils.dfy` | The intake service's walk and its id generator. |
| `FileTree` | `filetree.dfy` | A directory tree as a datatype, and the depth-first listing both walks compute. |
| `NodePath` | `nodepath.dfy` | Node's `path.basename` and `path.extname`. |
| `Text` | `text.dfy` | JavaScript string operations: `split`, `join`, ASCII `toLowerCase`, number printing and replace. |
| `Wrappers` | `wrappers.dfy` | Defines `Option` and `Result`. |

External effects are turned into inputs:

- **Gateway:** the CDN answer is the datatype `Upstream`.
- **Downloads:** the S3 listing is a `ListOutcome`, and each CloudFront download is a `fetch(key)` outcome.
- **Uploads:** each S3 upload is a `put(request)` outcome.
- **Build:** the build is its exit code.
- **File system:** each directory is a `FileTree.Node` tree.
- **Randomness:** `Math.random()` draws are supplied reals in `[0, 1)`.
- **Clock:** `Date.now()` readings are supplied numbers.
- **Redis:** a failing intake call is a `PublishFault`. The intake service's submissions and the worker's pops are interleaved as a sequence of ticks. A `Submitted` tick is one `publishBuildStatus` call, a `Popped` tick is one `brPop` answer and a `PopFails` tick is a rejected `brPop`.

### Behaviour worth knowing

- **Gateway routing.** Only `/` and paths ending in `/` get `index.html` appended. Every other path, such as `/dashboard/settings`, is fetched literally and can 404. No single-page-application fallback exists.
- **Gateway caching.** The default `Cache-Control` is `public, max-age=3600` for every file.
- **Job states.** Only `uploaded` and `deployed` are ever written. A failed job keeps its old status.
- **Id alphabet.** The generator's alphabet has 35 symbols: `1`–`9` and `a`–`z`, with no `0`.
- **Worker resilience.** A failing job does not stop the worker loop. A failing `brPop` does, because of the finding below.

## Model

| member | source | states |
|---|---|---|
| Gateway.IsValidId | RequestService/index.js:69-73 | Holds exactly for strings of length 3 to 50 whose every character is an ASCII letter, a digit, `-` or `_`. |
| Gateway.TenantId | RequestService/index.js:150-158 | The host yields no tenant exactly when it has no `.`. Otherwise the tenant is the text before the first `.`. |
| Text.Split | RequestService/index.js:150 | `split` yields at least one part, and no part contains the separator. |
| Text.SplitHasTwoParts | RequestService/index.js:150-152 | `split` yields at least two parts exactly when the separator occurs. |
| Gateway.SanitizePath | RequestService/index.js:80-83 | The result never contains `..` or `//`. |
| Gateway.SanitizeIdempotent | RequestService/index.js:80-83 | Sanitising twice gives the same path as sanitising once. |
| Gateway.SanitizeKeepsSignificant | RequestService/index.js:80-83 | Sanitising only removes `.` and `/` characters. Every other character survives, in order. |
| Gateway.SanitizeKeepsChar | RequestService/index.js:80-83 | Any character other than `.` and `/` occurs in the sanitised path exactly when it occurs in the input. |
| Gateway.RemoveDotPairsIdentity | RequestService/index.js:82 | A path without `..` is left unchanged by the first `replace`. |
| Gateway.CollapseSlashesIdentity | RequestService/index.js:82 | A path without `//` is left unchanged by the second `replace`. |
| Gateway.ObjectPath | RequestService/index.js:169-177 | The object path never contains `..` or `//`. |
| Gateway.ObjectPathShape | RequestService/index.js:172-177 | A path ending in `/` asks for the sanitised path plus `index.html`. Any other path asks for itself, sanitised, without one leading `/`. |
| Gateway.DirectoryIsIndexHtml | RequestService/index.js:172-177 | A directory path asks for a file ending in `index.html`. Its derived content type, used only when the CDN sends no Content-Type, is `text/html; charset=utf-8`. |
| Gateway.RootIsIndexHtml | RequestService/index.js:172-177 | `/` asks for `index.html`. Its derived content type, used only when the CDN sends no Content-Type, is `text/html; charset=utf-8`. |
| Gateway.StorageKey | RequestService/index.js:180 | The key starts with `<id>/dist/`, and the rest of it is the object path. |
| Gateway.StorageKeyConfined | RequestService/index.js:177-180 | For a valid id, every storage key starts with `<id>/dist/` and contains no `..`, whatever the request path. |
| Gateway.GetContentType | RequestService/index.js:18-61 | A path whose lower-cased extension is in the table gets that table entry. |
| Gateway.ContentTypeDefault | RequestService/index.js:18-61 | The result is `application/octet-stream` exactly when the lower-cased extension is not in the 31-entry table. |
| Gateway.ContentTypeIgnoresCase | RequestService/index.js:18-19 | Lower-casing the path does not change its content type, so `.HTML` and `.html` agree. |
| NodePath.Basename | DeployService/utils/s3-uploader.js:76 | The base name contains no `/`. |
| NodePath.Extname | RequestService/index.js:19 | The extension is empty, or it starts with `.` and contains no `/`. |
| NodePath.ExtnameOfLower | RequestService/index.js:19 | The extension of the lower-cased path is the lower-cased extension, including the `.htaccess`-style and `..` cases. |
| Gateway.SuccessHeaders | RequestService/index.js:201-230 | Content-Type is the upstream value or else the derived type. Content-Length is the upstream value or else the body length. Cache-Control is the upstream value or else `public, max-age=3600`. ETag, Last-Modified and Content-Encoding are copied exactly when present. ACAO is `*`. The map passed to `res.set` holds no other header. |
| Gateway.ErrorResponse | RequestService/index.js:238-305 | An HTTP 404 gives 404, 403 gives 403, 500 and above give 503, and any other status is passed through. `ECONNABORTED` gives 504, `ENOTFOUND` or `ECONNREFUSED` gives 503, and anything else gives 500. The body is JSON, with the exact 404 and 403 diagnostics. |
| Gateway.HandleRequest | RequestService/index.js:146-305 | A host without `.` gets 400, and so does an invalid first label; in both cases nothing is fetched. Otherwise the fetched key is `StorageKey(id, path)`. A successful fetch gives 200 with the forwarded or default headers. A failed fetch goes down the error ladder, and the 404 body names the fetched URL. |
| SourceUtils.GetAllFiles | UploadService/utils/utils.js:4-22 | Returns exactly the depth-first listing of the tree that skips `.git`. |
| SourceUtils.SourceListingExact | UploadService/utils/utils.js:9-19 | A file is listed exactly when no segment of its path is `.git`; `node_modules` is walked. |
| SourceUtils.NodeModulesWalked | UploadService/utils/utils.js:9-12 | In a tree holding `.git/HEAD` and `node_modules/a.js`, only the second is listed. |
| FileTree.ListingStep | UploadService/utils/utils.js:8-20 | One `forEach` step: a skipped entry adds nothing, a file adds its joined path, and a directory adds its own listing. |
| FileTree.ListingRendersPaths | DeployService/utils/s3-uploader.js:108-125 | The listing is the rendering of the segment paths, in the same order. |
| FileTree.PathsSound | DeployService/utils/s3-uploader.js:111-124 | Every listed path leads to a file, never to a directory, and passes through no skipped name. |
| FileTree.PathsComplete | DeployService/utils/s3-uploader.js:111-124 | Every file reachable without passing a skipped name is listed. |
| FileTree.PathsDistinct | DeployService/utils/s3-uploader.js:111-124 | With distinct sibling names, no segment path is listed twice. |
| FileTree.ListingDistinct | DeployService/utils/s3-uploader.js:111-124 | With distinct, slash-free sibling names, no path string is listed twice. |
| SourceUtils.Generate | UploadService/utils/utils.js:26-34 | Returns five characters. The `k`-th is `subset[floor(draw_k * 35)]`. The id passes `Gateway.IsValidId`. |
| SourceUtils.Pick | UploadService/utils/utils.js:31 | `floor(r * 35)` lies in `[0, 35)` for every `r` in `[0, 1)`. |
| SourceUtils.SubsetShape | UploadService/utils/utils.js:27 | The alphabet has 35 distinct symbols, each a digit `1`–`9` or a lower-case letter. |
| Uploader.GetAllFiles | DeployService/utils/s3-uploader.js:108-125 | Returns exactly the depth-first listing of the tree that skips `.git` and `node_modules`. |
| Uploader.UploadListingExact | DeployService/utils/s3-uploader.js:112-115 | A file is uploaded exactly when no segment of its path, at any depth, is `.git` or `node_modules`. |
| Uploader.GetContentType | DeployService/utils/s3-uploader.js:127-143 | A path whose lower-cased extension is in the table gets that table entry. |
| Uploader.ContentTypeDefault | DeployService/utils/s3-uploader.js:127-143 | The result is `application/octet-stream` exactly when the lower-cased extension is not in the 11-entry table. |
| Uploader.ContentTypeIgnoresCase | DeployService/utils/s3-uploader.js:127-128 | Lower-casing the path does not change its content type. |
| Uploader.UploadSingleFile | DeployService/utils/s3-uploader.js:40-70 | Never throws. The result carries the input key. `success` holds exactly when the upload stored the object, and exactly when no error is returned. A success carries the location; a failure carries the message. |
| Uploader.BatchKey | DeployService/utils/s3-uploader.js:76-77 | Every key starts with `uploads/` and ends with `-` followed by the file's basename. |
| Uploader.BatchKeyCollides | DeployService/utils/s3-uploader.js:76-77 | Two same-named files in different directories, uploaded in the same millisecond, get the same key. |
| Uploader.UploadMultipleFiles | DeployService/utils/s3-uploader.js:72-85 | One result per input file, in input order. The `i`-th result is the upload of `files[i]` under its batch key. |
| Uploader.DirectoryKey | DeployService/utils/s3-uploader.js:97 | No key contains `\`. |
| Uploader.UploadDirectory | DeployService/utils/s3-uploader.js:87-106 | A missing directory makes it throw, and so does a refused `connect()` of its Redis log client. Otherwise it returns one upload per walked file, in walk order, each under `prefix/relative path` with `\` replaced by `/`. |
| Uploader.DirectoryUploadsFollowTree | DeployService/utils/s3-uploader.js:95-105 | The number of uploads equals the number of files in the tree. The `i`-th key is the prefix, `/`, and the `i`-th file's segments joined with `/`. |
| Uploader.Relative | DeployService/utils/s3-uploader.js:96 | For a file below the directory, the directory, `/` and the result give back the file, and the result is shorter than the file. |
| Uploader.RelativeOfRendered | DeployService/utils/s3-uploader.js:96 | `path.relative` of a walked file is its segments joined with `/`. |
| Downloader.DownloadFromCloudFront | DeployService/utils/s3-downloader.js:81-110 | Never throws. The result carries its key. A success carries the local path `join(localDir, key)`; a failure carries the message and no path. |
| Downloader.FilterObjects | DeployService/utils/s3-downloader.js:48-50 | Keeps exactly the objects with a present, non-empty key that does not end in `/`, in listing order. |
| Downloader.FilterKeepsOrder | DeployService/utils/s3-downloader.js:48-50 | The filter keeps listing order: filtering two consecutive parts of a listing gives the kept objects of the first part, then those of the second. |
| Downloader.DownloadObject | DeployService/utils/s3-downloader.js:53-58 | A kept object is downloaded under its own key and succeeds exactly when its fetch does. An object without a key gives a failure with key `unknown`. |
| Downloader.CountWhere | DeployService/utils/s3-downloader.js:63-64 | The count is at most the number of results, and it is zero exactly when no result has the wanted outcome. |
| Downloader.DownloadS3Folder | DeployService/utils/s3-downloader.js:25-76 | Rejects exactly when the listing does, with the listing's error. An absent or empty listing gives `{0, 0, 0, []}`. `successful` counts the successes and `failed` the failures among the results. `totalFiles == results.length == successful + failed` always holds. |
| Downloader.CountsPartition | DeployService/utils/s3-downloader.js:63-64 | Each result is counted once: as a success or as a failure. |
| Downloader.DownloadsFollowListing | DeployService/utils/s3-downloader.js:53-61 | One result per kept key, in listing order. The `'unknown'` branch is never taken. |
| Downloader.DownloadKeysExact | DeployService/utils/s3-downloader.js:48-50 | A key is downloaded exactly when it is listed, non-empty and does not end in `/`. |
| Store.Redis.LPush | UploadService/utils/redisPublisher.js:9 | The id goes onto the head. The waiting ids, oldest first, gain it at the end. The status table is unchanged. |
| Store.Redis.BRPop | DeployService/index.js:33-36 | Takes the tail element, which is the oldest waiting id. The status table is unchanged. |
| Store.Redis.HSet | DeployService/index.js:69 | Writes one field of `status`. The queue is unchanged. |
| Intake.PublishBuildStatus | UploadService/utils/redisPublisher.js:3-21 | Never rejects. The new state is `Publish(old state, id, fault)`. |
| Intake.Publish | UploadService/utils/redisPublisher.js:3-21 | At most one push of the id and at most one write of `status[id] := "uploaded"`. The write happens only after the push. |
| Intake.PublishQueuesNewest | UploadService/utils/redisPublisher.js:9 | A publish that gets past the push adds exactly one entry, the newest, even for an id already queued. A publish that fails before the push leaves the queue as it was. |
| Intake.PublishStatus | UploadService/utils/redisPublisher.js:9-13 | Only `status[id]` changes, and only to `uploaded`. It changes only when the push has happened. |
| Worker.BuildProject | DeployService/utils/buildProject.js:21-27 | The build resolves exactly when the exit code is 0. |
| Worker.JobSucceedsExactly | DeployService/index.js:56-71 | A job gets through exactly when the listing answers, the build exits with 0, a `dist` directory exists and the uploader's Redis log client connects. Failed file downloads and failed uploads do not matter. |
| Worker.AfterJob | DeployService/index.js:54-82 | Only `status[id]` can change. It becomes `deployed` when the job gets through; otherwise the table is unchanged. |
| Worker.HandleJob | DeployService/index.js:54-84 | Never throws and leaves the queue alone. It writes `status[id] := "deployed"` exactly when download, build and upload all finish, the upload including the connect of its log client. Otherwise the status is unchanged. |
| Worker.DeployedDespiteFailedUploads | DeployService/index.js:64-69 | A job whose only upload failed is still marked `deployed`. |
| Worker.Step | DeployService/index.js:31-44 | One tick pops at most one id or pushes at most one id. |
| Worker.Run | DeployService/index.js:25-52 | A run pops and pushes at most one id per tick. Only the written loop (`retry == false`) can end on an error. |
| Worker.TakeTick | DeployService/index.js:33-44 | One pass of the loop body, or one submission, changes the Redis state exactly as `Step` says and reports the id it pops or pushes. |
| Worker.RunWorker | DeployService/index.js:25-52 | The popped and pushed ids, the crash flag and the final queue and status are those of `Run`. This holds both for the loop as written (`retry == false`) and for the corrected loop (`retry == true`). |
| Worker.StepIsFifo | DeployService/index.js:33-36 | Over one tick, the waiting ids plus the id pushed equal the id popped plus the ids still waiting. |
| Worker.RunIsFifo | DeployService/index.js:33-36 | The ids waiting at the start, followed by the ids submitted during the run, are the popped ids followed by the ids still waiting. |
| Worker.RunPopsPrefix | DeployService/index.js:33-36 | The popped ids are a prefix of the ids waiting at the start followed by the ids submitted during the run. |
| Worker.Submissions | UploadService/utils/redisPublisher.js:9 | A sequence of ticks pushes at most one id per tick. |
| Worker.RunSeesAllSubmissions | UploadService/utils/redisPublisher.js:9 | A run that does not die pushes exactly the ids its `Submitted` ticks push, in order. |
| Worker.HandledInSubmissionOrder | DeployService/index.js:31-44 | In the corrected loop, the popped ids are a prefix of the ids waiting at the start followed by every id submitted, in submission order. |
| Worker.SubmissionOrder | DeployService/index.js:33-44 | Two sites submitted one after the other through `publishBuildStatus` are popped in that order. |
| Worker.DrainTwo | DeployService/index.js:33-36 | Two pops from a queue holding `b` then `a`, newest first, take `a` and then `b`. |
| Worker.StepStatusEffect | DeployService/index.js:69 | One tick changes only the status of the id it pops or pushes, and writes only `uploaded` or `deployed`. |
| Worker.RunStatusEffect | DeployService/index.js:69 | Only popped or submitted ids change status. Every entry keeps its old value or becomes `uploaded` or `deployed`. |
| Worker.PopFailureStopsLoop | DeployService/index.js:45-50 | As written, once `brPop` rejects, the loop ends and nothing more is popped. |
| Worker.PopFailureStrandsJob | DeployService/index.js:45-50 | With `site1` queued, one failed pop leaves it `uploaded` and waiting. The loop that survives its catch block deploys it. |
| Worker.PopFailureRetried | DeployService/index.js:45-50 | In the corrected loop, a rejected `brPop` costs only its own iteration, and the loop never dies. |
| Worker.UploadKeyIsServingKey | DeployService/index.js:64 | A build file at a clean path `a/b/c` is uploaded under the exact key the gateway reads for `/a/b/c`. |
| Worker.DeployedFilesServed | DeployService/index.js:64 | The `i`-th upload of a deployment is the storage key of the request path formed from the `i`-th walked file, when that path has no `..` and no name on it contains `\`. |
| Worker.BackslashNameNotServed | DeployService/utils/s3-uploader.js:97 | For every relative path containing `\`, the upload key differs from the key the gateway reads for `/` plus that path. For example, `a\b.html` is uploaded under `<id>/dist/a/b.html` but read from `<id>/dist/a\b.html`. |

## Left out

- Express wiring is not modelled: the CORS middleware, `app.listen`, and the trailing 404 and error handlers.
- Gateway.HandleRequest: `app.get('/health')` is registered before the catch-all handler, so `GET <id>.<domain>/health` gets the health JSON and nothing is fetched; the model's "otherwise the fetched key is `StorageKey(id, path)`" does not hold for that path. `app.get('/favicon.ico')` is registered after the catch-all and is never reached, so the model, which lets the catch-all handle it, agrees with the code there.
- The forwarded request headers of the CDN fetch, its 30-second timeout and the byte body are not modelled. The body is only its length.
- Gateway.ErrorResponse: the `suggestion`, `suggestions` and `statusText` fields of the JSON bodies are not modelled, and neither is the development-mode error message.
- Lower-casing is ASCII only. JavaScript's `toLowerCase` also folds non-ASCII letters.
- FileTree.Join: `path.join` is modelled as plain concatenation with `/`. It does not normalise `./`, `..` or repeated slashes. Entry names from a directory contain none of these, but a `./` prefix of the walked root is kept.
- Downloader.DownloadFromCloudFront: `path.join(localDir, key)` is plain concatenation with `/`. Its normalisation of the S3 key is not modelled, so a key such as `x/../../y`, which `path.join` resolves outside `localDir`, is not recognised as escaping it.
- Gateway.StorageKeyConfined: the request path is the raw `req.path`, still percent-encoded. Neither percent-decoding nor the dot-segment resolution applied to the CDN URL when it is fetched is modelled. `..` is excluded only as literal text: `/%2e%2e/` survives sanitising, and a WHATWG URL parser resolves that segment as `..`.
- Worker.DeployedFilesServed: the correspondence holds only for names without `\`, because the uploader turns every `\` into `/` and the gateway does not (Worker.BackslashNameNotServed). It also holds between the uploaded key and the raw request path. The browser percent-encodes the path it requests, so a file `a b.html` is uploaded under `a b.html` but requested as `/a%20b.html`, and decoding is not modelled.
- Gateway.SuccessHeaders: the result is the header map the handler passes to `res.set`, not the headers Express finally sends. `res.send` recomputes Content-Length from the buffer, adds an ETag when none is set, answers 304 to a matching conditional request and can change Content-Type.
- Gateway.HandleRequest: the response is the one the handler builds; the rewriting done by `res.send` (304 answers, a computed ETag and Content-Length) is not modelled.
- Uploader.Relative: `path.relative` is modelled for files below the directory only, which are the only files the walk yields.
- Downloader.DownloadS3Folder: the S3 prefix semantics of the listing are not modelled. The listing is an input, so the `prefix` and `bucketName` parameters do not appear.
- The file-system effects of a download (mkdir, stream write) are not modelled. Neither is the `ContentLength` taken from `statSync` for an upload.
- All Redis `publish` log lines and all console output are not modelled. Of the Redis client that `uploadDirectory` opens for its log lines, only the awaited `connect()` is modelled. That client is never quit, so every job leaves a connection open; connections are not modelled.
- Worker.HandleJob: a rejected `hSet("status", id, "deployed")` is not modelled. That write always succeeds in the model.
- The `S3Uploader` constructor's environment-variable checks and the S3 and Redis client set-up are not modelled.
- The build's working directory, `npm install` and `npm run build` are only their exit code.
- `Math.random` is a supplied real in `[0, 1)`; floating-point rounding of `r * 35` is not modelled. `Date.now()` is a supplied number per file.
- UploadService/index.js is not part of this model. It calls none of `generate`, `getAllFiles` or `publishBuildStatus`; its only live statement uploads `./output` once. The front end, the auth service and the logging service are not part of this model either.
- Worker.Run: a `Submitted` tick applies the intake's `lPush` and its `hSet("status", id, "uploaded")` together, though they are two awaited calls. A pop, and even a whole job, that falls between the push and the status write is not represented. So the interleaving in which the intake's late write sets `uploaded` over `deployed` for an id no longer queued is not modelled, and Worker.RunStatusEffect does not cover it.
- Worker.RunWorker: a run lasts as long as its supplied ticks. A `Popped` tick on an empty queue stands for a `brPop` that is still blocked: it changes nothing.

## Findings

| source | as written | input that shows it | evidently intended | confidence | as-written member | corrected member |
|---|---|---|---|---|---|---|
| DeployService/index.js:45-50 | The catch block of the pop loop logs to `logs:${jobId}`. `jobId` is a `const` of the try block's inner `if` and is not in scope there, so a ReferenceError is thrown out of the catch. That leaves the `while (true)` loop and ends `main()`. | `build-queue` holds `site1`, then `brPop` rejects once (a dropped Redis connection), then it would answer `site1`. | Log the error, wait a second and keep popping, as the comment in the catch block says. | high, not executed | Worker.PopFailureStopsLoop | Worker.PopFailureRetried |
