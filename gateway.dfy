/** The asset gateway of RequestService/index.js: a request for
    `<id>.<domain>/<path>` is turned into a storage key under `<id>/dist/`,
    the object is fetched from the CDN, and the CDN's answer is turned into
    an HTTP response. The fetch itself is an input of the model (`Upstream`). */
module Gateway {
  import opened Wrappers
  import opened Text
  import opened NodePath

  // ---------------------------------------------------------------------
  // getContentType (RequestService/index.js:18-62)
  // ---------------------------------------------------------------------

  const OctetStream := "application/octet-stream"

  /** The extension table of the gateway's `getContentType`. */
  const ContentTypes: map<string, string> := map[
    ".html" := "text/html; charset=utf-8",
    ".htm" := "text/html; charset=utf-8",
    ".css" := "text/css; charset=utf-8",
    ".js" := "application/javascript; charset=utf-8",
    ".mjs" := "application/javascript; charset=utf-8",
    ".json" := "application/json; charset=utf-8",
    ".xml" := "application/xml; charset=utf-8",
    ".txt" := "text/plain; charset=utf-8",
    ".md" := "text/markdown; charset=utf-8",
    ".png" := "image/png",
    ".jpg" := "image/jpeg",
    ".jpeg" := "image/jpeg",
    ".gif" := "image/gif",
    ".svg" := "image/svg+xml",
    ".webp" := "image/webp",
    ".ico" := "image/x-icon",
    ".avif" := "image/avif",
    ".woff" := "font/woff",
    ".woff2" := "font/woff2",
    ".ttf" := "font/ttf",
    ".otf" := "font/otf",
    ".eot" := "application/vnd.ms-fontobject",
    ".pdf" := "application/pdf",
    ".zip" := "application/zip",
    ".mp4" := "video/mp4",
    ".webm" := "video/webm",
    ".mp3" := "audio/mpeg",
    ".wav" := "audio/wav",
    ".ogg" := "audio/ogg",
    ".map" := "application/json",
    ".webmanifest" := "application/manifest+json"
  ]

  /** The content type of a path, looked up by its lower-cased extension.
      The default is returned exactly when the extension is not in the table. */
  function GetContentType(filePath: string): (t: string)
    ensures ToLower(Extname(filePath)) in ContentTypes ==> t == ContentTypes[ToLower(Extname(filePath))]
  {
    var ext := ToLower(Extname(filePath));
    if ext in ContentTypes then ContentTypes[ext] else OctetStream
  }

  /** Unknown extensions, and only they, get `application/octet-stream`. */
  lemma ContentTypeDefault(filePath: string)
    ensures GetContentType(filePath) == OctetStream <==> ToLower(Extname(filePath)) !in ContentTypes
  {
    assert OctetStream !in ContentTypes.Values;
  }

  /** `.HTML` and `.html` give the same type: the lookup ignores ASCII case. */
  lemma ContentTypeIgnoresCase(p: string)
    ensures GetContentType(ToLower(p)) == GetContentType(p)
  {
    ExtnameOfLower(p);
    ToLowerIdempotent(Extname(p));
  }

  // ---------------------------------------------------------------------
  // isValidId (RequestService/index.js:69-73)
  // ---------------------------------------------------------------------

  /** A character of the class `[a-zA-Z0-9-_]`. */
  predicate IdChar(ch: char) {
    ('a' <= ch <= 'z') || ('A' <= ch <= 'Z') || ('0' <= ch <= '9') || ch == '-' || ch == '_'
  }

  function AllIdChars(s: string): (b: bool)
    ensures b <==> forall i :: 0 <= i < |s| ==> IdChar(s[i])
  {
    if s == [] then true else IdChar(s[0]) && AllIdChars(s[1..])
  }

  /** `/^[a-zA-Z0-9-_]{3,50}$/.test(id)`. */
  function IsValidId(id: string): (b: bool)
    ensures b <==> 3 <= |id| <= 50 && forall i :: 0 <= i < |id| ==> IdChar(id[i])
  {
    3 <= |id| <= 50 && AllIdChars(id)
  }

  // ---------------------------------------------------------------------
  // sanitizePath (RequestService/index.js:80-83)
  // ---------------------------------------------------------------------

  /** `s.replace(/\.\./g, '')`: pairs of dots are removed left to right. */
  function RemoveDotPairs(s: string): (r: string)
    ensures NoAdjacent(r, '.')
    ensures r != [] && r[0] == '.' ==> s != [] && s[0] == '.'
  {
    if |s| >= 2 && s[0] == '.' && s[1] == '.' then RemoveDotPairs(s[2..])
    else if s == [] then []
    else [s[0]] + RemoveDotPairs(s[1..])
  }

  /** `s.replace(/\/+/g, '/')`: every run of slashes becomes one slash. */
  function CollapseSlashes(s: string): (r: string)
    ensures NoAdjacent(r, '/')
    ensures r != [] ==> s != [] && r[0] == s[0]
    ensures NoAdjacent(s, '.') ==> NoAdjacent(r, '.')
  {
    if |s| >= 2 && s[0] == '/' && s[1] == '/' then CollapseSlashes(s[1..])
    else if s == [] then []
    else [s[0]] + CollapseSlashes(s[1..])
  }

  /** The gateway's `sanitizePath`: its result never holds `..` or `//`. */
  function SanitizePath(filePath: string): (r: string)
    ensures NoAdjacent(r, '.') && NoAdjacent(r, '/')
  {
    CollapseSlashes(RemoveDotPairs(filePath))
  }

  lemma {:induction false} RemoveDotPairsIdentity(s: string)
    requires NoAdjacent(s, '.')
    ensures RemoveDotPairs(s) == s
  {
    if s != [] {
      RemoveDotPairsIdentity(s[1..]);
    }
  }

  lemma {:induction false} CollapseSlashesIdentity(s: string)
    requires NoAdjacent(s, '/')
    ensures CollapseSlashes(s) == s
  {
    if s != [] {
      CollapseSlashesIdentity(s[1..]);
    }
  }

  /** Sanitizing twice is sanitizing once. */
  lemma SanitizeIdempotent(p: string)
    ensures SanitizePath(SanitizePath(p)) == SanitizePath(p)
  {
    var once := SanitizePath(p);
    RemoveDotPairsIdentity(once);
    CollapseSlashesIdentity(once);
  }

  /** Sanitizing only ever deletes dots and slashes: every other character
      of the path survives, in order. */
  function Significant(s: string): string {
    if s == [] then []
    else if s[0] == '.' || s[0] == '/' then Significant(s[1..])
    else [s[0]] + Significant(s[1..])
  }

  lemma {:induction false} RemoveDotPairsKeepsSignificant(s: string)
    ensures Significant(RemoveDotPairs(s)) == Significant(s)
  {
    if |s| >= 2 && s[0] == '.' && s[1] == '.' {
      RemoveDotPairsKeepsSignificant(s[2..]);
      assert Significant(s) == Significant(s[1..]) == Significant(s[2..]);
    } else if s != [] {
      RemoveDotPairsKeepsSignificant(s[1..]);
    }
  }

  lemma {:induction false} CollapseSlashesKeepsSignificant(s: string)
    ensures Significant(CollapseSlashes(s)) == Significant(s)
  {
    if s != [] {
      CollapseSlashesKeepsSignificant(s[1..]);
    }
  }

  lemma {:induction false} SignificantKeepsChar(s: string, c: char)
    requires c != '.' && c != '/'
    ensures c in s <==> c in Significant(s)
  {
    if s != [] {
      SignificantKeepsChar(s[1..], c);
      assert s == [s[0]] + s[1..];
    }
  }

  /** A character other than `.` and `/` survives sanitising. */
  lemma SanitizeKeepsChar(p: string, c: char)
    requires c != '.' && c != '/'
    ensures c in SanitizePath(p) <==> c in p
  {
    SanitizeKeepsSignificant(p);
    SignificantKeepsChar(p, c);
    SignificantKeepsChar(SanitizePath(p), c);
  }

  lemma SanitizeKeepsSignificant(p: string)
    ensures Significant(SanitizePath(p)) == Significant(p)
  {
    RemoveDotPairsKeepsSignificant(p);
    CollapseSlashesKeepsSignificant(RemoveDotPairs(p));
  }

  // ---------------------------------------------------------------------
  // Host -> tenant id -> storage key (RequestService/index.js:149-180)
  // ---------------------------------------------------------------------

  /** The tenant id of a host name: its first `.`-separated label, or
      nothing when the host has fewer than two labels. So a host has a
      tenant exactly when it contains a dot, and the tenant is everything
      before the first dot. */
  function TenantId(host: string): (r: Option<string>)
    ensures r.None? <==> '.' !in host
    ensures r.Some? ==> r.value == UpTo(host, '.')
  {
    var hostParts := Split(host, '.');
    SplitHasTwoParts(host, '.');
    SplitFirstPart(host, '.');
    if |hostParts| < 2 then None else Some(hostParts[0])
  }

  /** Root and directory paths name their `index.html`. */
  function DefaultIndex(p: string): string {
    if p == "/" || EndsWith(p, "/") then p + "index.html" else p
  }

  function StripLeadingSlash(p: string): string {
    if StartsWith(p, "/") then p[1..] else p
  }

  /** The object path the gateway asks for, relative to `<id>/dist/`:
      it never holds `..` or `//`. */
  function ObjectPath(reqPath: string): (r: string)
    ensures NoAdjacent(r, '.') && NoAdjacent(r, '/')
  {
    SanitizePath(StripLeadingSlash(DefaultIndex(reqPath)))
  }

  const DistInfix := "/dist/"

  /** The storage key of a request: the object path under the tenant's
      build output. */
  function StorageKey(id: string, reqPath: string): (r: string)
    ensures StartsWith(r, id + DistInfix)
    ensures r[|id + DistInfix|..] == ObjectPath(reqPath)
  {
    var key := id + DistInfix + ObjectPath(reqPath);
    assert key[..|id + DistInfix|] == id + DistInfix;
    key
  }

  /** For a valid tenant id, the storage key lies under `<id>/dist/` and
      contains no `..`, whatever the request path. */
  lemma StorageKeyConfined(id: string, reqPath: string)
    requires IsValidId(id)
    ensures StartsWith(StorageKey(id, reqPath), id + DistInfix)
    ensures NoAdjacent(StorageKey(id, reqPath), '.')
  {
    var rest := ObjectPath(reqPath);
    assert forall i :: 0 <= i < |id| ==> id[i] != '.';
    NoAdjacentConcat(id, DistInfix, '.');
    NoAdjacentConcat(id + DistInfix, rest, '.');
    assert StorageKey(id, reqPath)[..|id + DistInfix|] == id + DistInfix;
  }

  lemma {:induction false} RemoveDotPairsAppend(a: string, b: string)
    requires a == [] || a[|a| - 1] != '.'
    ensures RemoveDotPairs(a + b) == RemoveDotPairs(a) + RemoveDotPairs(b)
    decreases |a|
  {
    var s := a + b;
    if a == [] {
      assert s == b;
    } else if |a| == 1 {
      assert s[0] == a[0] && s[0] != '.';
      assert s[1..] == b;
      assert a[1..] == [];
      assert RemoveDotPairs(s) == [s[0]] + RemoveDotPairs(b);
      assert RemoveDotPairs(a) == [a[0]] + RemoveDotPairs([]);
    } else if a[0] == '.' && a[1] == '.' {
      var t := a[2..];
      assert s[0] == '.' && s[1] == '.';
      assert s[2..] == t + b;
      RemoveDotPairsAppend(t, b);
      assert RemoveDotPairs(s) == RemoveDotPairs(t + b);
      assert RemoveDotPairs(a) == RemoveDotPairs(t);
    } else {
      var t := a[1..];
      assert s[0] == a[0] && s[1] == a[1];
      assert s[1..] == t + b;
      RemoveDotPairsAppend(t, b);
      assert RemoveDotPairs(s) == [a[0]] + RemoveDotPairs(t + b);
      assert RemoveDotPairs(a) == [a[0]] + RemoveDotPairs(t);
    }
  }

  lemma {:induction false} CollapseSlashesAppend(a: string, b: string)
    requires a == [] || b == [] || b[0] != '/'
    ensures CollapseSlashes(a + b) == CollapseSlashes(a) + CollapseSlashes(b)
  {
    if a == [] {
      assert a + b == b;
    } else {
      var ab := a + b;
      assert ab[0] == a[0] && ab[1..] == a[1..] + b;
      CollapseSlashesAppend(a[1..], b);
      if |a| >= 2 {
        assert ab[1] == a[1];
      } else if b != [] {
        assert ab[1] == b[0];
      }
    }
  }

  const IndexHtml := "index.html"

  lemma IndexHtmlIsClean()
    ensures RemoveDotPairs(IndexHtml) == IndexHtml
    ensures CollapseSlashes(IndexHtml) == IndexHtml
  {
    assert NoAdjacent(IndexHtml, '/') by {
      assert forall i :: 0 <= i < |IndexHtml| ==> IndexHtml[i] != '/';
    }
    assert NoAdjacent(IndexHtml, '.') by {
      assert forall i :: 0 <= i < |IndexHtml| && i != 5 ==> IndexHtml[i] != '.';
    }
    RemoveDotPairsIdentity(IndexHtml);
    CollapseSlashesIdentity(IndexHtml);
  }

  lemma SanitizeDirectoryIndex(dir: string)
    requires dir == [] || dir[|dir| - 1] == '/'
    ensures SanitizePath(dir + IndexHtml) == SanitizePath(dir) + IndexHtml
  {
    RemoveDotPairsAppend(dir, IndexHtml);
    IndexHtmlIsClean();
    CollapseSlashesAppend(RemoveDotPairs(dir), IndexHtml);
  }

  lemma StripLeadingSlashAppend(p: string)
    requires EndsWith(p, "/")
    ensures StripLeadingSlash(p + IndexHtml) == StripLeadingSlash(p) + IndexHtml
    ensures StripLeadingSlash(p) == [] || StripLeadingSlash(p)[|StripLeadingSlash(p)| - 1] == '/'
  {
    var w := p + IndexHtml;
    assert StartsWith(w, "/") <==> StartsWith(p, "/");
    if StartsWith(p, "/") {
      assert w[1..] == p[1..] + IndexHtml;
    }
  }

  /** A root or directory request asks for the sanitized directory followed
      by `index.html`; any other request asks for the sanitized path with
      one leading slash removed. */
  lemma ObjectPathShape(reqPath: string)
    ensures EndsWith(reqPath, "/") ==>
      ObjectPath(reqPath) == SanitizePath(StripLeadingSlash(reqPath)) + IndexHtml
    ensures !EndsWith(reqPath, "/") ==>
      ObjectPath(reqPath) == SanitizePath(StripLeadingSlash(reqPath))
  {
    if EndsWith(reqPath, "/") {
      assert DefaultIndex(reqPath) == reqPath + IndexHtml;
      StripLeadingSlashAppend(reqPath);
      SanitizeDirectoryIndex(StripLeadingSlash(reqPath));
    } else {
      assert reqPath != "/";
    }
  }

  lemma {:induction false} RemoveDotPairsLast(s: string)
    requires s != [] && s[|s| - 1] != '.'
    ensures RemoveDotPairs(s) != [] && RemoveDotPairs(s)[|RemoveDotPairs(s)| - 1] == s[|s| - 1]
    decreases |s|
  {
    var r := RemoveDotPairs(s);
    if |s| >= 2 && s[0] == '.' && s[1] == '.' {
      var t := s[2..];
      RemoveDotPairsLast(t);
      assert r == RemoveDotPairs(t);
    } else if |s| == 1 {
      assert s[1..] == [];
      assert r == [s[0]] + RemoveDotPairs([]);
    } else {
      var t := s[1..];
      RemoveDotPairsLast(t);
      var rt := RemoveDotPairs(t);
      assert r == [s[0]] + rt;
      assert r[|r| - 1] == rt[|rt| - 1];
    }
  }

  lemma {:induction false} CollapseSlashesLast(s: string)
    requires s != []
    ensures CollapseSlashes(s) != [] && CollapseSlashes(s)[|CollapseSlashes(s)| - 1] == s[|s| - 1]
  {
    if |s| > 1 {
      CollapseSlashesLast(s[1..]);
    }
  }

  lemma BasenameOfIndex(dir: string)
    requires dir == [] || dir[|dir| - 1] == '/'
    ensures Basename(dir + IndexHtml) == IndexHtml
  {
    var p := dir + IndexHtml;
    assert p[|p| - 1] == 'l';
    assert TrimTrailingSlashes(p) == p;
    assert p[|dir|..] == IndexHtml;
    assert '/' !in IndexHtml;
    if dir == [] {
      assert p == IndexHtml;
    } else {
      LastIndexUnique(p, '/', |dir| - 1);
    }
  }

  lemma IndexHtmlExtension()
    ensures Extname(IndexHtml) == ".html"
  {
    BasenameOfIndex([]);
    assert [] + IndexHtml == IndexHtml;
    assert '.' !in IndexHtml[6..] by {
      assert forall i :: 6 <= i < |IndexHtml| ==> IndexHtml[i] != '.';
    }
    LastIndexUnique(IndexHtml, '.', 5);
    assert ComponentExt(IndexHtml) == IndexHtml[5..];
  }

  lemma ExtnameOfIndex(dir: string)
    requires dir == [] || dir[|dir| - 1] == '/'
    ensures Extname(dir + IndexHtml) == ".html"
  {
    BasenameOfIndex(dir);
    IndexHtmlExtension();
    assert Basename(dir + IndexHtml) == Basename(IndexHtml);
  }

  lemma HtmlExtensionType(p: string)
    requires Extname(p) == ".html"
    ensures GetContentType(p) == "text/html; charset=utf-8"
  {
    assert ToLower(".html") == ".html";
  }

  /** A root or directory request asks for an `index.html`, typed as HTML
      when the CDN gives no type. */
  lemma DirectoryIsIndexHtml(reqPath: string)
    requires EndsWith(reqPath, "/")
    ensures EndsWith(ObjectPath(reqPath), IndexHtml)
    ensures GetContentType(ObjectPath(reqPath)) == "text/html; charset=utf-8"
  {
    ObjectPathShape(reqPath);
    StripLeadingSlashAppend(reqPath);
    var stripped := StripLeadingSlash(reqPath);
    var dir := SanitizePath(stripped);
    if stripped != [] {
      RemoveDotPairsLast(stripped);
      CollapseSlashesLast(RemoveDotPairs(stripped));
    }
    ExtnameOfIndex(dir);
    var op := ObjectPath(reqPath);
    assert op == dir + IndexHtml;
    assert op[|dir|..] == IndexHtml;
    HtmlExtensionType(op);
  }

  /** The root path asks for `index.html`, whose derived (fallback) type
      is HTML. */
  lemma RootIsIndexHtml()
    ensures ObjectPath("/") == IndexHtml
    ensures GetContentType(ObjectPath("/")) == "text/html; charset=utf-8"
  {
    ObjectPathShape("/");
    assert StripLeadingSlash("/") == [];
    assert SanitizePath([]) == [];
    DirectoryIsIndexHtml("/");
  }

  // ---------------------------------------------------------------------
  // The main handler (RequestService/index.js:146-307)
  // ---------------------------------------------------------------------

  /** What the CDN fetch (axios) produced. Header names are lower-case, as
      axios reports them; `HttpErr` is a non-2xx answer (axios rejects with
      `error.response`), `NetErr` a failure without a response. */
  datatype Upstream =
    | Ok(headers: map<string, string>, bodyLen: nat)
    | HttpErr(status: nat)
    | NetErr(code: string)

  datatype Body =
    | Bytes(length: nat)
    | Json(error: string, detail: map<string, string>)

  /** The response: status, headers set by the handler, the storage key that
      was fetched (none when the request was refused before fetching), body. */
  datatype Response = Response(status: nat, headers: map<string, string>, key: Option<string>, body: Body)

  const DefaultCacheControl := "public, max-age=3600"

  /** JavaScript truthiness of an optional header value. */
  predicate Present(h: map<string, string>, name: string) {
    name in h && h[name] != ""
  }

  function HeaderOr(h: map<string, string>, name: string, fallback: string): string {
    if Present(h, name) then h[name] else fallback
  }

  /** `out[outName]` is `up[upName]` when that is present, and absent otherwise. */
  predicate CopiedIfPresent(out: map<string, string>, outName: string, up: map<string, string>, upName: string) {
    (outName in out <==> Present(up, upName)) && (outName in out ==> out[outName] == up[upName])
  }

  const ResponseHeaderNames: set<string> := {
    "Content-Type", "Content-Length", "Cache-Control", "ETag",
    "Last-Modified", "Content-Encoding", "Access-Control-Allow-Origin"
  }

  /** The status the error ladder gives a failed fetch. */
  predicate LadderStatus(u: Upstream, status: nat)
    requires !u.Ok?
  {
    match u
    case HttpErr(s) =>
      (s == 404 ==> status == 404) && (s == 403 ==> status == 403)
      && (s >= 500 ==> status == 503)
      && (s != 404 && s != 403 && s < 500 ==> status == s)
    case NetErr(code) =>
      (code == "ECONNABORTED" ==> status == 504)
      && (code == "ENOTFOUND" || code == "ECONNREFUSED" ==> status == 503)
      && (code != "ECONNABORTED" && code != "ENOTFOUND" && code != "ECONNREFUSED" ==> status == 500)
  }

  /** The headers of a successful fetch; `derivedType` is the type the
      extension of the requested path gives (RequestService/index.js:201-230). */
  method SuccessHeaders(h: map<string, string>, bodyLen: nat, derivedType: string)
    returns (headers: map<string, string>)
    ensures headers.Keys <= ResponseHeaderNames
    ensures "Content-Type" in headers
      && headers["Content-Type"] == HeaderOr(h, "content-type", derivedType)
    ensures "Content-Length" in headers
      && headers["Content-Length"] == HeaderOr(h, "content-length", NatToString(bodyLen))
    ensures "Cache-Control" in headers
      && headers["Cache-Control"] == HeaderOr(h, "cache-control", DefaultCacheControl)
    ensures CopiedIfPresent(headers, "ETag", h, "etag")
    ensures CopiedIfPresent(headers, "Last-Modified", h, "last-modified")
    ensures CopiedIfPresent(headers, "Content-Encoding", h, "content-encoding")
    ensures "Access-Control-Allow-Origin" in headers && headers["Access-Control-Allow-Origin"] == "*"
  {
    var contentType := if Present(h, "content-type") then h["content-type"] else derivedType;
    headers := map[
      "Content-Type" := contentType,
      "Content-Length" := if Present(h, "content-length") then h["content-length"] else NatToString(bodyLen)
    ];
    if Present(h, "cache-control") {
      headers := headers["Cache-Control" := h["cache-control"]];
    } else {
      headers := headers["Cache-Control" := DefaultCacheControl];
    }
    if Present(h, "etag") {
      headers := headers["ETag" := h["etag"]];
    }
    if Present(h, "last-modified") {
      headers := headers["Last-Modified" := h["last-modified"]];
    }
    if Present(h, "content-encoding") {
      headers := headers["Content-Encoding" := h["content-encoding"]];
    }
    headers := headers["Access-Control-Allow-Origin" := "*"];
  }

  /** The catch block of the handler: a failed fetch of `cloudFrontUrl`
      becomes a status and a JSON diagnostic (RequestService/index.js:246-305). */
  method ErrorResponse(upstream: Upstream, reqPath: string, hostId: string, cloudFrontUrl: string)
    returns (status: nat, body: Body)
    requires !upstream.Ok?
    ensures LadderStatus(upstream, status)
    ensures body.Json?
    ensures upstream.HttpErr? && upstream.status == 404 ==>
      body == Json("File not found", map["path" := reqPath, "id" := hostId, "cloudFrontUrl" := cloudFrontUrl])
    ensures upstream.HttpErr? && upstream.status == 403 ==>
      body == Json("Access forbidden", map["path" := reqPath, "cloudFrontUrl" := cloudFrontUrl])
    ensures upstream.NetErr? ==> "cloudFrontUrl" !in body.detail
  {
    match upstream {
      case HttpErr(s) =>
        if s == 404 {
          status, body := 404, Json("File not found", map[
            "path" := reqPath, "id" := hostId, "cloudFrontUrl" := cloudFrontUrl]);
        } else if s == 403 {
          status, body := 403, Json("Access forbidden", map[
            "path" := reqPath, "cloudFrontUrl" := cloudFrontUrl]);
        } else if s >= 500 {
          status, body := 503, Json("Service unavailable", map[
            "path" := reqPath, "cloudFrontStatus" := NatToString(s)]);
        } else {
          status, body := s, Json("CloudFront error", map[
            "status" := NatToString(s), "path" := reqPath]);
        }
      case NetErr(code) =>
        if code == "ECONNABORTED" {
          status, body := 504, Json("Request timeout", map["path" := reqPath]);
        } else if code == "ENOTFOUND" || code == "ECONNREFUSED" {
          status, body := 503, Json("Service unavailable", map["message" := "Cannot connect to CloudFront"]);
        } else {
          status, body := 500, Json("Internal server error", map["message" := "Something went wrong"]);
        }
    }
  }

  /** The main handler: host -> tenant id -> storage key -> response. */
  method HandleRequest(cdnBase: string, host: string, reqPath: string, upstream: Upstream)
    returns (resp: Response)
    // fewer than two labels: 400, nothing fetched
    ensures '.' !in host ==> resp.status == 400 && resp.key == None
    // a first label that is not a valid id: 400, nothing fetched
    ensures '.' in host && !IsValidId(UpTo(host, '.')) ==> resp.status == 400 && resp.key == None
    // otherwise the key of the tenant's build output is fetched
    ensures '.' in host && IsValidId(UpTo(host, '.')) ==>
      resp.key == Some(StorageKey(UpTo(host, '.'), reqPath))
    // a successful fetch is served with the forwarded or default headers
    ensures resp.key.Some? && upstream.Ok? ==>
      var h := upstream.headers;
      && resp.status == 200
      && resp.body == Bytes(upstream.bodyLen)
      && resp.headers.Keys <= ResponseHeaderNames
      && "Content-Type" in resp.headers
      && resp.headers["Content-Type"] == HeaderOr(h, "content-type", GetContentType(ObjectPath(reqPath)))
      && "Content-Length" in resp.headers
      && resp.headers["Content-Length"] == HeaderOr(h, "content-length", NatToString(upstream.bodyLen))
      && "Cache-Control" in resp.headers
      && resp.headers["Cache-Control"] == HeaderOr(h, "cache-control", DefaultCacheControl)
      && CopiedIfPresent(resp.headers, "ETag", h, "etag")
      && CopiedIfPresent(resp.headers, "Last-Modified", h, "last-modified")
      && CopiedIfPresent(resp.headers, "Content-Encoding", h, "content-encoding")
      && "Access-Control-Allow-Origin" in resp.headers
      && resp.headers["Access-Control-Allow-Origin"] == "*"
    // a failed fetch goes down the error ladder, with a JSON diagnostic
    ensures resp.key.Some? && !upstream.Ok? ==>
      LadderStatus(upstream, resp.status) && resp.body.Json? && resp.headers == map[]
    ensures resp.key.Some? && upstream.HttpErr? && upstream.status == 404 ==>
      resp.body == Json("File not found", map[
        "path" := reqPath, "id" := UpTo(host, '.'),
        "cloudFrontUrl" := cdnBase + "/" + resp.key.value])
  {
    var tenant := TenantId(host);
    if tenant.None? {
      return Response(400, map[], None, Json("Invalid hostname format. Expected: id.domain.com", map[]));
    }
    var id := tenant.value;
    if !IsValidId(id) {
      return Response(400, map[], None, Json("Invalid subdomain ID format", map[]));
    }

    var filePath := reqPath;
    if filePath == "/" || EndsWith(filePath, "/") {
      filePath := filePath + IndexHtml;
    }
    assert filePath == DefaultIndex(reqPath);
    filePath := SanitizePath(if StartsWith(filePath, "/") then filePath[1..] else filePath);
    assert filePath == ObjectPath(reqPath);
    var key := id + DistInfix + filePath;
    var cloudFrontUrl := cdnBase + "/" + key;

    if upstream.Ok? {
      var headers := SuccessHeaders(upstream.headers, upstream.bodyLen, GetContentType(filePath));
      resp := Response(200, headers, Some(key), Bytes(upstream.bodyLen));
    } else {
      var status, body := ErrorResponse(upstream, reqPath, id, cloudFrontUrl);
      resp := Response(status, map[], Some(key), body);
    }
  }
}
