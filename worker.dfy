/** The deploy worker (DeployService/index.js): a loop that pops deployment
    ids off `build-queue` and, one at a time, downloads the sources, builds
    them, uploads the build output and marks the id `deployed`. What the
    outside world does during a job (the S3 listing and fetches, the build's
    exit code, the output tree, the uploads) is the input `JobEnv`. */
module Worker {
  import opened Wrappers
  import opened Text
  import opened FileTree
  import opened Store
  import Downloader
  import Uploader
  import Gateway
  import Intake

  const Deployed := "deployed"

  /** Default `localDir` of `downloadS3Folder`. */
  const DownloadDir := "./downloads"

  /** Everything a job meets: the listing of its prefix, the CloudFront
      fetch of each key, the exit code of `npm install && npm run build`,
      the tree found at `./downloads/<id>/dist` afterwards (`None`: there is
      none), whether the uploader's Redis log client connects, and the
      outcome of each upload. */
  datatype JobEnv = JobEnv(
    listing: Downloader.ListOutcome,
    fetch: string -> Downloader.FetchOutcome,
    buildExit: int,
    dist: Option<seq<Node>>,
    logConnects: bool,
    put: Uploader.PutRequest -> Uploader.PutOutcome)

  // ---------------------------------------------------------------------
  // buildProject (DeployService/utils/buildProject.js:9-29)
  // ---------------------------------------------------------------------

  /** The build promise resolves exactly when the shell exits with code 0. */
  function BuildProject(exitCode: int): (r: Result<string, int>)
    ensures r.Success? <==> exitCode == 0
    ensures r.Failure? ==> r.error == exitCode
  {
    if exitCode == 0 then Success("Build successful") else Failure(exitCode)
  }

  // ---------------------------------------------------------------------
  // handleJob (DeployService/index.js:54-84)
  // ---------------------------------------------------------------------

  function DistDir(id: string): string {
    DownloadDir + "/" + id + "/dist"
  }

  function DistPrefix(id: string): string {
    id + "/dist"
  }

  /** None of the three awaited steps throws. */
  predicate JobSucceeds(env: JobEnv) {
    Downloader.DownloadS3Folder(DownloadDir, env.listing, env.fetch).Success?
    && BuildProject(env.buildExit).Success?
    && env.dist.Some?
    && env.logConnects
  }

  /** The status table after handling `id`: only `status[id]` can change,
      and it becomes `deployed` when the job gets through. */
  function AfterJob(status: map<string, string>, id: string, env: JobEnv): (r: map<string, string>)
    ensures forall k :: k != id ==> (k in r <==> k in status) && (k in r ==> r[k] == status[k])
    ensures JobSucceeds(env) ==> id in r && r[id] == Deployed
    ensures !JobSucceeds(env) ==> r == status
  {
    if JobSucceeds(env) then status[id := Deployed] else status
  }

  /** A job gets through exactly when the listing answers, the build exits
      with 0 and leaves a `dist` directory, and the uploader's log client
      connects: failed file downloads and failed uploads do not stop it. */
  lemma JobSucceedsExactly(env: JobEnv)
    ensures JobSucceeds(env) <==>
      !env.listing.ListFailed? && env.buildExit == 0 && env.dist.Some? && env.logConnects
  {
  }

  /** `handleJob(id)`: every exception is caught, so it always returns. */
  method HandleJob(r: Redis, bucket: string, id: string, env: JobEnv)
    modifies r
    ensures r.buildQueue == old(r.buildQueue)
    ensures r.status == AfterJob(old(r.status), id, env)
  {
    var downloaded := Downloader.DownloadS3Folder(DownloadDir, env.listing, env.fetch);
    if downloaded.Failure? {
      return;
    }
    var built := BuildProject(env.buildExit);
    if built.Failure? {
      return;
    }
    var dirResults := Uploader.UploadDirectory(bucket, DistDir(id), DistPrefix(id), env.dist, env.logConnects, env.put);
    if dirResults.Failure? {
      return;
    }
    r.HSet(id, Deployed);
  }

  /** The upload results are never looked at: a job whose every upload
      failed is still marked `deployed`. */
  lemma DeployedDespiteFailedUploads(bucket: string, status: map<string, string>, id: string)
    ensures var env := JobEnv(Downloader.Listed(None), _ => Downloader.Fetched, 0,
                              Some([File("index.html")]), true, _ => Uploader.PutFailed("AccessDenied"));
      var uploads := Uploader.DirectoryUploads(bucket, DistDir(id), DistPrefix(id), env.dist.value, env.put);
      |uploads| == 1 && !uploads[0].success && AfterJob(status, id, env)[id] == Deployed
  {
    var tree := [File("index.html")];
    assert "index.html" !in Uploader.UploadSkip;
    ListingStep(Uploader.UploadSkip, DistDir(id), tree, 0);
    assert tree[1..] == [] && tree[0..] == tree;
  }

  // ---------------------------------------------------------------------
  // The pop loop of main (DeployService/index.js:25-52)
  // ---------------------------------------------------------------------

  /** What happens next while `main` runs. `Popped(env)`: the worker's
      blocking `brPop` may answer with the oldest entry, whose job then meets
      `env`; on an empty list the call is still blocked and nothing happens.
      `PopFails`: the `brPop` rejects (the connection is lost, say).
      `Submitted(id, fault)`: the intake service runs
      `publishBuildStatus(id)` meanwhile, meeting `fault`. */
  datatype Tick =
    | Popped(env: JobEnv)
    | PopFails
    | Submitted(id: string, fault: Intake.PublishFault)

  /** How far the loop got: the final state, every element popped in order,
      every id the intake pushed in order, and whether the loop died. */
  datatype RunOutcome = RunOutcome(state: State, popped: seq<string>, queued: seq<string>, crashed: bool)

  /** The state after one popped element: the empty string is falsy and is
      dropped without a job. */
  function AfterPop(s: State, env: JobEnv): State
    requires s.buildQueue != []
  {
    var n := |s.buildQueue| - 1;
    var id := s.buildQueue[n];
    State(s.buildQueue[..n], if id == "" then s.status else AfterJob(s.status, id, env))
  }

  /** The ids a submission pushes onto `build-queue`. */
  function PushedBy(id: string, fault: Intake.PublishFault): seq<string> {
    if Intake.Pushes(fault) then [id] else []
  }

  /** The effect of one tick that does not end the loop: the new state, the
      id popped (if any) and the id pushed (if any). */
  datatype StepResult = StepResult(state: State, popped: seq<string>, queued: seq<string>)

  function Step(s: State, t: Tick): (r: StepResult)
    ensures |r.popped| + |r.queued| <= 1
  {
    match t
    case PopFails => StepResult(s, [], [])
    case Submitted(id, fault) => StepResult(Intake.Publish(s, id, fault), [], PushedBy(id, fault))
    case Popped(env) =>
      if s.buildQueue == [] then StepResult(s, [], [])
      else StepResult(AfterPop(s, env), [s.buildQueue[|s.buildQueue| - 1]], [])
  }

  /** Extend a run of a prefix of the ticks by the run of the rest. */
  function Then(popped: seq<string>, queued: seq<string>, o: RunOutcome): RunOutcome {
    RunOutcome(o.state, popped + o.popped, queued + o.queued, o.crashed)
  }

  /** The loop over `ticks`. A rejected `brPop` lands in the catch block,
      whose log line names `jobId`, a constant of the try block that is not
      in scope there: the resulting ReferenceError leaves the loop
      (`retry == false`). With `retry == true` the catch block completes
      and the loop goes on, as the comment at that catch intends. Each tick
      pops at most one id, and a popped job is finished before the next
      tick: one job at a time. */
  function Run(s: State, ticks: seq<Tick>, retry: bool): (o: RunOutcome)
    ensures |o.popped| + |o.queued| <= |ticks|
    ensures o.crashed ==> !retry
    decreases |ticks|
  {
    if ticks == [] then RunOutcome(s, [], [], false)
    else if ticks[0].PopFails? && !retry then RunOutcome(s, [], [], true)
    else
      var st := Step(s, ticks[0]);
      Then(st.popped, st.queued, Run(st.state, ticks[1..], retry))
  }

  lemma ThenThen(p: seq<string>, q: seq<string>, p': seq<string>, q': seq<string>, o: RunOutcome)
    ensures Then(p, q, Then(p', q', o)) == Then(p + p', q + q', o)
  {
    assert p + (p' + o.popped) == (p + p') + o.popped;
    assert q + (q' + o.queued) == (q + q') + o.queued;
  }

  /** One pass of `main()`'s loop body, or one submission by the intake
      service, on the state in `r`. */
  method TakeTick(r: Redis, bucket: string, t: Tick) returns (popped: seq<string>, queued: seq<string>)
    modifies r
    ensures StepResult(r.Snapshot(), popped, queued) == Step(old(r.Snapshot()), t)
  {
    popped, queued := [], [];
    match t {
      case PopFails =>
      case Submitted(id, fault) =>
        Intake.PublishBuildStatus(r, id, fault);
        queued := PushedBy(id, fault);
      case Popped(env) =>
        var element := r.BRPop();
        if element.Some? {
          assert old(r.buildQueue)[..|old(r.buildQueue)| - 1] == r.buildQueue;
          if element.value != "" {
            HandleJob(r, bucket, element.value, env);
          }
          popped := [element.value];
        }
    }
  }

  /** `main()` from the state in `r`, with the intake service's submissions
      interleaved, for as long as `ticks` lasts. */
  method RunWorker(r: Redis, bucket: string, ticks: seq<Tick>, retry: bool)
    returns (popped: seq<string>, queued: seq<string>, crashed: bool)
    modifies r
    ensures RunOutcome(r.Snapshot(), popped, queued, crashed) == Run(old(r.Snapshot()), ticks, retry)
  {
    popped, queued, crashed := [], [], false;
    var i := 0;
    while i < |ticks| && !crashed
      invariant 0 <= i <= |ticks|
      invariant !crashed ==>
        Run(old(r.Snapshot()), ticks, retry) == Then(popped, queued, Run(r.Snapshot(), ticks[i..], retry))
      invariant crashed ==>
        Run(old(r.Snapshot()), ticks, retry) == RunOutcome(r.Snapshot(), popped, queued, true)
      decreases |ticks| - i
    {
      assert ticks[i..][0] == ticks[i] && ticks[i..][1..] == ticks[i + 1..];
      if ticks[i].PopFails? && !retry {
        crashed := true;
      } else {
        var p, q := TakeTick(r, bucket, ticks[i]);
        ThenThen(popped, queued, p, q, Run(r.Snapshot(), ticks[i + 1..], retry));
        popped, queued := popped + p, queued + q;
      }
      i := i + 1;
    }
  }

  // ---------------------------------------------------------------------
  // What the loop guarantees
  // ---------------------------------------------------------------------

  /** One tick keeps the submission order: the ids waiting before it and
      the id it pushes are the id it pops and the ids waiting after it. */
  lemma StepIsFifo(s: State, t: Tick)
    ensures var st := Step(s, t); Pending(s) + st.queued == st.popped + Pending(st.state)
  {
    match t
    case PopFails =>
    case Submitted(id, fault) =>
      Intake.PublishQueuesNewest(s, id, fault);
    case Popped(env) =>
      if s.buildQueue != [] {
        var q := s.buildQueue;
        var n := |q| - 1;
        assert q == q[..n] + [q[n]];
        ReverseAppend(q[..n], q[n]);
      }
  }

  /** Ids leave the queue in submission order: the ids waiting at the start,
      followed by the ids submitted during the run, are the popped ids
      followed by the ids still waiting. */
  lemma {:induction false} RunIsFifo(s: State, ticks: seq<Tick>, retry: bool)
    ensures var o := Run(s, ticks, retry);
      Pending(s) + o.queued == o.popped + Pending(o.state)
    decreases |ticks|
  {
    if ticks != [] && !(ticks[0].PopFails? && !retry) {
      var st := Step(s, ticks[0]);
      var o' := Run(st.state, ticks[1..], retry);
      assert Run(s, ticks, retry) == Then(st.popped, st.queued, o');
      RunIsFifo(st.state, ticks[1..], retry);
      StepIsFifo(s, ticks[0]);
      Chain(Pending(s), st.queued, st.popped, Pending(st.state), o'.queued, o'.popped, Pending(o'.state));
    }
  }

  /** Two consecutive exchanges of a queue compose. */
  lemma Chain<T>(a: seq<T>, q: seq<T>, p: seq<T>, b: seq<T>, q': seq<T>, p': seq<T>, c: seq<T>)
    requires a + q == p + b && b + q' == p' + c
    ensures a + (q + q') == (p + p') + c
  {
    calc {
      a + (q + q');
      (a + q) + q';
      (p + b) + q';
      p + (b + q');
      p + (p' + c);
      (p + p') + c;
    }
  }

  /** So the popped ids are always a prefix of the submission order, even
      when submissions arrive while the worker drains the queue. */
  lemma RunPopsPrefix(s: State, ticks: seq<Tick>, retry: bool)
    ensures Run(s, ticks, retry).popped <= Pending(s) + Run(s, ticks, retry).queued
  {
    var o := Run(s, ticks, retry);
    RunIsFifo(s, ticks, retry);
    assert (o.popped + Pending(o.state))[..|o.popped|] == o.popped;
  }

  /** The ids the intake pushes over `ticks`, in order. */
  function Submissions(ticks: seq<Tick>): (ids: seq<string>)
    ensures |ids| <= |ticks|
  {
    if ticks == [] then []
    else
      (if ticks[0].Submitted? then PushedBy(ticks[0].id, ticks[0].fault) else []) + Submissions(ticks[1..])
  }

  /** A run that does not die sees every submission of its ticks. */
  lemma {:induction false} RunSeesAllSubmissions(s: State, ticks: seq<Tick>, retry: bool)
    ensures !Run(s, ticks, retry).crashed ==> Run(s, ticks, retry).queued == Submissions(ticks)
    decreases |ticks|
  {
    if ticks != [] && !(ticks[0].PopFails? && !retry) {
      RunSeesAllSubmissions(Step(s, ticks[0]).state, ticks[1..], retry);
    }
  }

  /** In the loop that survives its catch block, the popped ids are a
      prefix of the waiting ids followed by every submission, in order. */
  lemma HandledInSubmissionOrder(s: State, ticks: seq<Tick>)
    ensures Run(s, ticks, true).popped <= Pending(s) + Submissions(ticks)
  {
    RunPopsPrefix(s, ticks, true);
    RunSeesAllSubmissions(s, ticks, true);
  }

  /** Whether `status` keeps `old`'s value for `k`. */
  predicate Kept(old_: map<string, string>, status: map<string, string>, k: string) {
    (k in status <==> k in old_) && (k in old_ ==> status[k] == old_[k])
  }

  /** One tick writes only the status of the id it pops or pushes, and only
      `uploaded` or `deployed`. */
  lemma StepStatusEffect(s: State, t: Tick)
    ensures var st := Step(s, t);
      forall k :: k !in st.popped && k !in st.queued ==> Kept(s.status, st.state.status, k)
    ensures var st := Step(s, t);
      forall k :: k in st.state.status ==>
        (k in s.status && st.state.status[k] == s.status[k]) || st.state.status[k] == Deployed || st.state.status[k] == Intake.Uploaded
  {
    match t
    case PopFails =>
    case Submitted(id, fault) =>
      Intake.PublishStatus(s, id, fault);
    case Popped(env) =>
  }

  /** A status entry changes only for an id that was popped or submitted,
      and the only values ever written are `uploaded` and `deployed`: no
      `failed` state exists. */
  lemma {:induction false} RunStatusEffect(s: State, ticks: seq<Tick>, retry: bool)
    ensures var o := Run(s, ticks, retry);
      forall k :: k !in o.popped && k !in o.queued ==> Kept(s.status, o.state.status, k)
    ensures var t := Run(s, ticks, retry).state;
      forall k :: k in t.status ==>
        (k in s.status && t.status[k] == s.status[k]) || t.status[k] == Deployed || t.status[k] == Intake.Uploaded
    decreases |ticks|
  {
    if ticks != [] && !(ticks[0].PopFails? && !retry) {
      var st := Step(s, ticks[0]);
      StepStatusEffect(s, ticks[0]);
      RunStatusEffect(st.state, ticks[1..], retry);
    }
  }

  /** The loop as written: once `brPop` rejects, nothing more is handled. */
  lemma PopFailureStopsLoop(s: State, rest: seq<Tick>)
    ensures Run(s, [PopFails] + rest, false) == RunOutcome(s, [], [], true)
  {
  }

  /** A queued job that the written loop leaves waiting after one failed pop,
      while the loop that survives its catch block deploys it. */
  lemma PopFailureStrandsJob(env: JobEnv)
    requires JobSucceeds(env)
    ensures var s := State(["site1"], map["site1" := "uploaded"]);
      var ticks := [PopFails, Popped(env)];
      Run(s, ticks, false).state == s &&
      Pending(Run(s, ticks, false).state) == ["site1"] &&
      Run(s, ticks, true).state.status == map["site1" := Deployed] &&
      Run(s, ticks, true).popped == ["site1"]
  {
    var s := State(["site1"], map["site1" := "uploaded"]);
    var ticks := [PopFails, Popped(env)];
    assert ticks[1..] == [Popped(env)];
    assert ticks[1..][1..] == [];
    var after := AfterPop(s, env);
    assert after == State([], map["site1" := Deployed]);
    assert Run(s, ticks, true) == Run(s, ticks[1..], true);
    assert Run(after, [], true) == RunOutcome(after, [], [], false);
  }

  /** The intended loop: a rejected `brPop` costs nothing but its tick. */
  lemma PopFailureRetried(s: State, rest: seq<Tick>)
    ensures Run(s, [PopFails] + rest, true) == Run(s, rest, true)
    ensures !Run(s, rest, true).crashed
  {
    assert ([PopFails] + rest)[1..] == rest;
  }

  /** Two sites submitted one after the other through the intake service
      are popped in that order. */
  lemma SubmissionOrder(a: string, b: string, ea: JobEnv, eb: JobEnv)
    ensures var ticks := [Submitted(a, Intake.NoFault), Submitted(b, Intake.NoFault), Popped(ea), Popped(eb)];
      Run(State([], map[]), ticks, true).popped == [a, b]
  {
    var ticks := [Submitted(a, Intake.NoFault), Submitted(b, Intake.NoFault), Popped(ea), Popped(eb)];
    var drain := [Popped(ea), Popped(eb)];
    assert ticks[1..] == [Submitted(b, Intake.NoFault)] + drain;
    assert ([Submitted(b, Intake.NoFault)] + drain)[1..] == drain;
    var s1 := Intake.Publish(State([], map[]), a, Intake.NoFault);
    var s2 := Intake.Publish(s1, b, Intake.NoFault);
    assert s2.buildQueue == [b, a];
    DrainTwo(s2, a, b, ea, eb);
    assert Run(s1, ticks[1..], true).popped == Run(s2, drain, true).popped;
  }

  /** Two pops from a queue holding `b` then `a` (newest first) take `a`,
      then `b`. */
  lemma DrainTwo(s: State, a: string, b: string, ea: JobEnv, eb: JobEnv)
    requires s.buildQueue == [b, a]
    ensures Run(s, [Popped(ea), Popped(eb)], true).popped == [a, b]
  {
    var last := [Popped(eb)];
    assert [Popped(ea), Popped(eb)][1..] == last;
    assert last[1..] == [];
    var s1 := AfterPop(s, ea);
    assert s1.buildQueue == [b];
    assert Run(s1, last, true).popped == [b];
  }

  // ---------------------------------------------------------------------
  // Where the uploads land
  // ---------------------------------------------------------------------

  /** A file of the build output at path `segs` is uploaded under exactly
      the key the gateway reads for the request path `/segs[0]/.../segs[n]`,
      as long as its path has no `..` (which the gateway strips) and no name
      on it contains `\` (which the uploader turns into `/`). */
  lemma UploadKeyIsServingKey(id: string, segs: seq<string>)
    requires Gateway.IsValidId(id)
    requires segs != []
    requires forall k :: 0 <= k < |segs| ==> segs[k] != "" && '/' !in segs[k] && '\\' !in segs[k]
    requires NoAdjacent(JoinWith(segs, '/'), '.')
    ensures Uploader.DirectoryKey(DistPrefix(id), JoinWith(segs, '/'))
         == Gateway.StorageKey(id, "/" + JoinWith(segs, '/'))
  {
    var rel := JoinWith(segs, '/');
    JoinWithSeparated(segs, '/');
    CleanPathIsServed(rel);
    JoinWithChars(segs, '/', '\\');
    NoBackslashKey(id, rel);
  }

  /** Without the backslash condition the correspondence fails: the
      uploader turns `\` into `/`, the gateway keeps it. */
  lemma BackslashNameNotServed(id: string, rel: string)
    requires '\\' in rel
    ensures Uploader.DirectoryKey(DistPrefix(id), rel) != Gateway.StorageKey(id, "/" + rel)
  {
    var p := "/" + rel;
    var stripped := Gateway.StripLeadingSlash(Gateway.DefaultIndex(p));
    var k :| 0 <= k < |rel| && rel[k] == '\\';
    if EndsWith(p, "/") {
      assert stripped == rel + Gateway.IndexHtml;
    } else {
      assert stripped == rel;
    }
    assert stripped[k] == '\\';
    Gateway.SanitizeKeepsChar(stripped, '\\');
    var op := Gateway.ObjectPath(p);
    var j :| 0 <= j < |op| && op[j] == '\\';
    var key := Gateway.StorageKey(id, p);
    assert key[|id + Gateway.DistInfix| + j] == '\\';
  }

  /** The gateway leaves a clean relative path as it is. */
  lemma CleanPathIsServed(rel: string)
    requires rel != [] && rel[0] != '/' && rel[|rel| - 1] != '/'
    requires NoAdjacent(rel, '.') && NoAdjacent(rel, '/')
    ensures Gateway.ObjectPath("/" + rel) == rel
  {
    assert !EndsWith("/" + rel, "/");
    Gateway.ObjectPathShape("/" + rel);
    assert ("/" + rel)[1..] == rel;
    Gateway.RemoveDotPairsIdentity(rel);
    Gateway.CollapseSlashesIdentity(rel);
  }

  lemma NoBackslashKey(id: string, rel: string)
    requires Gateway.IsValidId(id) && '\\' !in rel
    ensures Uploader.DirectoryKey(DistPrefix(id), rel) == id + Gateway.DistInfix + rel
  {
    var full := DistPrefix(id) + "/" + rel;
    assert full == id + Gateway.DistInfix + rel;
    assert forall k :: 0 <= k < |full| ==> full[k] != '\\';
    assert ReplaceChar(full, '\\', '/') == full;
  }

  lemma {:induction false} JoinWithChars(parts: seq<string>, c: char, x: char)
    requires |parts| >= 1 && x != c
    requires forall k :: 0 <= k < |parts| ==> x !in parts[k]
    ensures x !in JoinWith(parts, c)
  {
    if |parts| > 1 {
      JoinWithChars(parts[1..], c, x);
    }
  }

  /** Every file of a deployed build output whose path has no `..` and no
      name with `\` is reachable through the gateway: the `i`-th upload's
      key is the storage key of the request path formed from the `i`-th
      walked file. */
  lemma DeployedFilesServed(bucket: string, id: string, dist: seq<Node>,
                            put: Uploader.PutRequest -> Uploader.PutOutcome, i: nat)
    requires Gateway.IsValidId(id)
    requires i < |Paths(Uploader.UploadSkip, dist)|
    requires var segs := Paths(Uploader.UploadSkip, dist)[i];
      (forall k :: 0 <= k < |segs| ==> segs[k] != "" && '/' !in segs[k] && '\\' !in segs[k])
      && NoAdjacent(JoinWith(segs, '/'), '.')
    ensures var uploads := Uploader.DirectoryUploads(bucket, DistDir(id), DistPrefix(id), dist, put);
      i < |uploads| &&
      uploads[i].key == Gateway.StorageKey(id, "/" + JoinWith(Paths(Uploader.UploadSkip, dist)[i], '/'))
  {
    Uploader.DirectoryUploadsFollowTree(bucket, DistDir(id), DistPrefix(id), dist, put);
    UploadKeyIsServingKey(id, Paths(Uploader.UploadSkip, dist)[i]);
  }
}
