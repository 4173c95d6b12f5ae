/** A directory tree as `fs.readdirSync`/`fs.statSync` present it, and the
    depth-first file listing that both `getAllFiles` helpers compute
    (UploadService/utils/utils.js:4-22 and DeployService/utils/s3-uploader.js:108-125).
    The two differ only in the names they skip. */
module FileTree {
  import opened Text

  /** An entry of a directory listing, in `readdirSync` order. */
  datatype Node = File(name: string) | Dir(name: string, children: seq<Node>)

  /** `path.join(dir, name)` for a name read from a directory. */
  function Join(dir: string, name: string): string {
    dir + "/" + name
  }

  /** The paths `getAllFiles(folder)` returns when `folder` holds `entries`
      and entries named in `skip` are passed over. */
  function Listing(skip: set<string>, folder: string, entries: seq<Node>): seq<string>
    decreases entries
  {
    if entries == [] then []
    else
      var e := entries[0];
      var here :=
        if e.name in skip then []
        else match e
          case File(n) => [Join(folder, n)]
          case Dir(n, cs) => Listing(skip, Join(folder, n), cs);
      here + Listing(skip, folder, entries[1..])
  }

  /** One step of the walk: entry `i` contributes nothing when skipped, its
      own path when it is a file, and its directory's listing otherwise. */
  lemma ListingStep(skip: set<string>, folder: string, entries: seq<Node>, i: nat)
    requires i < |entries|
    ensures entries[i].name in skip ==>
      Listing(skip, folder, entries[i..]) == Listing(skip, folder, entries[i + 1..])
    ensures entries[i].name !in skip && entries[i].File? ==>
      Listing(skip, folder, entries[i..]) == [Join(folder, entries[i].name)] + Listing(skip, folder, entries[i + 1..])
    ensures entries[i].name !in skip && entries[i].Dir? ==>
      Listing(skip, folder, entries[i..])
        == Listing(skip, Join(folder, entries[i].name), entries[i].children) + Listing(skip, folder, entries[i + 1..])
  {
    assert entries[i..][0] == entries[i];
    assert entries[i..][1..] == entries[i + 1..];
  }

  // ---------------------------------------------------------------------
  // The same listing as sequences of path segments
  // ---------------------------------------------------------------------

  /** Prefix every segment path with the directory name `n`. */
  function Under(n: string, ps: seq<seq<string>>): (r: seq<seq<string>>)
    ensures |r| == |ps|
    ensures forall k :: 0 <= k < |ps| ==> r[k] == [n] + ps[k]
  {
    seq(|ps|, k requires 0 <= k < |ps| => [n] + ps[k])
  }

  /** The listing as segment paths relative to the listed folder. */
  function Paths(skip: set<string>, entries: seq<Node>): (ps: seq<seq<string>>)
    ensures forall k :: 0 <= k < |ps| ==> ps[k] != []
    decreases entries
  {
    if entries == [] then []
    else
      var e := entries[0];
      var here :=
        if e.name in skip then []
        else match e
          case File(n) => [[n]]
          case Dir(n, cs) => Under(n, Paths(skip, cs));
      here + Paths(skip, entries[1..])
  }

  /** The path string of a segment path below `folder`. */
  function Render(folder: string, segs: seq<string>): string
    decreases |segs|
  {
    if segs == [] then folder else Render(Join(folder, segs[0]), segs[1..])
  }

  function RenderAll(folder: string, ps: seq<seq<string>>): (r: seq<string>)
    ensures |r| == |ps|
    ensures forall k :: 0 <= k < |ps| ==> r[k] == Render(folder, ps[k])
  {
    seq(|ps|, k requires 0 <= k < |ps| => Render(folder, ps[k]))
  }

  lemma RenderAllUnder(folder: string, n: string, ps: seq<seq<string>>)
    ensures RenderAll(folder, Under(n, ps)) == RenderAll(Join(folder, n), ps)
  {
    forall k | 0 <= k < |ps|
      ensures RenderAll(folder, Under(n, ps))[k] == RenderAll(Join(folder, n), ps)[k]
    {
      assert ([n] + ps[k])[1..] == ps[k];
    }
  }

  lemma RenderAllConcat(folder: string, a: seq<seq<string>>, b: seq<seq<string>>)
    ensures RenderAll(folder, a + b) == RenderAll(folder, a) + RenderAll(folder, b)
  {
    assert forall k :: 0 <= k < |a| + |b| ==>
      RenderAll(folder, a + b)[k] == (RenderAll(folder, a) + RenderAll(folder, b))[k];
  }

  /** The string listing renders the segment listing. */
  lemma {:induction false} ListingRendersPaths(skip: set<string>, folder: string, entries: seq<Node>)
    ensures Listing(skip, folder, entries) == RenderAll(folder, Paths(skip, entries))
    decreases entries
  {
    if entries != [] {
      var e := entries[0];
      var tail := entries[1..];
      ListingRendersPaths(skip, folder, tail);
      var rest := Paths(skip, tail);
      if e.name in skip {
        assert Paths(skip, entries) == rest;
        assert Listing(skip, folder, entries) == Listing(skip, folder, tail);
      } else if e.File? {
        var n := e.name;
        assert Paths(skip, entries) == [[n]] + rest;
        assert Listing(skip, folder, entries) == [Join(folder, n)] + Listing(skip, folder, tail);
        RenderAllConcat(folder, [[n]], rest);
        assert Render(folder, [n]) == Join(folder, n);
      } else {
        var n, cs := e.name, e.children;
        var below := Paths(skip, cs);
        assert Paths(skip, entries) == Under(n, below) + rest;
        assert Listing(skip, folder, entries)
          == Listing(skip, Join(folder, n), cs) + Listing(skip, folder, tail);
        RenderAllConcat(folder, Under(n, below), rest);
        ListingRendersPaths(skip, Join(folder, n), cs);
        RenderAllUnder(folder, n, below);
      }
    }
  }

  /** A non-empty segment path is rendered as `folder/a/b/...`. */
  lemma {:induction false} RenderJoins(folder: string, segs: seq<string>)
    requires segs != []
    ensures Render(folder, segs) == folder + "/" + JoinWith(segs, '/')
    decreases |segs|
  {
    if |segs| > 1 {
      RenderJoins(Join(folder, segs[0]), segs[1..]);
      assert JoinWith(segs, '/') == segs[0] + "/" + JoinWith(segs[1..], '/');
    }
  }

  // ---------------------------------------------------------------------
  // What the listing contains
  // ---------------------------------------------------------------------

  /** `p` leads from the listed folder through directories to a file. */
  predicate FileAt(entries: seq<Node>, p: seq<string>)
    decreases entries
  {
    p != [] &&
    exists i :: 0 <= i < |entries| && entries[i].name == p[0] &&
      (if |p| == 1 then entries[i].File?
       else entries[i].Dir? && FileAt(entries[i].children, p[1..]))
  }

  /** No segment of `p` is a skipped name. */
  predicate Avoids(p: seq<string>, skip: set<string>) {
    forall j :: 0 <= j < |p| ==> p[j] !in skip
  }

  lemma FileAtLater(entries: seq<Node>, p: seq<string>)
    requires entries != [] && FileAt(entries[1..], p)
    ensures FileAt(entries, p)
  {
    var i :| 0 <= i < |entries[1..]| && entries[1..][i].name == p[0] &&
      (if |p| == 1 then entries[1..][i].File?
       else entries[1..][i].Dir? && FileAt(entries[1..][i].children, p[1..]));
    assert entries[i + 1] == entries[1..][i];
  }

  /** Every listed path leads to a file and passes through no skipped entry. */
  lemma {:induction false} PathsSound(skip: set<string>, entries: seq<Node>, p: seq<string>)
    requires p in Paths(skip, entries)
    ensures FileAt(entries, p) && Avoids(p, skip)
    decreases entries
  {
    var e := entries[0];
    var rest := Paths(skip, entries[1..]);
    if p in rest {
      PathsSound(skip, entries[1..], p);
      FileAtLater(entries, p);
    } else {
      assert e.name !in skip;
      match e
      case File(n) =>
        assert p == [n];
      case Dir(n, cs) =>
        assert p in Under(n, Paths(skip, cs));
        var k :| 0 <= k < |Paths(skip, cs)| && p == [n] + Paths(skip, cs)[k];
        var q := Paths(skip, cs)[k];
        PathsSound(skip, cs, q);
        assert p[1..] == q;
        assert entries[0].Dir? && FileAt(entries[0].children, p[1..]);
        assert forall j :: 1 <= j < |p| ==> p[j] == q[j - 1];
    }
  }

  /** Every file reachable without passing a skipped entry is listed. */
  lemma {:induction false} PathsComplete(skip: set<string>, entries: seq<Node>, p: seq<string>)
    requires FileAt(entries, p) && Avoids(p, skip)
    ensures p in Paths(skip, entries)
    decreases entries
  {
    var i :| 0 <= i < |entries| && entries[i].name == p[0] &&
      (if |p| == 1 then entries[i].File?
       else entries[i].Dir? && FileAt(entries[i].children, p[1..]));
    var e := entries[0];
    var rest := Paths(skip, entries[1..]);
    if i == 0 {
      assert e.name !in skip;
      match e
      case File(n) =>
        assert p == [n];
        assert Paths(skip, entries) == [[n]] + rest;
      case Dir(n, cs) =>
        var q := p[1..];
        assert Avoids(q, skip) by {
          assert forall j :: 0 <= j < |q| ==> q[j] == p[j + 1];
        }
        PathsComplete(skip, cs, q);
        var k :| 0 <= k < |Paths(skip, cs)| && Paths(skip, cs)[k] == q;
        assert p == [n] + q;
        assert Under(n, Paths(skip, cs))[k] == p;
        assert Paths(skip, entries) == Under(n, Paths(skip, cs)) + rest;
    } else {
      assert entries[1..][i - 1] == entries[i];
      assert FileAt(entries[1..], p);
      PathsComplete(skip, entries[1..], p);
    }
  }

  // ---------------------------------------------------------------------
  // Each file exactly once
  // ---------------------------------------------------------------------

  /** Sibling names are distinct at every level, as in a real directory. */
  predicate UniqueNames(entries: seq<Node>)
    decreases entries
  {
    (forall i, j :: 0 <= i < j < |entries| ==> entries[i].name != entries[j].name)
    && (forall i :: 0 <= i < |entries| && entries[i].Dir? ==> UniqueNames(entries[i].children))
  }

  predicate Distinct<T(==)>(s: seq<T>) {
    forall i, j :: 0 <= i < j < |s| ==> s[i] != s[j]
  }

  lemma UnderDistinct(n: string, ps: seq<seq<string>>)
    requires Distinct(ps)
    ensures Distinct(Under(n, ps))
  {
    forall i, j | 0 <= i < j < |ps|
      ensures Under(n, ps)[i] != Under(n, ps)[j]
    {
      assert Under(n, ps)[i][1..] == ps[i];
      assert Under(n, ps)[j][1..] == ps[j];
    }
  }

  lemma DistinctConcat<T>(a: seq<T>, b: seq<T>)
    requires Distinct(a) && Distinct(b)
    requires forall x :: x in a ==> x !in b
    ensures Distinct(a + b)
  {
    forall i, j | 0 <= i < j < |a + b|
      ensures (a + b)[i] != (a + b)[j]
    {
      if i < |a| && j >= |a| {
        assert (a + b)[i] in a && (a + b)[j] in b;
      }
    }
  }

  /** Every listed path starts with the name of one of the listed entries. */
  lemma ListedHeadsAreNames(skip: set<string>, entries: seq<Node>, name: string)
    requires forall i :: 0 <= i < |entries| ==> entries[i].name != name
    ensures forall x :: x in Paths(skip, entries) ==> x != [] && x[0] != name
  {
    forall x | x in Paths(skip, entries)
      ensures x != [] && x[0] != name
    {
      PathsSound(skip, entries, x);
    }
  }

  /** In a tree with unique sibling names the listing names each file once. */
  lemma {:induction false} PathsDistinct(skip: set<string>, entries: seq<Node>)
    requires UniqueNames(entries)
    ensures Distinct(Paths(skip, entries))
    decreases entries
  {
    if entries != [] {
      var e := entries[0];
      var tail := entries[1..];
      assert UniqueNames(tail) by {
        forall i | 0 <= i < |tail| && tail[i].Dir?
          ensures UniqueNames(tail[i].children)
        {
          assert tail[i] == entries[i + 1];
        }
      }
      PathsDistinct(skip, tail);
      var rest := Paths(skip, tail);
      var here :=
        if e.name in skip then []
        else match e
          case File(n) => [[n]]
          case Dir(n, cs) => Under(n, Paths(skip, cs));
      assert Paths(skip, entries) == here + rest;
      if e.Dir? && e.name !in skip {
        PathsDistinct(skip, e.children);
        UnderDistinct(e.name, Paths(skip, e.children));
      }
      assert forall i :: 0 <= i < |tail| ==> tail[i].name != e.name by {
        forall i | 0 <= i < |tail|
          ensures tail[i].name != e.name
        {
          assert tail[i] == entries[i + 1];
        }
      }
      ListedHeadsAreNames(skip, tail, e.name);
      assert forall x :: x in here ==> x != [] && x[0] == e.name;
      DistinctConcat(here, rest);
    }
  }

  /** Entry names never contain `/`, as `readdirSync` reports them. */
  predicate SlashFreeNames(entries: seq<Node>)
    decreases entries
  {
    forall i :: 0 <= i < |entries| ==>
      '/' !in entries[i].name && (entries[i].Dir? ==> SlashFreeNames(entries[i].children))
  }

  lemma {:induction false} FileAtSlashFree(entries: seq<Node>, p: seq<string>)
    requires SlashFreeNames(entries) && FileAt(entries, p)
    ensures forall k :: 0 <= k < |p| ==> '/' !in p[k]
    decreases entries
  {
    var i :| 0 <= i < |entries| && entries[i].name == p[0] &&
      (if |p| == 1 then entries[i].File?
       else entries[i].Dir? && FileAt(entries[i].children, p[1..]));
    if |p| > 1 {
      FileAtSlashFree(entries[i].children, p[1..]);
      assert forall k :: 1 <= k < |p| ==> p[k] == p[1..][k - 1];
    }
  }

  /** Distinct slash-free segment paths render to distinct path strings. */
  lemma RenderInjective(folder: string, s1: seq<string>, s2: seq<string>)
    requires s1 != [] && s2 != []
    requires forall k :: 0 <= k < |s1| ==> '/' !in s1[k]
    requires forall k :: 0 <= k < |s2| ==> '/' !in s2[k]
    requires Render(folder, s1) == Render(folder, s2)
    ensures s1 == s2
  {
    RenderJoins(folder, s1);
    RenderJoins(folder, s2);
    var n := |folder| + 1;
    assert JoinWith(s1, '/') == Render(folder, s1)[n..];
    assert JoinWith(s2, '/') == Render(folder, s2)[n..];
    JoinSplit(s1, '/');
    JoinSplit(s2, '/');
  }

  /** In a real directory tree the listing names each file once. */
  lemma ListingDistinct(skip: set<string>, folder: string, entries: seq<Node>)
    requires UniqueNames(entries) && SlashFreeNames(entries)
    ensures Distinct(Listing(skip, folder, entries))
  {
    ListingRendersPaths(skip, folder, entries);
    PathsDistinct(skip, entries);
    var ps := Paths(skip, entries);
    forall i, j | 0 <= i < j < |ps|
      ensures Render(folder, ps[i]) != Render(folder, ps[j])
    {
      PathsSound(skip, entries, ps[i]);
      PathsSound(skip, entries, ps[j]);
      FileAtSlashFree(entries, ps[i]);
      FileAtSlashFree(entries, ps[j]);
      if Render(folder, ps[i]) == Render(folder, ps[j]) {
        RenderInjective(folder, ps[i], ps[j]);
      }
    }
  }
}
