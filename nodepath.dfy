/** The parts of Node's `path` module the services rely on: the last
    component of a path (`basename`) and its extension (`extname`). */
module NodePath {
  import opened Text

  /** The position of the last `c` in `s`. */
  function LastIndex(s: string, c: char): (i: nat)
    requires c in s
    ensures i < |s| && s[i] == c && c !in s[i + 1..]
  {
    if s[|s| - 1] == c then |s| - 1
    else
      assert s == s[..|s| - 1] + [s[|s| - 1]];
      LastIndex(s[..|s| - 1], c)
  }

  lemma LastIndexUnique(s: string, c: char, j: nat)
    requires c in s && j < |s| && s[j] == c && c !in s[j + 1..]
    ensures LastIndex(s, c) == j
  {
    var i := LastIndex(s, c);
  }

  /** Trailing slashes are not part of the last path component. */
  function TrimTrailingSlashes(p: string): (r: string)
    ensures StartsWith(p, r)
    ensures r == [] || r[|r| - 1] != '/'
  {
    if p != [] && p[|p| - 1] == '/' then TrimTrailingSlashes(p[..|p| - 1]) else p
  }

  /** The text after the last `/` of a path without trailing slashes. */
  function LastComponent(p: string): (b: string)
    ensures '/' !in b
  {
    if '/' in p then p[LastIndex(p, '/') + 1..] else p
  }

  /** Node's `path.basename`: the last component, trailing slashes ignored. */
  function Basename(p: string): (b: string)
    ensures '/' !in b
  {
    LastComponent(TrimTrailingSlashes(p))
  }

  /** The base name of `dir/name` is `name` when `name` is a non-empty
      component. */
  lemma BasenameOfChild(dir: string, name: string)
    requires name != [] && '/' !in name
    ensures Basename(dir + "/" + name) == name
  {
    var p := dir + "/" + name;
    assert p[|p| - 1] == name[|name| - 1];
    assert TrimTrailingSlashes(p) == p;
    assert p[|dir|] == '/' && p[|dir| + 1..] == name;
    LastIndexUnique(p, '/', |dir|);
  }

  /** Node's `path.extname`: from the last `.` of the last path component
      to its end, except that a component with no dot, one whose only dot is
      its first character (`.htaccess`) and the component `..` have none. */
  function Extname(p: string): (ext: string)
    ensures ext == [] || (ext[0] == '.' && '/' !in ext)
  {
    ComponentExt(Basename(p))
  }

  /** The extension of a single path component `b`. */
  function ComponentExt(b: string): (ext: string)
    requires '/' !in b
    ensures ext == [] || (ext[0] == '.' && '/' !in ext)
  {
    if '.' !in b then ""
    else
      var d := LastIndex(b, '.');
      if d == 0 || b == ".." then "" else b[d..]
  }

  lemma LowerKeepsSeparators(ch: char)
    ensures LowerChar(ch) == '/' <==> ch == '/'
    ensures LowerChar(ch) == '.' <==> ch == '.'
  {
  }

  lemma LowerPrefix(s: string, n: nat)
    requires n <= |s|
    ensures ToLower(s)[..n] == ToLower(s[..n]) && ToLower(s)[n..] == ToLower(s[n..])
  {
  }

  lemma LowerHas(s: string, c: char)
    requires c == '/' || c == '.'
    ensures c in ToLower(s) <==> c in s
  {
    if c in s {
      var i :| 0 <= i < |s| && s[i] == c;
      assert ToLower(s)[i] == c;
    }
    if c in ToLower(s) {
      var i :| 0 <= i < |s| && ToLower(s)[i] == c;
      LowerKeepsSeparators(s[i]);
    }
  }

  lemma LowerLastIndex(s: string, c: char)
    requires c == '/' || c == '.'
    requires c in s
    ensures c in ToLower(s) && LastIndex(ToLower(s), c) == LastIndex(s, c)
  {
    LowerHas(s, c);
    var i := LastIndex(s, c);
    LowerPrefix(s, i + 1);
    LowerHas(s[i + 1..], c);
    LastIndexUnique(ToLower(s), c, i);
  }

  lemma {:induction false} LowerTrim(p: string)
    ensures TrimTrailingSlashes(ToLower(p)) == ToLower(TrimTrailingSlashes(p))
  {
    if p != [] {
      LowerKeepsSeparators(p[|p| - 1]);
      if p[|p| - 1] == '/' {
        LowerPrefix(p, |p| - 1);
        LowerTrim(p[..|p| - 1]);
      }
    }
  }

  lemma LowerLastComponent(p: string)
    ensures LastComponent(ToLower(p)) == ToLower(LastComponent(p))
  {
    LowerHas(p, '/');
    if '/' in p {
      LowerLastIndex(p, '/');
      LowerPrefix(p, LastIndex(p, '/') + 1);
    }
  }

  lemma BasenameOfLower(p: string)
    ensures Basename(ToLower(p)) == ToLower(Basename(p))
  {
    LowerTrim(p);
    LowerLastComponent(TrimTrailingSlashes(p));
  }

  lemma ComponentExtOfLower(b: string)
    requires '/' !in b
    ensures '/' !in ToLower(b)
    ensures ComponentExt(ToLower(b)) == ToLower(ComponentExt(b))
  {
    LowerHas(b, '/');
    LowerHas(b, '.');
    if '.' in b {
      LowerLastIndex(b, '.');
      var d := LastIndex(b, '.');
      LowerPrefix(b, d);
      if b == ".." {
        assert ToLower(b) == "..";
      }
      if ToLower(b) == ".." {
        LowerKeepsSeparators(b[0]);
        LowerKeepsSeparators(b[1]);
        assert b == "..";
      }
    }
  }

  /** Lower-casing a path lower-cases its extension and nothing more. */
  lemma ExtnameOfLower(p: string)
    ensures Extname(ToLower(p)) == ToLower(Extname(p))
  {
    BasenameOfLower(p);
    ComponentExtOfLower(Basename(p));
  }

}
