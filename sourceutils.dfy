/** The intake service's helpers (UploadService/utils/utils.js): the walk of a
    cloned repository and the five-character deployment id generator. */
module SourceUtils {
  import opened FileTree
  import Gateway

  /** The intake walk passes over `.git` only. */
  const SourceSkip: set<string> := {".git"}

  /** `getAllFiles(folderPath)` over a directory holding `entries`. */
  method GetAllFiles(folderPath: string, entries: seq<Node>) returns (response: seq<string>)
    ensures response == Listing(SourceSkip, folderPath, entries)
    decreases entries
  {
    response := [];
    ghost var total := Listing(SourceSkip, folderPath, entries);
    var i := 0;
    while i < |entries|
      invariant 0 <= i <= |entries|
      invariant response + Listing(SourceSkip, folderPath, entries[i..]) == total
    {
      var file := entries[i];
      ListingStep(SourceSkip, folderPath, entries, i);
      ghost var rest := Listing(SourceSkip, folderPath, entries[i + 1..]);
      if file.name !in SourceSkip {
        var fullFilePath := Join(folderPath, file.name);
        match file
        case Dir(_, children) =>
          var sub := GetAllFiles(fullFilePath, children);
          assert (response + sub) + rest == response + (sub + rest);
          response := response + sub;
        case File(_) =>
          assert (response + [fullFilePath]) + rest == response + ([fullFilePath] + rest);
          response := response + [fullFilePath];
      }
      i := i + 1;
    }
    assert entries[|entries|..] == [];
  }

  /** A file is listed exactly when no segment of its path is `.git`;
      `node_modules` in particular is walked. */
  lemma SourceListingExact(entries: seq<Node>, p: seq<string>)
    ensures p in Paths(SourceSkip, entries) <==> FileAt(entries, p) && ".git" !in p
  {
    if p in Paths(SourceSkip, entries) {
      PathsSound(SourceSkip, entries, p);
    }
    if FileAt(entries, p) && ".git" !in p {
      PathsComplete(SourceSkip, entries, p);
    }
  }

  lemma NodeModulesWalked()
    ensures Listing(SourceSkip, "repo", [Dir(".git", [File("HEAD")]), Dir("node_modules", [File("a.js")])])
         == ["repo/node_modules/a.js"]
  {
    var tree := [Dir(".git", [File("HEAD")]), Dir("node_modules", [File("a.js")])];
    var inner := [File("a.js")];
    assert "a.js" !in SourceSkip && "node_modules" !in SourceSkip;
    ListingStep(SourceSkip, "repo/node_modules", inner, 0);
    assert inner[1..] == [] && inner[0..] == inner;
    assert Join("repo", "node_modules") == "repo/node_modules";
    ListingStep(SourceSkip, "repo", tree, 1);
    ListingStep(SourceSkip, "repo", tree, 0);
    assert tree[2..] == [] && tree[0..] == tree;
    assert Join("repo/node_modules", "a.js") == "repo/node_modules/a.js";
    assert Listing(SourceSkip, "repo", tree) == [Join("repo/node_modules", "a.js")];
  }

  // ---------------------------------------------------------------------
  // generate (UploadService/utils/utils.js:26-34)
  // ---------------------------------------------------------------------

  const Subset := "123456789qwertyuiopasdfghjklzxcvbnm"
  const IdLength := 5

  /** `Math.floor(r * subset.length)` for a draw `r` of `Math.random()`. */
  function Pick(r: real): (i: nat)
    requires 0.0 <= r < 1.0
    ensures i < |Subset|
  {
    (r * (|Subset| as real)).Floor
  }

  /** Where each symbol sits in `Subset`; a left inverse of indexing. */
  function Position(c: char): int {
    match c
    case '1' => 0
    case '2' => 1
    case '3' => 2
    case '4' => 3
    case '5' => 4
    case '6' => 5
    case '7' => 6
    case '8' => 7
    case '9' => 8
    case 'q' => 9
    case 'w' => 10
    case 'e' => 11
    case 'r' => 12
    case 't' => 13
    case 'y' => 14
    case 'u' => 15
    case 'i' => 16
    case 'o' => 17
    case 'p' => 18
    case 'a' => 19
    case 's' => 20
    case 'd' => 21
    case 'f' => 22
    case 'g' => 23
    case 'h' => 24
    case 'j' => 25
    case 'k' => 26
    case 'l' => 27
    case 'z' => 28
    case 'x' => 29
    case 'c' => 30
    case 'v' => 31
    case 'b' => 32
    case 'n' => 33
    case 'm' => 34
    case _ => -1
  }

  // The alphabet is the digits and the three letter rows of a QWERTY
  // keyboard; one lemma per block keeps each proof small.

  lemma PositionOnDigits()
    ensures forall i :: 0 <= i < 9 ==> Position(Subset[i]) == i
  {
  }

  lemma PositionOnTopRow()
    ensures forall i :: 9 <= i < 19 ==> Position(Subset[i]) == i
  {
  }

  lemma PositionOnHomeRow()
    ensures forall i :: 19 <= i < 28 ==> Position(Subset[i]) == i
  {
  }

  lemma PositionOnBottomRow()
    ensures forall i :: 28 <= i < 35 ==> Position(Subset[i]) == i
  {
  }

  /** The alphabet: 35 distinct symbols, no `0`, no upper-case letter. */
  lemma SubsetShape()
    ensures |Subset| == 35
    ensures forall i :: 0 <= i < |Subset| ==>
      ('1' <= Subset[i] <= '9' || 'a' <= Subset[i] <= 'z')
    ensures forall i, j :: 0 <= i < j < |Subset| ==> Subset[i] != Subset[j]
  {
    PositionOnDigits();
    PositionOnTopRow();
    PositionOnHomeRow();
    PositionOnBottomRow();
  }

  /** Every symbol `generate` can pick is allowed in a gateway tenant id. */
  lemma PickIsIdChar(r: real)
    requires 0.0 <= r < 1.0
    ensures Gateway.IdChar(Subset[Pick(r)])
  {
    SubsetShape();
    var i := Pick(r);
    assert '1' <= Subset[i] <= '9' || 'a' <= Subset[i] <= 'z';
  }

  /** `generate()` given the five draws the loop takes from `Math.random()`. */
  method Generate(draws: seq<real>) returns (id: string)
    requires |draws| == IdLength
    requires forall k :: 0 <= k < |draws| ==> 0.0 <= draws[k] < 1.0
    ensures |id| == IdLength
    ensures forall k :: 0 <= k < IdLength ==> id[k] == Subset[Pick(draws[k])]
    ensures Gateway.IsValidId(id)
  {
    id := "";
    for i := 0 to IdLength
      invariant |id| == i
      invariant forall k :: 0 <= k < i ==> id[k] == Subset[Pick(draws[k])]
      invariant forall k :: 0 <= k < i ==> Gateway.IdChar(id[k])
    {
      PickIsIdChar(draws[i]);
      id := id + [Subset[Pick(draws[i])]];
    }
  }
}
