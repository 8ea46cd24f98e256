/** The compile-database command: the search for the default working
    directory offered to the user (as written, and the nearest `src`
    directory at or above the first workspace root that it was meant to
    find), and the `jia all` command line listing every root. A path is the
    sequence of its segments below the file-system root, so the root itself
    is the empty sequence. */
module Compdb {
  import opened Symbols
  import Matcher
  import Seqs

  type Path = seq<string>

  /** `path.basename`: the last segment, `""` for the root. */
  function Basename(p: Path): string
  {
    if p == [] then "" else p[|p| - 1]
  }

  /** `path.dirname`: the parent; the root is its own parent. */
  function Dirname(p: Path): (d: Path)
    ensures p != [] ==> |d| == |p| - 1 && d == p[..|p| - 1]
    ensures p == [] ==> d == []
  {
    if p == [] then [] else p[..|p| - 1]
  }

  lemma RootIsItsOwnParent(p: Path)
    ensures p == Dirname(p) <==> p == []
  {
  }

  /** The condition of the search loop as the source writes it: it reads the
      input path, which the loop body never assigns. */
  predicate AsWrittenGuard(filePath: Path)
  {
    Basename(filePath) != "src" && filePath != Dirname(filePath)
  }

  /** The search for a `src` directory as the source writes it. The loop
      would run for ever whenever its guard holds on entry, so it is given
      `fuel` iterations: `None` means the fuel ran out with the loop still
      running. It finishes, whatever the fuel, exactly when the input is
      itself named `src` or is the root, and then returns the input. */
  method TruncateToSrcDirAsWritten(filePath: Path, fuel: nat) returns (r: Option<Path>)
    ensures r.Some? <==> !AsWrittenGuard(filePath)
    ensures r.Some? ==> r.value == filePath
  {
    var currentPath := filePath;
    var steps := 0;
    while Basename(filePath) != "src" && filePath != Dirname(filePath)
      invariant steps <= fuel
      invariant currentPath == filePath || currentPath == Dirname(filePath)
      invariant currentPath != filePath ==> AsWrittenGuard(filePath)
      decreases fuel - steps
    {
      if steps == fuel {
        return None;
      }
      currentPath := Dirname(filePath);
      steps := steps + 1;
    }
    r := Some(if Basename(currentPath) == "src" then currentPath else filePath);
  }

  /** A workspace folder inside a `src` tree: the as-written loop never
      finishes on it, while the intended answer is its `src` ancestor. */
  lemma AsWrittenLoopsBelowSrc()
    ensures AsWrittenGuard(["home", "dev", "proj", "src", "lib"])
    ensures SrcDir(["home", "dev", "proj", "src", "lib"]) == ["home", "dev", "proj", "src"]
  {
  }

  /** The nearest directory named `src` at or above `p`, or `p` itself when
      there is none. */
  function SrcDir(p: Path): (r: Path)
    ensures "src" in p ==> 0 < |r| <= |p| && r == p[..|r|] && r[|r| - 1] == "src" && "src" !in p[|r|..]
    ensures "src" !in p ==> r == p
  {
    var r := SrcAncestor(p);
    if r == [] then p else r
  }

  /** The nearest `src` ancestor walked up from `p`, or `[]` when there is
      none. */
  function SrcAncestor(p: Path): (r: Path)
    ensures "src" in p ==> 0 < |r| <= |p| && r == p[..|r|] && r[|r| - 1] == "src" && "src" !in p[|r|..]
    ensures "src" !in p ==> r == []
  {
    if p == [] then []
    else if p[|p| - 1] == "src" then
      assert p[|p|..] == [];
      p
    else
      var r := SrcAncestor(p[..|p| - 1]);
      assert p == p[..|p| - 1] + [p[|p| - 1]];
      if r != [] then
        assert p[|r|..] == p[..|p| - 1][|r|..] + [p[|p| - 1]];
        r
      else r
  }

  /** The intended walk: climb from the input while the current directory is
      neither named `src` nor the root, and answer the `src` directory found
      or else the input. */
  method TruncateToSrcDir(filePath: Path) returns (r: Path)
    ensures r == SrcDir(filePath)
  {
    var currentPath := filePath;
    while Basename(currentPath) != "src" && currentPath != Dirname(currentPath)
      invariant |currentPath| <= |filePath| && currentPath == filePath[..|currentPath|]
      invariant "src" !in filePath[|currentPath|..]
      decreases |currentPath|
    {
      assert filePath[|currentPath| - 1..] == [currentPath[|currentPath| - 1]] + filePath[|currentPath|..];
      currentPath := Dirname(currentPath);
    }
    r := if Basename(currentPath) == "src" then currentPath else filePath;
    SrcDirIsNearest(filePath, currentPath);
  }

  /** A prefix that ends in `src` with no `src` after it is the answer, and
      when the walk reaches the root without one there is none. */
  lemma SrcDirIsNearest(p: Path, cur: Path)
    requires |cur| <= |p| && cur == p[..|cur|] && "src" !in p[|cur|..]
    requires Basename(cur) == "src" || cur == []
    ensures SrcDir(p) == if Basename(cur) == "src" then cur else p
  {
    var r := SrcDir(p);
    assert p == cur + p[|cur|..];
    if cur == [] {
      assert "src" !in p;
    } else {
      assert "src" in p by {
        assert p[|cur| - 1] == "src";
      }
      assert |r| == |cur|;
    }
  }

  /** The walk never goes below its input and keeps the input when no
      segment is named `src`. */
  lemma SrcDirIsAnAncestorOrSelf(p: Path)
    ensures |SrcDir(p)| <= |p| && SrcDir(p) == p[..|SrcDir(p)|]
    ensures Basename(SrcDir(p)) == "src" || SrcDir(p) == p
  {
  }

  // ---------------------------------------------------------------------
  // The command line

  /** A path as the operating system writes it: `/` for the root, otherwise
      `/` before each segment. */
  function FsPath(p: Path): string
  {
    if p == [] then "/" else Slashed(p)
  }

  function Slashed(p: Path): string
  {
    if p == [] then "" else "/" + p[0] + Slashed(p[1..])
  }

  /** `" " + root` for each root, in order. */
  function Suffix(roots: seq<Path>): string
  {
    if roots == [] then "" else Suffix(roots[..|roots| - 1]) + " " + FsPath(roots[|roots| - 1])
  }

  const JiaAll: string := "jia all"

  /** Builds the command one root at a time, as the source's loop does. */
  method JiaCommand(roots: seq<Path>) returns (cmd: string)
    ensures cmd == JiaAll + Suffix(roots)
  {
    cmd := JiaAll;
    for i := 0 to |roots|
      invariant cmd == JiaAll + Suffix(roots[..i])
    {
      assert roots[..i + 1][..i] == roots[..i];
      assert Suffix(roots[..i + 1]) == Suffix(roots[..i]) + " " + FsPath(roots[i]);
      Seqs.ConcatAssoc(JiaAll, Suffix(roots[..i]) + " ", FsPath(roots[i]));
      Seqs.ConcatAssoc(JiaAll, Suffix(roots[..i]), " ");
      cmd := cmd + " " + FsPath(roots[i]);
    }
    assert roots[..|roots|] == roots;
  }

  /** The OS paths of a list of roots. */
  function FsPaths(roots: seq<Path>): (r: seq<string>)
    ensures |r| == |roots| && forall k :: 0 <= k < |roots| ==> r[k] == FsPath(roots[k])
  {
    seq(|roots|, k requires 0 <= k < |roots| => FsPath(roots[k]))
  }

  /** Segments a shell splits nowhere. */
  predicate PlainSegments(p: Path)
  {
    forall k :: 0 <= k < |p| ==> Matcher.HasNoWhitespace(p[k])
  }

  lemma {:induction false} SlashedHasNoWhitespace(p: Path)
    requires PlainSegments(p)
    ensures Matcher.HasNoWhitespace(Slashed(p))
  {
    if p != [] {
      assert PlainSegments(p[1..]) by {
        assert forall k :: 0 <= k < |p[1..]| ==> p[1..][k] == p[k + 1];
      }
      SlashedHasNoWhitespace(p[1..]);
      var s := Slashed(p[1..]);
      assert forall k :: 0 <= k < |"/" + p[0] + s| ==>
        ("/" + p[0] + s)[k] == (if k == 0 then '/' else if k <= |p[0]| then p[0][k - 1] else s[k - 1 - |p[0]|]);
    }
  }

  /** The command written as words joined by single spaces. */
  lemma {:induction false} CommandIsJoinedWords(roots: seq<Path>)
    ensures JiaAll + Suffix(roots) == Matcher.JoinWithSpaces(["jia", "all"] + FsPaths(roots))
    decreases |roots|
  {
    if roots == [] {
      assert ["jia", "all"] + FsPaths(roots) == ["jia", "all"];
      assert ["jia", "all"][1..] == ["all"];
    } else {
      var init, last := roots[..|roots| - 1], FsPath(roots[|roots| - 1]);
      var words := ["jia", "all"] + FsPaths(init);
      CommandIsJoinedWords(init);
      JoinSnoc(words, last);
      FsPathsSnoc(roots);
      calc {
        JiaAll + Suffix(roots);
        JiaAll + ((Suffix(init) + " ") + last);
        { Seqs.ConcatAssoc(JiaAll, Suffix(init) + " ", last); }
        (JiaAll + (Suffix(init) + " ")) + last;
        { Seqs.ConcatAssoc(JiaAll, Suffix(init), " "); }
        ((JiaAll + Suffix(init)) + " ") + last;
        Matcher.JoinWithSpaces(words) + " " + last;
        Matcher.JoinWithSpaces(words + [last]);
        Matcher.JoinWithSpaces(["jia", "all"] + FsPaths(roots));
      }
    }
  }

  lemma FsPathsSnoc(roots: seq<Path>)
    requires roots != []
    ensures ["jia", "all"] + FsPaths(roots) == (["jia", "all"] + FsPaths(roots[..|roots| - 1])) + [FsPath(roots[|roots| - 1])]
  {
    assert FsPaths(roots) == FsPaths(roots[..|roots| - 1]) + [FsPath(roots[|roots| - 1])];
  }

  /** Joining one more word adds a space and the word. */
  lemma {:induction false} JoinSnoc(words: seq<string>, w: string)
    requires |words| >= 1
    ensures Matcher.JoinWithSpaces(words + [w]) == Matcher.JoinWithSpaces(words) + " " + w
    decreases |words|
  {
    if |words| == 1 {
      assert (words + [w])[1..] == [w];
    } else {
      assert (words + [w])[1..] == words[1..] + [w];
      JoinSnoc(words[1..], w);
    }
  }

  /** A shell reading the command back sees `jia`, `all`, then each root's
      path in order, when the paths contain no whitespace. */
  lemma CommandSplitsIntoRoots(roots: seq<Path>)
    requires forall k :: 0 <= k < |roots| ==> PlainSegments(roots[k])
    ensures Matcher.SplitWhitespace(JiaAll + Suffix(roots)) == ["jia", "all"] + FsPaths(roots)
  {
    CommandIsJoinedWords(roots);
    CommandWords(roots);
    Matcher.SplitJoinRoundTrip(["jia", "all"] + FsPaths(roots));
  }

  lemma CommandWords(roots: seq<Path>)
    requires forall k :: 0 <= k < |roots| ==> PlainSegments(roots[k])
    ensures Matcher.AreWords(["jia", "all"] + FsPaths(roots))
  {
    var words := ["jia", "all"] + FsPaths(roots);
    forall k | 0 <= k < |words|
      ensures words[k] != [] && Matcher.HasNoWhitespace(words[k])
    {
      if k >= 2 {
        var p := roots[k - 2];
        assert words[k] == FsPath(p);
        if p != [] {
          SlashedHasNoWhitespace(p);
        }
      }
    }
  }

  // ---------------------------------------------------------------------
  // The command

  const NoRootsMessage: string := "No root directories found."
  const NoInputMessage: string := "Has not input root directory"

  /** What the command ends in: no roots (`NoRoots`); the search for the
      default directory never returning, so that no input box, message or
      terminal ever appears (`Hangs`); the input box dismissed (`Cancelled`);
      or a terminal at the chosen directory that runs the command line
      (`Ran`). */
  datatype Outcome =
    | NoRoots(message: string)
    | Hangs
    | Cancelled(offered: string, message: string)
    | Ran(offered: string, cwd: string, command: string, message: string)

  /** Where the as-written search does finish, it agrees with the intended
      one: a path named `src`, and the root, are their own `src` directory. */
  lemma AsWrittenAgreesWhereItFinishes(p: Path)
    requires !AsWrittenGuard(p)
    ensures SrcDir(p) == p
  {
  }

  /** The command, given the workspace roots and what the user answers in
      the input box that offers the default directory (`None` when it is
      dismissed). The default directory comes from the search as written,
      run for at most `fuel` iterations; since it never returns when its
      guard holds on the first root, the outcome does not depend on `fuel`. */
  method GenCompdb(roots: seq<Path>, answer: Option<string>, fuel: nat) returns (o: Outcome)
    ensures roots == [] <==> o.NoRoots?
    ensures roots == [] ==> o.message == NoRootsMessage
    ensures roots != [] ==> (o.Hangs? <==> AsWrittenGuard(roots[0]))
    ensures roots != [] && !AsWrittenGuard(roots[0]) ==>
      o.offered == FsPath(roots[0]) == FsPath(SrcDir(roots[0]))
    ensures roots != [] && !AsWrittenGuard(roots[0]) && answer.None? ==>
      o == Cancelled(o.offered, NoInputMessage)
    ensures roots != [] && !AsWrittenGuard(roots[0]) && answer.Some? ==>
      && o.Ran? && o.cwd == answer.value
      && o.command == JiaAll + Suffix(roots)
      && o.message == "Execute Command: " + o.command
  {
    if |roots| == 0 {
      return NoRoots(NoRootsMessage);
    }
    var defaultDir := TruncateToSrcDirAsWritten(roots[0], fuel);
    if defaultDir.None? {
      return Hangs;
    }
    AsWrittenAgreesWhereItFinishes(roots[0]);
    var offered := FsPath(defaultDir.value);
    if answer.None? {
      return Cancelled(offered, NoInputMessage);
    }
    var cmd := JiaCommand(roots);
    o := Ran(offered, answer.value, cmd, "Execute Command: " + cmd);
  }
}
