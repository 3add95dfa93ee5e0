/** The parts of Python's `posixpath` the path handling relies on: `join`
    of two paths, `normpath`, `abspath` with the working directory as a
    parameter, the last component of `split`, and the extension of
    `splitext`. */
module PosixPath {
  import opened PyText

  /** `os.path.join(a, b)`: an absolute `b` replaces `a`; otherwise a slash is
      put between them unless `a` is empty or already ends with one. */
  function PathJoin(a: string, b: string): (r: string)
    ensures |b| > 0 && b[0] == '/' ==> r == b
    ensures !(|b| > 0 && b[0] == '/') && (a == [] || a[|a| - 1] == '/') ==> r == a + b
    ensures !(|b| > 0 && b[0] == '/') && !(a == [] || a[|a| - 1] == '/') ==> r == a + "/" + b
  {
    if |b| > 0 && b[0] == '/' then b
    else if a == [] || a[|a| - 1] == '/' then a + b
    else a + "/" + b
  }

  predicate IsAbs(p: string) {
    |p| > 0 && p[0] == '/'
  }

  /** The component loop of `normpath`: empty and `.` components vanish,
      `..` drops the previous component, and is kept only when nothing can
      be dropped in a relative path. */
  function NormComps(comps: seq<string>, initial: bool, acc: seq<string>): (r: seq<string>)
    decreases |comps|
  {
    if comps == [] then acc
    else
      var comp := comps[0];
      if comp == "" || comp == "." then NormComps(comps[1..], initial, acc)
      else if comp != ".." || (!initial && acc == []) || (acc != [] && acc[|acc| - 1] == "..") then
        NormComps(comps[1..], initial, acc + [comp])
      else if acc != [] then NormComps(comps[1..], initial, acc[..|acc| - 1])
      else NormComps(comps[1..], initial, acc)
  }

  /** A component `normpath` leaves in an absolute path: never empty, `.`
      or `..`. */
  predicate PlainComp(c: string) {
    c != "" && c != "." && c != ".."
  }

  /** Normalising an absolute path leaves only plain components. */
  lemma {:induction false} NormCompsPlain(comps: seq<string>, acc: seq<string>)
    requires forall i :: 0 <= i < |acc| ==> PlainComp(acc[i])
    ensures forall i :: 0 <= i < |NormComps(comps, true, acc)| ==> PlainComp(NormComps(comps, true, acc)[i])
    decreases |comps|
  {
    if comps != [] {
      var comp := comps[0];
      if comp == "" || comp == "." {
        NormCompsPlain(comps[1..], acc);
      } else if comp != ".." {
        NormCompsPlain(comps[1..], acc + [comp]);
      } else if acc != [] {
        NormCompsPlain(comps[1..], acc[..|acc| - 1]);
      } else {
        NormCompsPlain(comps[1..], acc);
      }
    }
  }

  /** How many slashes `normpath` keeps in front: two stay two, any other
      positive number becomes one. */
  function InitialSlashes(p: string): nat {
    if !StartsWith(p, "/") then 0
    else if StartsWith(p, "//") && !StartsWith(p, "///") then 2
    else 1
  }

  /** `os.path.normpath(p)`. */
  function NormPath(p: string): (r: string)
    ensures r != ""
    ensures IsAbs(p) ==> IsAbs(r)
  {
    if p == "" then "."
    else
      var slashes := InitialSlashes(p);
      var body := Join(NormComps(Split(p, '/'), slashes > 0, []), "/");
      var r := (if slashes == 2 then "//" else if slashes == 1 then "/" else "") + body;
      if r == "" then "." else r
  }

  /** An absolute path normalises to a slash (or two) followed by plain
      components joined with slashes: no `.`, `..` or empty component is
      left. */
  lemma NormPathAbsolute(p: string)
    requires IsAbs(p)
    ensures var comps := NormComps(Split(p, '/'), true, []);
      && (forall i :: 0 <= i < |comps| ==> PlainComp(comps[i]))
      && NormPath(p) == (if InitialSlashes(p) == 2 then "//" else "/") + Join(comps, "/")
  {
    NormCompsPlain(Split(p, '/'), []);
  }

  /** A trailing empty component changes nothing in normalisation. */
  lemma {:induction false} NormCompsTrailingEmpty(comps: seq<string>, initial: bool, acc: seq<string>)
    ensures NormComps(comps + [""], initial, acc) == NormComps(comps, initial, acc)
    decreases |comps|
  {
    if comps == [] {
      assert NormComps([""], initial, acc) == NormComps([], initial, acc);
    } else {
      var comp := comps[0];
      assert (comps + [""])[0] == comp && (comps + [""])[1..] == comps[1..] + [""];
      if comp == "" || comp == "." {
        NormCompsTrailingEmpty(comps[1..], initial, acc);
      } else if comp != ".." || (!initial && acc == []) || (acc != [] && acc[|acc| - 1] == "..") {
        NormCompsTrailingEmpty(comps[1..], initial, acc + [comp]);
      } else if acc != [] {
        NormCompsTrailingEmpty(comps[1..], initial, acc[..|acc| - 1]);
      } else {
        NormCompsTrailingEmpty(comps[1..], initial, acc);
      }
    }
  }

  /** Joining an empty name only appends a slash, which normalisation
      removes again. */
  lemma JoinEmptyNormalises(p: string)
    requires IsAbs(p)
    ensures NormPath(PathJoin(p, "")) == NormPath(p)
  {
    if p[|p| - 1] != '/' {
      var q := p + "/";
      assert q == p + ['/'] + "";
      SplitAppend(p, "", '/');
      assert Split("", '/') == [""];
      NormCompsTrailingEmpty(Split(p, '/'), InitialSlashes(p) > 0, []);
      assert StartsWith(q, "/");
      assert StartsWith(q, "//") <==> StartsWith(p, "//") by {
        if |p| >= 2 { assert q[..2] == p[..2]; }
      }
      assert StartsWith(q, "///") <==> StartsWith(p, "///") by {
        if |p| >= 3 { assert q[..3] == p[..3]; }
      }
      assert InitialSlashes(q) == InitialSlashes(p);
      assert Split(q, '/') == Split(p, '/') + [""];
      assert PathJoin(p, "") == q;
    } else {
      assert PathJoin(p, "") == p;
    }
  }

  /** `os.path.abspath(p)` with `cwd` standing for `os.getcwd()`. */
  function AbsPath(cwd: string, p: string): (r: string)
    requires IsAbs(cwd)
    ensures IsAbs(r)
    ensures IsAbs(p) ==> r == NormPath(p)
  {
    if IsAbs(p) then NormPath(p) else NormPath(PathJoin(cwd, p))
  }

  /** The index of the last `c` in `s`, or -1 (`s.rfind(c)`). */
  function RFind(s: string, c: char): (r: int)
    ensures -1 <= r < |s|
    ensures r >= 0 ==> s[r] == c
    ensures forall i :: r < i < |s| ==> s[i] != c
    decreases |s|
  {
    if s == [] then -1
    else if s[|s| - 1] == c then |s| - 1
    else RFind(s[..|s| - 1], c)
  }

  /** `os.path.split(p)[1]`: what follows the last slash. */
  function Tail(p: string): (r: string)
    ensures '/' !in r
    ensures |r| <= |p| && r == p[|p| - |r|..]
    ensures |r| < |p| ==> p[|p| - |r| - 1] == '/'
  {
    var i := RFind(p, '/');
    NoneAfter(p, '/', i);
    p[i + 1..]
  }

  /** Nothing after the last `c` is a `c`. */
  lemma NoneAfter(s: string, c: char, i: int)
    requires -1 <= i < |s|
    requires forall j :: i < j < |s| ==> s[j] != c
    ensures c !in s[i + 1..]
  {
  }

  /** `os.path.splitext(p)[1]`: from the last dot of the last component,
      unless that component has only dots before it. */
  function Ext(p: string): (r: string)
    ensures r == "" || (r[0] == '.' && '.' !in r[1..] && '/' !in r && |r| <= |p| && r == p[|p| - |r|..])
  {
    var sep := RFind(p, '/');
    var dot := RFind(p, '.');
    if dot > sep && exists i | sep + 1 <= i < dot :: p[i] != '.' then
      NoneAfter(p, '.', dot);
      NoneAfter(p, '/', dot - 1);
      assert p[dot..][1..] == p[dot + 1..];
      p[dot..]
    else ""
  }
}
