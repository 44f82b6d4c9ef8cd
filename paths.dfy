/**
 * The path helpers of the two platform layers.  The web layer always uses
 * "/"; the desktop layer joins with the platform's separator and splits on
 * "\" when the path holds one, else on "/".  Both split a path at its last
 * separator: `Dirname` is what comes before it, `Basename` what comes
 * after, optionally without an extension.
 */
module Paths {
  import opened Text

  // ---------------------------------------------------------------------
  // Separator runs

  /** The characters a `joinPath` treats as separators: "/" alone, or "/" and "\" both. */
  predicate IsSepChar(c: char, both: bool)
  {
    c == '/' || (both && c == '\\')
  }

  /** The characters of `s` that are not separators, in order. */
  function NonSeps(s: string, both: bool): (r: string)
    ensures forall k :: 0 <= k < |r| ==> !IsSepChar(r[k], both)
  {
    if s == [] then []
    else (if IsSepChar(s[0], both) then [] else [s[0]]) + NonSeps(s[1..], both)
  }

  /** `s` without its leading separators. */
  function DropSeps(s: string, both: bool): (r: string)
    ensures |r| <= |s|
    ensures r == s[|s| - |r|..]
    ensures r != [] ==> !IsSepChar(r[0], both)
    ensures NonSeps(r, both) == NonSeps(s, both)
  {
    if s != [] && IsSepChar(s[0], both) then DropSeps(s[1..], both) else s
  }

  /**
   * `s.replace(/[/]+/g, sep)` (or `/[/\\]+/g`): every run of separators
   * becomes one `sep`.  No two separators are then adjacent, the only
   * separator left is `sep`, and everything else is kept in order.
   */
  function CollapseRuns(s: string, both: bool, sep: char): (r: string)
    requires IsSepChar(sep, both)
    ensures (r == []) <==> (s == [])
    ensures r != [] ==> (IsSepChar(r[0], both) <==> IsSepChar(s[0], both))
    ensures forall k :: 0 <= k < |r| && IsSepChar(r[k], both) ==> r[k] == sep
    ensures forall k :: 0 <= k < |r| - 1 ==> !(IsSepChar(r[k], both) && IsSepChar(r[k + 1], both))
    ensures NonSeps(r, both) == NonSeps(s, both)
    decreases |s|
  {
    if s == [] then []
    else if IsSepChar(s[0], both) then
      var rest := CollapseRuns(DropSeps(s[1..], both), both, sep);
      assert ([sep] + rest)[1..] == rest;
      [sep] + rest
    else
      var rest := CollapseRuns(s[1..], both, sep);
      assert ([s[0]] + rest)[1..] == rest;
      [s[0]] + rest
  }

  // ---------------------------------------------------------------------
  // The last separator

  /** The position of the last `sep` in `s`, which holds one. */
  function LastIndexOf(s: string, sep: char): (i: nat)
    requires sep in s
    ensures i < |s| && s[i] == sep
    ensures forall j :: i < j < |s| ==> s[j] != sep
  {
    if s[|s| - 1] == sep then |s| - 1
    else
      assert sep in s[..|s| - 1] by {
        var j :| 0 <= j < |s| && s[j] == sep;
        assert s[..|s| - 1][j] == sep;
      }
      LastIndexOf(s[..|s| - 1], sep)
  }

  /** Joining all parts is joining all but the last, then the separator and the last. */
  lemma {:induction false} JoinLast(parts: seq<string>, sep: char)
    requires |parts| >= 2
    ensures Join(parts, [sep]) == Join(parts[..|parts| - 1], [sep]) + [sep] + parts[|parts| - 1]
    decreases |parts|
  {
    if |parts| > 2 {
      JoinLast(parts[1..], sep);
      assert parts[1..][..|parts| - 2] == parts[..|parts| - 1][1..];
    }
  }

  /** The parts before the last, joined back: the path up to its last separator. */
  function DirPart(path: string, sep: char): string
  {
    var parts := Split(path, sep);
    Join(parts[..|parts| - 1], [sep])
  }

  /** The last part of a path split at `sep`. */
  function LastPart(path: string, sep: char): string
  {
    var parts := Split(path, sep);
    parts[|parts| - 1]
  }

  /** A path is its `DirPart`, the last separator, and its `LastPart`. */
  lemma SplitAtLastSeparator(path: string, sep: char)
    ensures sep !in LastPart(path, sep)
    ensures sep !in path ==> LastPart(path, sep) == path && DirPart(path, sep) == ""
    ensures sep in path ==>
      var i := LastIndexOf(path, sep);
      DirPart(path, sep) == path[..i] && LastPart(path, sep) == path[i + 1..]
  {
    var parts := Split(path, sep);
    JoinSplit(path, sep);
    if |parts| == 1 {
      assert Join(parts, [sep]) == parts[0];
      assert sep !in path;
    } else {
      JoinLast(parts, sep);
      var d, last := DirPart(path, sep), LastPart(path, sep);
      assert path == d + [sep] + last;
      assert path[|d|] == sep;
      var i := LastIndexOf(path, sep);
      assert i == |d|;
      assert path[..i] == d && path[i + 1..] == last;
    }
  }

  // ---------------------------------------------------------------------
  // Dirname and basename on a given separator

  /** `dirname`: everything before the last separator, or the separator itself when that is empty. */
  function Dirname(path: string, sep: char): (r: string)
    ensures sep !in path ==> r == [sep]
    ensures sep in path ==>
      var i := LastIndexOf(path, sep);
      r == if i == 0 then [sep] else path[..i]
  {
    SplitAtLastSeparator(path, sep);
    var d := DirPart(path, sep);
    if d == "" then [sep] else d
  }

  /**
   * `basename`: everything after the last separator; a non-empty `ext`
   * that ends it is cut off, and only then.
   */
  function Basename(path: string, sep: char, ext: string): (r: string)
    ensures sep !in r
    ensures var name := if sep in path then path[LastIndexOf(path, sep) + 1..] else path;
      && (ext != "" && EndsWith(name, ext) ==> r + ext == name)
      && (ext == "" || !EndsWith(name, ext) ==> r == name)
  {
    SplitAtLastSeparator(path, sep);
    var name := LastPart(path, sep);
    if ext != "" && EndsWith(name, ext) then
      assert name[..|name| - |ext|] + ext == name;
      assert forall x :: x in name[..|name| - |ext|] ==> x in name;
      name[..|name| - |ext|]
    else name
  }

  // ---------------------------------------------------------------------
  // The web platform

  /** The web `joinPath`: the parts joined by "/", with no "//" left anywhere. */
  function WebJoinPath(parts: seq<string>): (r: string)
    ensures forall k :: 0 <= k < |r| - 1 ==> !(r[k] == '/' && r[k + 1] == '/')
    ensures NonSeps(r, false) == NonSeps(Join(parts, "/"), false)
  {
    CollapseRuns(Join(parts, "/"), false, '/')
  }

  function WebDirname(path: string): (r: string)
    ensures r == Dirname(path, '/')
    ensures '/' !in path ==> r == "/"
  {
    Dirname(path, '/')
  }

  function WebBasename(path: string, ext: string): (r: string)
    ensures r == Basename(path, '/', ext)
    ensures '/' !in r
  {
    Basename(path, '/', ext)
  }

  // ---------------------------------------------------------------------
  // The desktop platform

  /** The desktop separator of a path: "\" if the path holds one, else "/". */
  function PathSeparator(path: string): (sep: char)
    ensures sep == '\\' <==> '\\' in path
    ensures sep == '/' || sep == '\\'
  {
    if '\\' in path then '\\' else '/'
  }

  /**
   * The desktop `joinPath`: the parts joined by the platform separator,
   * every run of "/" and "\" collapsed to that one separator.
   */
  function DesktopJoinPath(windows: bool, parts: seq<string>): (r: string)
    ensures var sep := if windows then '\\' else '/';
      && (forall k :: 0 <= k < |r| && IsSepChar(r[k], true) ==> r[k] == sep)
      && (forall k :: 0 <= k < |r| - 1 ==> !(IsSepChar(r[k], true) && IsSepChar(r[k + 1], true)))
      && NonSeps(r, true) == NonSeps(Join(parts, [sep]), true)
  {
    var sep := if windows then '\\' else '/';
    CollapseRuns(Join(parts, [sep]), true, sep)
  }

  function DesktopDirname(path: string): (r: string)
    ensures r == Dirname(path, PathSeparator(path))
    ensures '\\' !in path && '/' !in path ==> r == "/"
  {
    Dirname(path, PathSeparator(path))
  }

  function DesktopBasename(path: string, ext: string): (r: string)
    ensures r == Basename(path, PathSeparator(path), ext)
  {
    Basename(path, PathSeparator(path), ext)
  }
}
