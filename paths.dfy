/** Rust's `Path`/`PathBuf` operations as the tool uses them, over paths
    kept as a list of components, plus the `pathdiff::diff_paths` helper. */
module Paths {
  import opened Opt
  import opened Strings

  /** A path: whether it starts at the root directory, and its components.
      Parsing drops "." components and empty ones; ".." is kept as written. */
  datatype Path = Path(absolute: bool, comps: seq<string>)

  const Root := Path(true, [])

  /** macOS `PATH_MAX`: the longest path, in bytes, a system call accepts. */
  const PathMax: nat := 1024

  /** The byte length of the path's text when every component is written
      after a "/" separator. */
  function PathLen(comps: seq<string>): nat {
    if comps == [] then 0 else PathLen(comps[..|comps| - 1]) + 1 + |comps[|comps| - 1]|
  }

  /** `Path::join` with a single file name. */
  function Child(p: Path, name: string): Path {
    Path(p.absolute, p.comps + [name])
  }

  /** `Path::join`: a relative path is appended, an absolute one replaces. */
  function Join(p: Path, q: Path): (r: Path)
    ensures q.absolute ==> r == q
    ensures !q.absolute ==>
      (r.absolute == p.absolute && |r.comps| == |p.comps| + |q.comps|
       && r.comps[..|p.comps|] == p.comps && r.comps[|p.comps|..] == q.comps)
  {
    if q.absolute then q else Path(p.absolute, p.comps + q.comps)
  }

  /** `Path::parent`: `None` exactly for the root and for the empty path. */
  function Parent(p: Path): (r: Option<Path>)
    ensures r.None? <==> p.comps == []
    ensures r.Some? ==> Child(r.value, p.comps[|p.comps| - 1]) == p
  {
    if p.comps == [] then None else Some(Path(p.absolute, p.comps[..|p.comps| - 1]))
  }

  /** `Path::file_name`: the last component, unless there is none or it is "..". */
  function FileName(p: Path): (r: Option<string>)
    ensures r.Some? <==> p.comps != [] && p.comps[|p.comps| - 1] != ".."
    ensures r.Some? ==> r.value == p.comps[|p.comps| - 1]
  {
    if p.comps == [] || p.comps[|p.comps| - 1] == ".." then None else Some(p.comps[|p.comps| - 1])
  }

  /** A child's parent is the path it was made from, its name the name it was given. */
  lemma ChildParent(p: Path, name: string)
    ensures Parent(Child(p, name)) == Some(p)
    ensures name != ".." ==> FileName(Child(p, name)) == Some(name)
  {
    assert Child(p, name).comps[..|p.comps|] == p.comps;
  }

  /** Whether `x` lies strictly below `dir`. */
  predicate Below(x: Path, dir: Path) {
    x.absolute == dir.absolute && dir.comps < x.comps
  }

  /** `Path::starts_with`, component-wise. */
  predicate StartsWith(p: Path, base: Path) {
    if base.absolute then p.absolute && base.comps <= p.comps
    else base.comps == [] || (!p.absolute && base.comps <= p.comps)
  }

  /** `Path::ends_with`, component-wise from the end. */
  predicate EndsWith(p: Path, child: Path) {
    if child.absolute then p == child
    else |child.comps| <= |p.comps| && p.comps[|p.comps| - |child.comps|..] == child.comps
  }

  /** The index of the last occurrence of `c`. */
  function LastIndexOf(s: string, c: char): (r: Option<nat>)
    ensures r.None? ==> c !in s
    ensures r.Some? ==> r.value < |s| && s[r.value] == c && c !in s[r.value + 1..]
  {
    if s == [] then None
    else if s[|s| - 1] == c then Some(|s| - 1)
    else LastIndexOf(s[..|s| - 1], c)
  }

  /** `Path::extension`: what follows the last "." of the file name, unless
      the name has no "." or its only "." is its first character. */
  function Extension(p: Path): (r: Option<string>)
    ensures r.Some? ==>
      (FileName(p).Some? && '.' !in r.value && |FileName(p).value| > |r.value| + 1
       && FileName(p).value == FileName(p).value[..|FileName(p).value| - |r.value| - 1] + "." + r.value)
    ensures FileName(p).Some? && r.None? ==>
      (forall k :: 0 < k < |FileName(p).value| ==> FileName(p).value[k] != '.')
  {
    match FileName(p)
    case None => None
    case Some(name) =>
      match LastIndexOf(name, '.')
      case None => None
      case Some(i) =>
        if i == 0 then None
        else
          assert name == name[..i] + "." + name[i + 1..];
          Some(name[i + 1..])
  }

  /** `to_string_lossy`: the components separated by "/", after a leading
      "/" for an absolute path. */
  function PathString(p: Path): string {
    (if p.absolute then "/" else "") + (if p.comps == [] then "" else JoinWith(p.comps, '/'))
  }

  /** How `{:?}` shows a path. */
  function Debug(p: Path): string {
    Quoted(PathString(p))
  }

  /** The components a `PathBuf` keeps from "/"-separated pieces: empty
      pieces and "." are dropped. */
  function NormalComps(pieces: seq<string>): (r: seq<string>)
    ensures forall k :: 0 <= k < |r| ==> r[k] in pieces && r[k] != "" && r[k] != "."
  {
    if pieces == [] then []
    else if pieces[0] == "" || pieces[0] == "." then NormalComps(pieces[1..])
    else [pieces[0]] + NormalComps(pieces[1..])
  }

  /** `PathBuf::from` a string. */
  function ParsePath(s: string): Path {
    Path(|s| > 0 && s[0] == '/', NormalComps(Split(s, '/')))
  }

  /** A component as parsing produces it. */
  predicate NormalComponent(c: string) {
    c != "" && c != "." && '/' !in c
  }

  lemma {:induction false} SplitJoin(comps: seq<string>)
    requires |comps| > 0 && forall k :: 0 <= k < |comps| ==> '/' !in comps[k]
    ensures Split(JoinWith(comps, '/'), '/') == comps
    decreases |comps|
  {
    if |comps| > 1 {
      var rest := comps[1..];
      JoinWithCons(comps[0], rest, '/');
      assert [comps[0]] + rest == comps;
      var s := comps[0] + "/" + JoinWith(rest, '/');
      assert s[..|comps[0]|] == comps[0];
      FindCharAt(s, '/', |comps[0]|);
      assert s[|comps[0]| + 1..] == JoinWith(rest, '/');
      SplitJoin(rest);
    }
  }

  lemma {:induction false} NormalCompsOfNormal(comps: seq<string>)
    requires forall k :: 0 <= k < |comps| ==> NormalComponent(comps[k])
    ensures NormalComps(comps) == comps
  {
    if comps != [] {
      NormalCompsOfNormal(comps[1..]);
    }
  }

  /** Printing a path and parsing the text back gives the same path, when
      its components are ones parsing can produce. */
  lemma ParsePathString(p: Path)
    requires forall k :: 0 <= k < |p.comps| ==> NormalComponent(p.comps[k])
    ensures ParsePath(PathString(p)) == p
  {
    var s := PathString(p);
    if p.comps == [] {
      if p.absolute {
        assert Split("/", '/') == ["", ""] by {
          FindCharAt("/", '/', 0);
          assert "/"[1..] == "";
        }
      }
    } else {
      var j := JoinWith(p.comps, '/');
      SplitJoin(p.comps);
      NormalCompsOfNormal(p.comps);
      if p.absolute {
        assert s == "/" + j;
        FindCharAt(s, '/', 0);
        assert s[1..] == j;
        assert Split(s, '/') == [""] + p.comps;
      } else {
        assert s == j;
        assert j != [] ==> j[0] != '/' by {
          JoinWithFirst(p.comps, '/');
        }
      }
    }
  }

  /** `FindChar` returns the index of any occurrence with no earlier one. */
  lemma FindCharAt(s: string, c: char, i: nat)
    requires i < |s| && s[i] == c && c !in s[..i]
    ensures FindChar(s, c) == Some(i)
  {
    assert s[i] in s;
  }

  lemma {:induction false} JoinWithFirst(parts: seq<string>, sep: char)
    requires |parts| > 0 && parts[0] != []
    ensures JoinWith(parts, sep) != [] && JoinWith(parts, sep)[0] == parts[0][0]
    decreases |parts|
  {
    if |parts| > 1 {
      JoinWithFirst(parts[..|parts| - 1], sep);
    }
  }

  /** `n` copies of "..". */
  function UpDirs(n: nat): (r: seq<string>)
    ensures |r| == n && forall k :: 0 <= k < n ==> r[k] == ".."
  {
    if n == 0 then [] else UpDirs(n - 1) + [".."]
  }

  /** The component loop of `pathdiff::diff_paths`: `a` is what is left of
      the path, `b` of the base, `acc` the components produced so far. */
  function DiffComps(a: seq<string>, b: seq<string>, acc: seq<string>): Option<seq<string>>
    decreases |a| + |b|
  {
    if a == [] && b == [] then Some(acc)
    else if b == [] then Some(acc + a)
    else if a == [] then DiffComps([], b[1..], acc + [".."])
    else if acc == [] && a[0] == b[0] then DiffComps(a[1..], b[1..], acc)
    else if b[0] == ".." then None
    else Some(acc + UpDirs(|b|) + a)
  }

  /** `pathdiff::diff_paths(path, base)`: a relative path that leads from
      `base` to `path`. */
  function DiffPaths(path: Path, base: Path): (r: Option<Path>)
    ensures path.absolute && !base.absolute ==> r == Some(path)
    ensures !path.absolute && base.absolute ==> r.None?
    ensures path.absolute == base.absolute && r.Some? ==> !r.value.absolute
  {
    if path.absolute != base.absolute then
      if path.absolute then Some(path) else None
    else
      match DiffComps(path.comps, base.comps, [])
      case None => None
      case Some(c) => Some(Path(false, c))
  }

  lemma {:induction false} DiffCompsUp(b: seq<string>, acc: seq<string>)
    ensures DiffComps([], b, acc) == Some(acc + UpDirs(|b|))
    decreases |b|
  {
    if b != [] {
      DiffCompsUp(b[1..], acc + [".."]);
      assert DiffComps([], b, acc) == DiffComps([], b[1..], acc + [".."]);
      assert acc + [".."] + UpDirs(|b| - 1) == acc + UpDirs(|b|);
    } else {
      assert acc + UpDirs(0) == acc;
    }
  }

  /** After a common prefix, `diff_paths` climbs out of what is left of the
      base with ".." and then descends into what is left of the path. */
  lemma {:induction false} DiffPathsAfterCommonPrefix(common: seq<string>, a: seq<string>, b: seq<string>, absolute: bool)
    requires a == [] || b == [] || (a[0] != b[0] && b[0] != "..")
    ensures DiffPaths(Path(absolute, common + a), Path(absolute, common + b)) == Some(Path(false, UpDirs(|b|) + a))
  {
    CommonPrefixSkipped(common, a, b);
    if a == [] {
      assert common + a == common;
      DiffCompsUp(b, []);
      assert [] + UpDirs(|b|) == UpDirs(|b|) + a;
    }
  }

  lemma {:induction false} CommonPrefixSkipped(common: seq<string>, a: seq<string>, b: seq<string>)
    requires a == [] || b == [] || (a[0] != b[0] && b[0] != "..")
    ensures DiffComps(common + a, common + b, []) == DiffComps(a, b, [])
    ensures a != [] ==> DiffComps(a, b, []) == Some(UpDirs(|b|) + a)
    decreases |common|
  {
    if common != [] {
      assert (common + a)[0] == common[0] == (common + b)[0];
      assert (common + a)[1..] == common[1..] + a;
      assert (common + b)[1..] == common[1..] + b;
      CommonPrefixSkipped(common[1..], a, b);
    } else {
      assert common + a == a && common + b == b;
      if a != [] {
        if b == [] {
          assert [] + a == UpDirs(0) + a;
        } else {
          assert [] + UpDirs(|b|) + a == UpDirs(|b|) + a;
        }
      }
    }
  }

  /** A path inside `base` is reached from `base` by its remaining
      components, and joining them back onto `base` restores the path. */
  lemma DiffPathsOfDescendant(p: Path, base: Path)
    requires p.absolute == base.absolute && base.comps <= p.comps
    ensures DiffPaths(p, base) == Some(Path(false, p.comps[|base.comps|..]))
    ensures Join(base, DiffPaths(p, base).value) == p
  {
    var rest := p.comps[|base.comps|..];
    assert p.comps == base.comps + rest;
    assert base.comps == base.comps + [];
    DiffPathsAfterCommonPrefix(base.comps, rest, [], p.absolute);
    assert UpDirs(0) + rest == rest;
  }
}
