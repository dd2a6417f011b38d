/** The free functions shared, as identical copies, by src/macos/bundle.rs
    and src/macos_bundle.rs: module references as `otool -L` prints them,
    loading a module's references, resolving `@rpath`, and finding the
    directory a dependency is copied with. */
module Modules {
  import opened Opt
  import opened Strings
  import opened Paths
  import opened Errors
  import opened Fs
  import opened Utils

  /** Which copy of the bundler: `SelfContained` or the older
      `MacOSBundleSelfContained`. */
  datatype Variant = Current | Legacy

  /** `ModulePath`: a load command's reference, as text. */
  datatype ModulePath = ModulePath(s: string)

  /** `ModulePath::is_system`. */
  predicate IsSystem(m: ModulePath)
    ensures IsSystem(m) ==> m.s != [] && m.s[0] == '/'
  {
    "/usr/" <= m.s || "/lib/" <= m.s || "/System/" <= m.s
  }

  /** `extract_module_path`: the trimmed line up to its first space. */
  function ExtractModulePath(line: string): (r: Result<ModulePath>)
    ensures r.Ok? <==> ' ' in Trim(line)
    ensures r.Ok? ==> ' ' !in r.value.s && r.value.s + " " <= Trim(line)
    ensures r.Err? ==> r.error == OtherError("Malformed otool -L output: " + Trim(line))
  {
    var t := Trim(line);
    match FindChar(t, ' ')
    case None => Err(OtherError("Malformed otool -L output: " + t))
    case Some(i) =>
      assert t[..i] + " " == t[..i + 1];
      Ok(ModulePath(t[..i]))
  }

  /** Collecting an iterator of results: every line parsed, or an error
      of a line that is not (the first such, by `FirstMalformedWins`). */
  function CollectModulePaths(lines: seq<string>): (r: Result<seq<ModulePath>>)
    ensures r.Ok? ==>
      (|r.value| == |lines| && forall k :: 0 <= k < |lines| ==> ExtractModulePath(lines[k]) == Ok(r.value[k]))
    ensures r.Err? ==> exists k :: 0 <= k < |lines| && ExtractModulePath(lines[k]) == Err(r.error)
  {
    if lines == [] then Ok([])
    else
      match ExtractModulePath(lines[0])
      case Err(e) => Err(e)
      case Ok(m) =>
        match CollectModulePaths(lines[1..])
        case Err(e) =>
          MalformedInTail(lines, e);
          Err(e)
        case Ok(rest) => Ok([m] + rest)
  }

  lemma MalformedInTail(lines: seq<string>, e: ToolError)
    requires lines != [] && exists k :: 0 <= k < |lines[1..]| && ExtractModulePath(lines[1..][k]) == Err(e)
    ensures exists k :: 0 <= k < |lines| && ExtractModulePath(lines[k]) == Err(e)
  {
    var k :| 0 <= k < |lines[1..]| && ExtractModulePath(lines[1..][k]) == Err(e);
    assert lines[1..][k] == lines[k + 1];
  }

  /** The error collected is that of the first malformed line. */
  lemma {:induction false} FirstMalformedWins(lines: seq<string>, k: nat)
    requires k < |lines| && ExtractModulePath(lines[k]).Err?
    requires forall j :: 0 <= j < k ==> ExtractModulePath(lines[j]).Ok?
    ensures CollectModulePaths(lines) == Err(ExtractModulePath(lines[k]).error)
  {
    if k > 0 {
      var rest := lines[1..];
      forall j | 0 <= j < k - 1 ensures ExtractModulePath(rest[j]).Ok? {
        assert rest[j] == lines[j + 1];
      }
      assert rest[k - 1] == lines[k];
      FirstMalformedWins(rest, k - 1);
      assert ExtractModulePath(lines[0]).Ok?;
    } else {
      assert ExtractModulePath(lines[0]).Err?;
    }
  }

  /** The `otool -L <path>` command; the path is passed as a string. */
  function OtoolCommand(path: Path): Cmd {
    Cmd("otool", [Str("-L"), Str(PathString(path))])
  }

  /** The output lines of `otool -L`: the first (the file's own name) is
      skipped and every further line parsed. */
  function ParseOtoolLines(lines: seq<string>): (r: Result<seq<ModulePath>>)
    ensures lines == [] ==> r == Ok([])
    ensures r.Ok? && lines != [] ==>
      (|r.value| == |lines| - 1 && forall k :: 0 <= k < |r.value| ==> ExtractModulePath(lines[k + 1]) == Ok(r.value[k]))
    ensures r.Err? ==> exists k :: 1 <= k < |lines| && ExtractModulePath(lines[k]) == Err(r.error)
  {
    if lines == [] then Ok([])
    else
      var r := CollectModulePaths(lines[1..]);
      assert r.Err? ==> exists k :: 1 <= k < |lines| && ExtractModulePath(lines[k]) == Err(r.error) by {
        if r.Err? {
          var k :| 0 <= k < |lines[1..]| && ExtractModulePath(lines[1..][k]) == Err(r.error);
          assert lines[1..][k] == lines[k + 1];
        }
      }
      r
  }

  /** `find_module_paths`, given what running `otool` gave: a failed run is
      the error, else its lines are parsed. */
  function FindModulePaths(path: Path, out: ProcessOutput): (r: Result<seq<ModulePath>>)
    ensures RunCommand(OtoolCommand(path), "otool", out).Err? ==> r == Err(RunCommand(OtoolCommand(path), "otool", out).error)
    ensures RunCommand(OtoolCommand(path), "otool", out).Ok? ==> r == ParseOtoolLines(RunCommand(OtoolCommand(path), "otool", out).value)
  {
    var lines :- RunCommand(OtoolCommand(path), "otool", out);
    ParseOtoolLines(lines)
  }

  /** A loaded module: its path and its references in `otool` order. */
  datatype Module = Module(path: Path, dependencies: seq<ModulePath>)

  /** A loaded library: its module and its install name. */
  datatype Library = Library(lib: Module, installName: ModulePath)

  /** `load_library`: the first reference is the install name, the others
      the dependencies; an empty list is refused. */
  function LoadLibrary(path: Path, found: Result<seq<ModulePath>>): (r: Result<Library>)
    ensures found.Err? ==> r == Err(found.error)
    ensures found == Ok([]) ==> r == Err(OtherError("Invalid otool -L output for " + Debug(path)))
    ensures found.Ok? && found.value != [] ==>
      (r.Ok? && r.value.lib.path == path
       && [r.value.installName] + r.value.lib.dependencies == found.value)
  {
    var paths :- found;
    if paths == [] then Err(OtherError("Invalid otool -L output for " + Debug(path)))
    else Ok(Library(Module(path, paths[1..]), paths[0]))
  }

  /** `load_executable`: every reference is a dependency; an empty list is
      refused. */
  function LoadExecutable(path: Path, found: Result<seq<ModulePath>>): (r: Result<Module>)
    ensures found.Err? ==> r == Err(found.error)
    ensures found == Ok([]) ==> r == Err(OtherError("Invalid otool -L output for " + Debug(path)))
    ensures found.Ok? && found.value != [] ==> r == Ok(Module(path, found.value))
  {
    var paths :- found;
    if paths == [] then Err(OtherError("Invalid otool -L output for " + Debug(path)))
    else Ok(Module(path, paths))
  }

  /** A reference with every "@rpath" replaced by a search root. */
  function Substitute(m: ModulePath, rpath: Path): Path {
    ParsePath(ReplaceAll(m.s, "@rpath", PathString(rpath)))
  }

  /** The reference substituted into each search root, in order. */
  function Substitutions(m: ModulePath, rpaths: seq<Path>): (r: seq<Path>)
    ensures |r| == |rpaths|
    ensures forall i :: 0 <= i < |rpaths| ==> r[i] == Substitute(m, rpaths[i])
  {
    if rpaths == [] then []
    else [Substitute(m, rpaths[0])] + Substitutions(m, rpaths[1..])
  }

  /** The paths `resolve` may return: the reference itself, then its
      substitution into each search root in turn. */
  function Candidates(m: ModulePath, rpaths: seq<Path>): (r: seq<Path>)
    ensures |r| == |rpaths| + 1 && r[0] == ParsePath(m.s)
    ensures forall i :: 0 <= i < |rpaths| ==> r[i + 1] == Substitute(m, rpaths[i])
  {
    [ParsePath(m.s)] + Substitutions(m, rpaths)
  }

  /** The search loop of `resolve`, from the `i`-th candidate on: the index
      of the first one that exists. */
  function FirstExisting(fs: FileSystem, cwd: Loc, cands: seq<Path>, i: nat): (r: Option<nat>)
    requires i <= |cands|
    ensures r.Some? ==>
      (i <= r.value < |cands| && Exists(fs, cwd, cands[r.value])
       && forall j :: i <= j < r.value ==> !Exists(fs, cwd, cands[j]))
    ensures r.None? ==> forall j :: i <= j < |cands| ==> !Exists(fs, cwd, cands[j])
    decreases |cands| - i
  {
    if i == |cands| then None
    else if Exists(fs, cwd, cands[i]) then Some(i)
    else FirstExisting(fs, cwd, cands, i + 1)
  }

  /** How the reference is shown in a `PathResolve` error: `SelfContained`
      formats it with `{:?}`; the older copy passes the value itself. */
  function ReferenceText(m: ModulePath, v: Variant): string {
    if v == Current then "ModulePath(" + Quoted(m.s) + ")" else m.s
  }

  /** `PathResolver::resolve`. */
  function Resolve(fs: FileSystem, cwd: Loc, m: ModulePath, rpaths: seq<Path>, v: Variant): (r: Result<Path>)
    ensures Exists(fs, cwd, ParsePath(m.s)) ==> r == Ok(ParsePath(m.s))
    ensures !Exists(fs, cwd, ParsePath(m.s)) ==>
      (r.Ok? <==> exists i :: 0 <= i < |rpaths| && Exists(fs, cwd, Substitute(m, rpaths[i])))
    ensures !Exists(fs, cwd, ParsePath(m.s)) && r.Ok? ==>
      exists i :: 0 <= i < |rpaths| && r.value == Substitute(m, rpaths[i])
        && forall j :: 0 <= j < i ==> !Exists(fs, cwd, Substitute(m, rpaths[j]))
    ensures r.Ok? ==> Exists(fs, cwd, r.value) && r.value in Candidates(m, rpaths)
    ensures r.Err? ==> r.error == PathResolve(ReferenceText(m, v), rpaths)
  {
    var p := ParsePath(m.s);
    if Exists(fs, cwd, p) then Ok(p)
    else
      var subs := Substitutions(m, rpaths);
      match FirstExisting(fs, cwd, subs, 0)
      case Some(i) =>
        assert Candidates(m, rpaths)[i + 1] == subs[i];
        Ok(subs[i])
      case None => Err(PathResolve(ReferenceText(m, v), rpaths))
  }

  /** A file name ending in ".framework", compared as text. */
  predicate IsFrameworkName(n: string) {
    |n| >= 10 && n[|n| - 10..] == ".framework"
  }

  /** Whether the `j`-th component exists and has a file name, i.e. is not "..". */
  predicate Named(c: seq<string>, j: int) {
    0 <= j < |c| && c[j] != ".."
  }

  /** `find_dependency_root`: the enclosing `X.framework` of a file directly
      in it or in `X.framework/Versions/<v>/`, else the path itself.
      `None` is a panic on a missing file name. */
  function FindDependencyRoot(p: Path): (r: Option<Path>)
    ensures var c, n := p.comps, |p.comps|;
      n >= 2 && Named(c, n - 2) && IsFrameworkName(c[n - 2]) ==> r == Some(Path(p.absolute, c[..n - 1]))
    ensures var c, n := p.comps, |p.comps|;
      (n >= 4 && Named(c, n - 2) && !IsFrameworkName(c[n - 2]) && c[n - 3] == "Versions"
       && Named(c, n - 4) && IsFrameworkName(c[n - 4])) ==> r == Some(Path(p.absolute, c[..n - 3]))
    ensures var c, n := p.comps, |p.comps|;
      r.None? <==>
        (n >= 1 && (!Named(c, n - 2)
          || (!IsFrameworkName(c[n - 2]) && (!Named(c, n - 3) || (c[n - 3] == "Versions" && !Named(c, n - 4))))))
    ensures var c, n := p.comps, |p.comps|;
      r.Some? && r.value != p ==>
        (n >= 2 && Named(c, n - 2) && IsFrameworkName(c[n - 2]))
        || (n >= 4 && c[n - 3] == "Versions" && Named(c, n - 4) && IsFrameworkName(c[n - 4]))
    ensures r.Some? ==> r.value.absolute == p.absolute && r.value.comps <= p.comps
  {
    match Parent(p)
    case None => Some(p)
    case Some(parent) =>
      match FileName(parent)
      case None => None
      case Some(name) =>
        if IsFrameworkName(name) then Some(parent)
        else
          match Parent(parent)
          case None => Some(p)
          case Some(grand) =>
            match FileName(grand)
            case None => None
            case Some(gname) =>
              if gname != "Versions" then Some(p)
              else
                match Parent(grand)
                case None => Some(p)
                case Some(great) =>
                  match FileName(great)
                  case None => None
                  case Some(fname) =>
                    assert great.comps == p.comps[..|p.comps| - 3] && fname == p.comps[|p.comps| - 4];
                    if IsFrameworkName(fname) then Some(great) else Some(p)
  }

  /** What `process_dependency` derives from a resolved path: the root to
      copy, the path relative to the root's parent, and the new reference
      "@rpath/<relative>". `None` is a panic on an `unwrap`. */
  datatype DependencyKey = DependencyKey(root: Path, relative: Path, key: ModulePath)

  function KeyOf(resolved: Path): (r: Option<DependencyKey>)
    ensures r.None? <==> FindDependencyRoot(resolved).None? || FindDependencyRoot(resolved).value.comps == []
    ensures r.Some? ==>
      (var n := |r.value.root.comps|;
       Some(r.value.root) == FindDependencyRoot(resolved) && n > 0
       && r.value.relative == Path(false, resolved.comps[n - 1..])
       && Join(Parent(r.value.root).value, r.value.relative) == resolved
       && r.value.key.s == "@rpath/" + PathString(r.value.relative))
  {
    match FindDependencyRoot(resolved)
    case None => None
    case Some(root) =>
      match Parent(root)
      case None => None
      case Some(base) =>
        DiffPathsOfDescendant(resolved, base);
        var rel := DiffPaths(resolved, base).value;
        Some(DependencyKey(root, rel, ModulePath("@rpath/" + PathString(rel))))
  }
}
