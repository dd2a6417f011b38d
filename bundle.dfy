/** The self-contained bundler of src/macos/bundle.rs (`SelfContained`) and
    its older copy in src/macos_bundle.rs, told apart by a `Variant`.

    The bundler copies an application tree, then follows each copied
    binary's `otool -L` references: every non-system dependency is copied,
    with its enclosing framework, into `Contents/Frameworks`, renamed to
    "@rpath/<relative path>", and referenced under that name. Each step is
    specified by a function from the state before it to the state after it
    and the step's result; the methods of `SelfContained` are proved equal
    to those functions. External commands do not change the file system:
    each is appended to the state's log, and its output comes from `Env`. */
module Bundle {
  import opened Opt
  import opened Strings
  import opened Paths
  import opened Errors
  import opened Fs
  import opened Utils
  import opened MachO
  import opened Modules
  import FileOps

  /** The command-line options of the bundler. */
  datatype Options = Options(deleteExistingBundle: bool, sourcePath: Path, outDir: Path)

  /** The fields of `SelfContained` that change, with the file system and
      the log of commands run. */
  datatype St = St(
    fs: FileSystem,
    log: seq<Cmd>,
    outPath: Path,
    executables: seq<Path>,
    processed: map<ModulePath, Path>)

  /** One `-change old new` pair of `process_module`. */
  datatype Change = Change(from: ModulePath, to: ModulePath)

  function FrameworksDir(outPath: Path): Path {
    Child(Child(outPath, "Contents"), "Frameworks")
  }

  /** The arguments `-change from to`, one triple per change, in order. */
  function ChangeArgs(changes: seq<Change>): (r: seq<Arg>)
    ensures |r| == 3 * |changes|
    ensures forall i :: 0 <= i < |changes| ==>
      r[3 * i..3 * i + 3] == [Str("-change"), Str(changes[i].from.s), Str(changes[i].to.s)]
  {
    if changes == [] then []
    else
      var head := [Str("-change"), Str(changes[0].from.s), Str(changes[0].to.s)];
      var rest := ChangeArgs(changes[1..]);
      assert forall i :: 1 <= i < |changes| ==> (head + rest)[3 * i..3 * i + 3] == rest[3 * (i - 1)..3 * (i - 1) + 3];
      head + rest
  }

  /** `install_name_tool -change a1 b1 ... -change an bn <target>`. */
  function ChangeCommand(changes: seq<Change>, target: Path): (r: Cmd)
    ensures r.program == "install_name_tool" && |r.args| == 3 * |changes| + 1 && r.args[3 * |changes|] == PathArg(target)
    ensures forall i :: 0 <= i < |changes| ==>
      r.args[3 * i..3 * i + 3] == [Str("-change"), Str(changes[i].from.s), Str(changes[i].to.s)]
  {
    Cmd("install_name_tool", ChangeArgs(changes) + [PathArg(target)])
  }

  /** `install_name_tool -id <key> <target>`. */
  function IdCommand(key: ModulePath, target: Path): (r: Cmd)
    ensures r.program == "install_name_tool" && |r.args| == 3 && r.args[0] == Str("-id") && r.args[2] == PathArg(target)
    ensures r.args[1] == Str(key.s)
  {
    Cmd("install_name_tool", [Str("-id"), Str(key.s), PathArg(target)])
  }

  /** The `-add_rpath` value: `SelfContained` prefixes the relative path
      with "@executable_path"; the older copy passes it bare. */
  function RpathValue(v: Variant, rel: Path): (r: Path)
    ensures v == Legacy ==> r == rel
    ensures v == Current && !rel.absolute ==> r == Path(false, ["@executable_path"] + rel.comps)
    ensures v == Current && rel.absolute ==> r == rel
  {
    if v == Current then Join(Path(false, ["@executable_path"]), rel) else rel
  }

  /** `install_name_tool -add_rpath <rpath> <target>`, the rpath leading from
      the target's directory to the bundle's frameworks; `None` is a panic. */
  function RpathCommand(v: Variant, outPath: Path, target: Path): (r: Option<Cmd>)
    ensures r.None? <==> Parent(target).None? || DiffPaths(FrameworksDir(outPath), Parent(target).value).None?
    ensures r.Some? ==>
      r.value.program == "install_name_tool" && |r.value.args| == 3 && r.value.args[0] == Str("-add_rpath")
      && r.value.args[2] == PathArg(target)
    ensures r.Some? ==>
      r.value.args[1] == PathArg(RpathValue(v, DiffPaths(FrameworksDir(outPath), Parent(target).value).value))
  {
    match Parent(target)
    case None => None
    case Some(dir) =>
      match DiffPaths(FrameworksDir(outPath), dir)
      case None => None
      case Some(rel) => Some(Cmd("install_name_tool", [Str("-add_rpath"), PathArg(RpathValue(v, rel)), PathArg(target)]))
  }

  /** For the main executable, in `Contents/MacOS`, the rpath is
      "@executable_path/../Frameworks" (or "../Frameworks" for the older
      copy). */
  lemma RpathOfMainExecutable(v: Variant, outPath: Path, name: string)
    ensures RpathCommand(v, outPath, Child(Child(Child(outPath, "Contents"), "MacOS"), name))
      == Some(Cmd("install_name_tool", [
        Str("-add_rpath"),
        PathArg(Path(false, (if v == Current then ["@executable_path"] else []) + ["..", "Frameworks"])),
        PathArg(Child(Child(Child(outPath, "Contents"), "MacOS"), name))]))
  {
    var common := outPath.comps + ["Contents"];
    assert FrameworksDir(outPath) == Path(outPath.absolute, common + ["Frameworks"]);
    var target := Child(Child(Child(outPath, "Contents"), "MacOS"), name);
    assert Parent(target) == Some(Path(outPath.absolute, common + ["MacOS"]));
    DiffPathsAfterCommonPrefix(common, ["Frameworks"], ["MacOS"], outPath.absolute);
    assert UpDirs(1) == [".."];
    var rel := Path(false, [".."] + ["Frameworks"]);
    assert DiffPaths(FrameworksDir(outPath), Path(outPath.absolute, common + ["MacOS"])) == Some(rel);
    assert RpathValue(v, rel) == Path(false, (if v == Current then ["@executable_path"] else []) + ["..", "Frameworks"]);
  }

  /** The binary test of each copy: the Mach-O magic numbers, or the older
      shebang test. */
  function IsBinary(v: Variant, fs: FileSystem, cwd: Loc, p: Path): (r: Result<bool>)
    ensures r == Ok(true) ==> IsFile(fs, cwd, p)
    ensures v == Legacy ==> r.Ok?
  {
    if v == Current then IsExecutableBinary(fs, cwd, p) else ShebangFreeExecutable(fs, cwd, p)
  }

  /** `is_executable_binary` of src/macos_bundle.rs: an executable regular
      file of at least two bytes whose first byte is not '#' and whose second
      is not '!'. */
  function ShebangFreeExecutable(fs: FileSystem, cwd: Loc, p: Path): (r: Result<bool>)
    ensures r.Ok?
    ensures r.value <==>
      (IsFile(fs, cwd, p) && Metadata(fs, cwd, p).value.executable
       && var data := Metadata(fs, cwd, p).value.data;
          |data| >= 2 && data[0] != '#' as bv8 && data[1] != '!' as bv8)
  {
    match Metadata(fs, cwd, p)
    case IoOk(File(data, true)) =>
      var n := BytesRead(data, 2);
      Ok(n == 2 && data[0] != '#' as bv8 && data[1] != '!' as bv8)
    case _ => Ok(false)
  }

  /** What a step may do to the state: file contents stay within `C`, the
      log and the map grow, and no entry of the map changes. */
  ghost predicate Extends(a: St, b: St, C: set<Bytes>) {
    FileContents(b.fs) <= C && b.outPath == a.outPath && b.executables == a.executables
    && a.log <= b.log && a.processed.Keys <= b.processed.Keys
    && forall k :: k in a.processed ==> b.processed[k] == a.processed[k]
  }

  /** The text `otool` printed, with a final line break. */
  function OtoolText(out: ProcessOutput): string {
    if out.Output? then out.stdout + "\n" else ""
  }

  /** Every text `otool` may print for a file whose bytes are in `C`, or
      for a missing file. */
  ghost function Texts(env: Env, C: set<Bytes>): set<string> {
    {OtoolText(env.otool(None))} + (set b | b in C :: OtoolText(env.otool(Some(b))))
  }

  /** Every reference `otool` may print while files stay within `C`: a
      finite over-approximation, the slices of those texts. */
  ghost function AllDeps(env: Env, C: set<Bytes>): set<ModulePath> {
    set t, i, j | t in Texts(env, C) && 0 <= i <= j <= |t| :: ModulePath(t[i..j])
  }

  /** Every key `process_dependency` may insert while files stay within `C`:
      a finite set, which bounds the recursion. */
  ghost function KeySpace(env: Env, C: set<Bytes>, rpaths: seq<Path>): set<ModulePath> {
    set d, p | d in AllDeps(env, C) && p in Candidates(d, rpaths) && KeyOf(p).Some? :: KeyOf(p).value.key
  }

  /** Where the `k`-th part lies in the parts joined with terminators. */
  lemma {:induction false} PartOffset(parts: seq<string>, sep: char, k: nat) returns (i: nat)
    requires k < |parts|
    ensures i + |parts[k]| <= |ConcatTerminated(parts, sep)|
    ensures ConcatTerminated(parts, sep)[i..i + |parts[k]|] == parts[k]
    decreases k
  {
    var ct := ConcatTerminated(parts, sep);
    var head := parts[0] + [sep];
    var tail := ConcatTerminated(parts[1..], sep);
    assert ct == head + tail;
    if k == 0 {
      i := 0;
      assert ct[..|parts[0]|] == head[..|parts[0]|];
    } else {
      var j := PartOffset(parts[1..], sep, k - 1);
      assert parts[1..][k - 1] == parts[k];
      i := |head| + j;
      assert ct[i..i + |parts[k]|] == tail[j..j + |parts[k]|];
    }
  }

  /** A prefix of a slice of a slice of `ct` is a slice of any text `ct`
      is a prefix of. */
  lemma SliceChain(text: string, ct: string, line: string, t: string, s: string, a: nat, b: nat) returns (i: nat, j: nat)
    requires ct <= text
    requires a + |line| <= |ct| && ct[a..a + |line|] == line
    requires b + |t| <= |line| && t == line[b..b + |t|]
    requires s + " " <= t
    ensures i <= j <= |text| && text[i..j] == s
  {
    i, j := a + b, a + b + |s|;
    assert text[i..j] == ct[i..j];
    assert ct[i..j] == line[b..b + |s|];
    assert line[b..b + |s|] == t[..|s|];
    assert t[..|s|] == (s + " ")[..|s|];
  }

  /** The lines of a successful command, each terminated, are a prefix of
      its output with a final line break. */
  lemma LinesInText(cmd: Cmd, name: string, out: ProcessOutput)
    requires RunCommand(cmd, name, out).Ok?
    ensures ConcatTerminated(RunCommand(cmd, name, out).value, '\n') <= OtoolText(out)
  {
  }

  /** Each reference `find_module_paths` gives is extracted from a line of
      the output of `otool`. */
  lemma ListedFromLine(path: Path, out: ProcessOutput, d: ModulePath) returns (lines: seq<string>, k: nat)
    requires FindModulePaths(path, out).Ok? && d in FindModulePaths(path, out).value
    ensures ConcatTerminated(lines, '\n') <= OtoolText(out)
    ensures k < |lines| && ExtractModulePath(lines[k]) == Ok(d)
  {
    var ps := FindModulePaths(path, out).value;
    lines := RunCommand(OtoolCommand(path), "otool", out).value;
    assert ps == ParseOtoolLines(lines).value && lines != [];
    LinesInText(OtoolCommand(path), "otool", out);
    var m :| 0 <= m < |ps| && ps[m] == d;
    assert ExtractModulePath(lines[m + 1]) == Ok(ps[m]);
    k := m + 1;
  }

  /** A reference extracted from a line that lies at offset `a` of `ct` is
      a slice of any text `ct` is a prefix of. */
  lemma ExtractedSlice(line: string, ct: string, d: ModulePath, text: string, a: nat) returns (i: nat, j: nat)
    requires ct <= text
    requires d.s + " " <= Trim(line)
    requires a + |line| <= |ct| && ct[a..a + |line|] == line
    ensures i <= j <= |text| && text[i..j] == d.s
  {
    var b, e := TrimMeaning(line);
    assert e == b + |Trim(line)|;
    i, j := SliceChain(text, ct, line, Trim(line), d.s, a, b);
  }

  /** A reference extracted from one of the lines is a slice of any text
      the terminated lines are a prefix of. */
  lemma LineSlice(lines: seq<string>, k: nat, d: ModulePath, text: string) returns (i: nat, j: nat)
    requires ConcatTerminated(lines, '\n') <= text
    requires k < |lines| && ExtractModulePath(lines[k]) == Ok(d)
    ensures i <= j <= |text| && text[i..j] == d.s
  {
    var a := PartOffset(lines, '\n', k);
    assert d.s + " " <= Trim(lines[k]);
    i, j := ExtractedSlice(lines[k], ConcatTerminated(lines, '\n'), d, text, a);
  }

  lemma ListedInUniverse(env: Env, fs: FileSystem, C: set<Bytes>, path: Path)
    requires FileContents(fs) <= C
    requires FindModulePaths(path, env.otool(ContentsOf(fs, env.cwd, path))).Ok?
    ensures forall d :: d in FindModulePaths(path, env.otool(ContentsOf(fs, env.cwd, path))).value ==> d in AllDeps(env, C)
  {
    var c := ContentsOf(fs, env.cwd, path);
    forall d | d in FindModulePaths(path, env.otool(c)).value ensures d in AllDeps(env, C) {
      var lines, k := ListedFromLine(path, env.otool(c), d);
      var i, j := LineSlice(lines, k, d, OtoolText(env.otool(c)));
      var t := OtoolText(env.otool(c));
      if c.Some? {
        MetadataContents(fs, env.cwd, path);
      }
      assert t in Texts(env, C);
      assert ModulePath(t[i..j]) == d;
    }
  }

  lemma KeyInSpace(env: Env, C: set<Bytes>, rpaths: seq<Path>, d: ModulePath, p: Path)
    requires d in AllDeps(env, C) && p in Candidates(d, rpaths) && KeyOf(p).Some?
    ensures KeyOf(p).value.key in KeySpace(env, C, rpaths)
  {
  }

  /** The `from` references of a list of changes. */
  function Froms(changes: seq<Change>): (r: seq<ModulePath>)
    ensures |r| == |changes| && forall k :: 0 <= k < |r| ==> r[k] == changes[k].from
  {
    seq(|changes|, k requires 0 <= k < |changes| => changes[k].from)
  }

  /** `a` is `b` with some elements left out, the rest in order. */
  predicate IsSubsequence(a: seq<ModulePath>, b: seq<ModulePath>) {
    a == [] || (b != [] && ((a[0] == b[0] && IsSubsequence(a[1..], b[1..])) || IsSubsequence(a, b[1..])))
  }

  /** `process_dependency`: the dependency is resolved against the search
      roots; the rest is `LocatedDependencySpec`. */
  ghost function DependencySpec(env: Env, v: Variant, rpaths: seq<Path>, d: ModulePath, st: St, C: set<Bytes>): (r: (St, Result<ModulePath>))
    requires d in AllDeps(env, C) && FileContents(st.fs) <= C
    ensures Extends(st, r.0, C)
    decreases Pending(KeySpace(env, C, rpaths), st.processed), 0, 2
  {
    match Resolve(st.fs, env.cwd, d, rpaths, v)
    case Err(e) => (st, Err(e))
    case Ok(resolved) => LocatedDependencySpec(env, v, rpaths, d, resolved, st, C)
  }

  /** The new name `process_dependency` gives is the "@rpath/..." key of
      the path the reference resolves to. */
  lemma DependencyKey(env: Env, v: Variant, rpaths: seq<Path>, d: ModulePath, st: St, C: set<Bytes>)
    requires d in AllDeps(env, C) && FileContents(st.fs) <= C
    ensures var r := DependencySpec(env, v, rpaths, d, st, C);
      r.1.Ok? ==>
        (Resolve(st.fs, env.cwd, d, rpaths, v).Ok? && KeyOf(Resolve(st.fs, env.cwd, d, rpaths, v).value).Some?
         && r.1.value == KeyOf(Resolve(st.fs, env.cwd, d, rpaths, v).value).value.key)
  {
    match Resolve(st.fs, env.cwd, d, rpaths, v)
    case Err(e) =>
    case Ok(resolved) =>
      assert DependencySpec(env, v, rpaths, d, st, C) == LocatedDependencySpec(env, v, rpaths, d, resolved, st, C);
  }

  /** The dependencies of a loaded library, its own install name left out,
      are in the universe. */
  lemma LibraryInUniverse(env: Env, fs: FileSystem, C: set<Bytes>, path: Path)
    requires FileContents(fs) <= C
    requires LoadLibrary(path, FindModulePaths(path, env.otool(ContentsOf(fs, env.cwd, path)))).Ok?
    ensures forall d :: d in LoadLibrary(path, FindModulePaths(path, env.otool(ContentsOf(fs, env.cwd, path)))).value.lib.dependencies
                   ==> d in AllDeps(env, C)
  {
    var found := FindModulePaths(path, env.otool(ContentsOf(fs, env.cwd, path)));
    var lib := LoadLibrary(path, found).value;
    ListedInUniverse(env, fs, C, path);
    forall d | d in lib.lib.dependencies ensures d in AllDeps(env, C) {
      assert d in [lib.installName] + lib.lib.dependencies;
    }
  }

  /** The keys of `S` not yet in the map. */
  function Pending(S: set<ModulePath>, processed: map<ModulePath, Path>): nat {
    |S - processed.Keys|
  }

  lemma SubsetCardinality(a: set<ModulePath>, b: set<ModulePath>)
    requires a <= b
    ensures |a| <= |b|
    decreases |a|
  {
    if a != {} {
      var x :| x in a;
      SubsetCardinality(a - {x}, b - {x});
    }
  }

  /** A map with more keys leaves no more keys pending. */
  lemma PendingMonotone(S: set<ModulePath>, a: map<ModulePath, Path>, b: map<ModulePath, Path>)
    requires a.Keys <= b.Keys
    ensures Pending(S, b) <= Pending(S, a)
  {
    SubsetCardinality(S - b.Keys, S - a.Keys);
  }

  /** Inserting a new key of `S` leaves one key fewer pending. */
  lemma PendingShrinks(S: set<ModulePath>, m: map<ModulePath, Path>, key: ModulePath, p: Path)
    requires key in S && key !in m
    ensures Pending(S, m[key := p]) < Pending(S, m)
  {
    assert S - m.Keys == (S - m[key := p].Keys) + {key};
  }

  /** Inserting a new key, and logging a command, is an extension. */
  lemma ExtendsByInsert(st: St, key: ModulePath, p: Path, cmd: Cmd, C: set<Bytes>)
    requires key !in st.processed && FileContents(st.fs) <= C
    ensures Extends(st, st.(processed := st.processed[key := p], log := st.log + [cmd]), C)
  {
  }

  lemma ExtendsTrans(a: St, b: St, c: St, C: set<Bytes>)
    requires Extends(a, b, C) && Extends(b, c, C)
    ensures Extends(a, c, C)
  {
  }

  /** The resolved dependency is given its new reference; one already in
      the map must be the same file as the one recorded, a new one is
      inserted, copied and processed. */
  ghost function LocatedDependencySpec(env: Env, v: Variant, rpaths: seq<Path>, d: ModulePath, resolved: Path, st: St, C: set<Bytes>): (r: (St, Result<ModulePath>))
    requires d in AllDeps(env, C) && resolved in Candidates(d, rpaths) && FileContents(st.fs) <= C
    ensures Extends(st, r.0, C)
    ensures r.1.Ok? ==> KeyOf(resolved).Some? && r.1.value == KeyOf(resolved).value.key && r.1.value in r.0.processed
    decreases Pending(KeySpace(env, C, rpaths), st.processed), 0, 1
  {
    match KeyOf(resolved)
    case None => (st, Err(PanicUnwrap))
    case Some(dk) =>
      if dk.key in st.processed then (st, KnownDependency(env, resolved, dk.key, st))
      else
        KeyInSpace(env, C, rpaths, d, resolved);
        NewDependencySpec(env, v, rpaths, resolved, dk, st, C)
  }

  /** A reference already in the map: the file it was recorded for must be
      the same as the one resolved now. */
  ghost function KnownDependency(env: Env, resolved: Path, key: ModulePath, st: St): (r: Result<ModulePath>)
    requires key in st.processed
    ensures r.Ok? <==> IsSameSpec(st.fs, env.cwd, resolved, st.processed[key]) == Ok(true)
    ensures r.Ok? ==> r.value == key
  {
    var existing := st.processed[key];
    match IsSameSpec(st.fs, env.cwd, resolved, existing)
    case Err(e) => Err(e)
    case Ok(same) =>
      if !same then
        Err(OtherError("Trying to bundle two different version of single framework: "
          + Debug(resolved) + ", " + Debug(existing)))
      else Ok(key)
  }

  /** A dependency not yet in the map: insert it and load it. */
  ghost function NewDependencySpec(env: Env, v: Variant, rpaths: seq<Path>, resolved: Path, dk: DependencyKey, st: St, C: set<Bytes>): (r: (St, Result<ModulePath>))
    requires FileContents(st.fs) <= C && dk.key in KeySpace(env, C, rpaths) && dk.key !in st.processed
    ensures Extends(st, r.0, C)
    ensures dk.key in r.0.processed && r.0.processed[dk.key] == resolved
    ensures r.1.Ok? ==> r.1.value == dk.key
    decreases Pending(KeySpace(env, C, rpaths), st.processed), 0, 0
  {
    var st1 := st.(processed := st.processed[dk.key := resolved], log := st.log + [OtoolCommand(resolved)]);
    PendingShrinks(KeySpace(env, C, rpaths), st.processed, dk.key, resolved);
    ExtendsByInsert(st, dk.key, resolved, OtoolCommand(resolved), C);
    var r := LoadedDependencySpec(env, v, rpaths, resolved, dk, st1, C);
    ExtendsTrans(st, st1, r.0, C);
    r
  }

  /** The recorded dependency's references are loaded, its own install
      name first. */
  ghost function LoadedDependencySpec(env: Env, v: Variant, rpaths: seq<Path>, resolved: Path, dk: DependencyKey, st: St, C: set<Bytes>): (r: (St, Result<ModulePath>))
    requires FileContents(st.fs) <= C
    ensures Extends(st, r.0, C)
    ensures r.1.Ok? ==> r.1.value == dk.key
    decreases Pending(KeySpace(env, C, rpaths), st.processed), 2, 2
  {
    var found := FindModulePaths(resolved, env.otool(ContentsOf(st.fs, env.cwd, resolved)));
    match LoadLibrary(resolved, found)
    case Err(e) => (st, Err(e))
    case Ok(lib) =>
      LibraryInUniverse(env, st.fs, C, resolved);
      CopyRootSpec(env, v, rpaths, lib, dk, st, C)
  }

  /** The loaded dependency's root is copied into the frameworks directory,
      under the root's own name. */
  ghost function CopyRootSpec(env: Env, v: Variant, rpaths: seq<Path>, lib: Library, dk: DependencyKey, st: St, C: set<Bytes>): (r: (St, Result<ModulePath>))
    requires forall d :: d in lib.lib.dependencies ==> d in AllDeps(env, C)
    requires FileContents(st.fs) <= C
    ensures Extends(st, r.0, C)
    ensures r.1.Ok? ==> r.1.value == dk.key
    decreases Pending(KeySpace(env, C, rpaths), st.processed), 2, 1
  {
    var frameworks := FrameworksDir(st.outPath);
    var mk := CreateDirAll(st.fs, env.cwd, frameworks);
    var st1 := st.(fs := mk.fs);
    if mk.err.Some? then (st1, Err(FileOperation(FileOps.MkDir, frameworks, None, mk.err.value)))
    else
      match FileName(dk.root)
      case None => (st1, Err(PanicUnwrap))
      case Some(name) =>
        var copyTarget := Child(frameworks, name);
        match Canonicalize(st1.fs, env.cwd, dk.root)
        case IoErr(k) => (st1, Err(FileOperation(FileOps.Canonicalize, dk.root, None, k)))
        case IoOk(realRoot) =>
          var cp := CopySpec(st1.fs, env.cwd, Path(true, realRoot), copyTarget);
          var st2 := st1.(fs := cp.fs);
          if cp.err.Some? then (st2, Err(FileOperation(FileOps.Copy, dk.root, Some(copyTarget), cp.err.value)))
          else
            var r := InstallSpec(env, v, rpaths, lib, dk, Join(frameworks, dk.relative), st2, C);
            ExtendsTrans(st, st2, r.0, C);
            r
  }

  /** The copied dependency's own dependencies are processed, and it is
      given its new install name unless it has it already. */
  ghost function InstallSpec(env: Env, v: Variant, rpaths: seq<Path>, lib: Library, dk: DependencyKey, target: Path, st: St, C: set<Bytes>): (r: (St, Result<ModulePath>))
    requires forall d :: d in lib.lib.dependencies ==> d in AllDeps(env, C)
    requires FileContents(st.fs) <= C
    ensures Extends(st, r.0, C)
    ensures r.1.Ok? ==> r.1.value == dk.key
    ensures r.1.Ok? && lib.installName != dk.key ==> r.0.log != [] && r.0.log[|r.0.log| - 1] == IdCommand(dk.key, target)
    ensures lib.installName == dk.key ==> r.0 == ModuleSpec(env, v, rpaths, target, lib.lib, st, C).0
    ensures lib.installName != dk.key && ModuleSpec(env, v, rpaths, target, lib.lib, st, C).1.Ok? ==>
      r.0.log == ModuleSpec(env, v, rpaths, target, lib.lib, st, C).0.log + [IdCommand(dk.key, target)]
    decreases Pending(KeySpace(env, C, rpaths), st.processed), 2, 0
  {
    var (st1, res) := ModuleSpec(env, v, rpaths, target, lib.lib, st, C);
    if res.Err? then (st1, Err(res.error))
    else if lib.installName == dk.key then (st1, Ok(dk.key))
    else
      var cmd := IdCommand(dk.key, target);
      var out := RunCommand(cmd, "install_name_tool", env.run(cmd));
      var st2 := st1.(log := st1.log + [cmd]);
      ExtendsTrans(st, st1, st2, C);
      if out.Err? then (st2, Err(out.error)) else (st2, Ok(dk.key))
  }

  /** `process_module`: the dependencies are processed in order, and one
      command rewrites the references whose new name differs. */
  ghost function ModuleSpec(env: Env, v: Variant, rpaths: seq<Path>, target: Path, m: Module, st: St, C: set<Bytes>): (r: (St, Result<()>))
    requires forall d :: d in m.dependencies ==> d in AllDeps(env, C)
    requires FileContents(st.fs) <= C
    ensures Extends(st, r.0, C)
    ensures var (st1, changes) := ModuleLoop(env, v, rpaths, m.dependencies, [], st, C);
      r.1.Ok? ==>
        (changes.Ok? && r.0.log == st1.log + (if changes.value == [] then [] else [ChangeCommand(changes.value, target)]))
    decreases Pending(KeySpace(env, C, rpaths), st.processed), 1, |m.dependencies| + 1
  {
    var (st1, changes) := ModuleLoop(env, v, rpaths, m.dependencies, [], st, C);
    match changes
    case Err(e) => (st1, Err(e))
    case Ok(cs) =>
      if cs == [] then (st1, Ok(()))
      else
        var cmd := ChangeCommand(cs, target);
        var out := RunCommand(cmd, "install_name_tool", env.run(cmd));
        var st2 := st1.(log := st1.log + [cmd]);
        ExtendsTrans(st, st1, st2, C);
        if out.Err? then (st2, Err(out.error)) else (st2, Ok(()))
  }

  /** One turn of the loop of `process_module`: a system reference is
      skipped; any other is processed, and a change recorded where its new
      name differs. */
  ghost function ListedSpec(env: Env, v: Variant, rpaths: seq<Path>, d: ModulePath, changes: seq<Change>, st: St, C: set<Bytes>): (r: (St, Result<seq<Change>>))
    requires d in AllDeps(env, C) && FileContents(st.fs) <= C
    ensures Extends(st, r.0, C)
    ensures IsSystem(d) ==> r == (st, Ok(changes))
    ensures !IsSystem(d) ==>
      (var (st1, res) := DependencySpec(env, v, rpaths, d, st, C);
       r.0 == st1 && (r.1.Ok? <==> res.Ok?) && (res.Err? ==> r.1.error == res.error)
       && (res.Ok? ==> r.1.value == if res.value != d then changes + [Change(d, res.value)] else changes))
    decreases Pending(KeySpace(env, C, rpaths), st.processed), 0, 3
  {
    if IsSystem(d) then (st, Ok(changes))
    else
      var (st1, res) := DependencySpec(env, v, rpaths, d, st, C);
      match res
      case Err(e) => (st1, Err(e))
      case Ok(key) => (st1, Ok(if key != d then changes + [Change(d, key)] else changes))
  }

  /** The loop of `process_module` over the dependencies still to do, with
      the changes collected so far. */
  ghost function ModuleLoop(env: Env, v: Variant, rpaths: seq<Path>, deps: seq<ModulePath>, changes: seq<Change>, st: St, C: set<Bytes>): (r: (St, Result<seq<Change>>))
    requires forall d :: d in deps ==> d in AllDeps(env, C)
    requires FileContents(st.fs) <= C
    ensures Extends(st, r.0, C)
    decreases Pending(KeySpace(env, C, rpaths), st.processed), 1, |deps|
  {
    if deps == [] then (st, Ok(changes))
    else
      var (st1, res) := ListedSpec(env, v, rpaths, deps[0], changes, st, C);
      if res.Err? then (st1, res)
      else
        PendingMonotone(KeySpace(env, C, rpaths), st.processed, st1.processed);
        var r := ModuleLoop(env, v, rpaths, deps[1..], res.value, st1, C);
        ExtendsTrans(st, st1, r.0, C);
        r
  }

  /** One step of `ModuleLoop`, whose first turn gave `(st1, res)`. */
  lemma ModuleLoopStep(env: Env, v: Variant, rpaths: seq<Path>, deps: seq<ModulePath>, changes: seq<Change>, st: St, C: set<Bytes>,
                       st1: St, res: Result<seq<Change>>)
    requires deps != [] && forall d :: d in deps ==> d in AllDeps(env, C)
    requires FileContents(st.fs) <= C
    requires (st1, res) == ListedSpec(env, v, rpaths, deps[0], changes, st, C)
    ensures FileContents(st1.fs) <= C
    ensures res.Err? ==> ModuleLoop(env, v, rpaths, deps, changes, st, C) == (st1, res)
    ensures res.Ok? ==> ModuleLoop(env, v, rpaths, deps, changes, st, C) == ModuleLoop(env, v, rpaths, deps[1..], res.value, st1, C)
  {
  }

  /** `value` is `changes` followed by changes of non-system references,
      each to a different name, taken from `deps` in their order. */
  predicate ChangesFrom(value: seq<Change>, changes: seq<Change>, deps: seq<ModulePath>) {
    changes <= value && IsSubsequence(Froms(value[|changes|..]), deps)
    && forall k :: |changes| <= k < |value| ==> !IsSystem(value[k].from) && value[k].from != value[k].to
  }

  lemma ChangesFromSkip(value: seq<Change>, changes: seq<Change>, deps: seq<ModulePath>)
    requires deps != [] && ChangesFrom(value, changes, deps[1..])
    ensures ChangesFrom(value, changes, deps)
  {
  }

  lemma ChangesFromCons(value: seq<Change>, changes: seq<Change>, c: Change, deps: seq<ModulePath>)
    requires deps != [] && c.from == deps[0] && !IsSystem(c.from) && c.from != c.to
    requires ChangesFrom(value, changes + [c], deps[1..])
    ensures ChangesFrom(value, changes, deps)
  {
    var rest := value[|changes|..];
    assert rest[0] == c;
    assert rest[1..] == value[|changes| + 1..];
    assert Froms(rest)[1..] == Froms(rest[1..]);
  }

  /** The changes `process_module` collects: changes of non-system
      references, each to a different name, taken from the dependencies in
      their order. */
  lemma {:induction false} ModuleLoopChanges(env: Env, v: Variant, rpaths: seq<Path>, deps: seq<ModulePath>, changes: seq<Change>, st: St, C: set<Bytes>)
    requires forall d :: d in deps ==> d in AllDeps(env, C)
    requires FileContents(st.fs) <= C
    ensures var r := ModuleLoop(env, v, rpaths, deps, changes, st, C);
      r.1.Ok? ==> ChangesFrom(r.1.value, changes, deps)
    decreases |deps|
  {
    var r := ModuleLoop(env, v, rpaths, deps, changes, st, C);
    if deps != [] && r.1.Ok? {
      var (st1, res) := ListedSpec(env, v, rpaths, deps[0], changes, st, C);
      ModuleLoopStep(env, v, rpaths, deps, changes, st, C, st1, res);
      ModuleLoopChanges(env, v, rpaths, deps[1..], res.value, st1, C);
      if IsSystem(deps[0]) {
        ChangesFromSkip(r.1.value, changes, deps);
      } else {
        var key := DependencySpec(env, v, rpaths, deps[0], st, C).1.value;
        if key != deps[0] {
          ChangesFromCons(r.1.value, changes, Change(deps[0], key), deps);
        } else {
          ChangesFromSkip(r.1.value, changes, deps);
        }
      }
    }
  }

  /** The non-system references, in order. */
  function NonSystem(deps: seq<ModulePath>): (r: seq<ModulePath>)
    ensures forall d :: d in r ==> d in deps && !IsSystem(d)
  {
    if deps == [] then []
    else if IsSystem(deps[0]) then NonSystem(deps[1..])
    else [deps[0]] + NonSystem(deps[1..])
  }

  /** System dependencies are never resolved, copied or rewritten:
      processing a module's dependencies gives what processing only its
      non-system ones gives. */
  lemma {:induction false} SystemDependenciesIgnored(env: Env, v: Variant, rpaths: seq<Path>, deps: seq<ModulePath>, changes: seq<Change>, st: St, C: set<Bytes>)
    requires forall d :: d in deps ==> d in AllDeps(env, C)
    requires FileContents(st.fs) <= C
    ensures ModuleLoop(env, v, rpaths, deps, changes, st, C) == ModuleLoop(env, v, rpaths, NonSystem(deps), changes, st, C)
    decreases |deps|
  {
    if deps != [] {
      var ns := NonSystem(deps);
      var (st1, res) := ListedSpec(env, v, rpaths, deps[0], changes, st, C);
      ModuleLoopStep(env, v, rpaths, deps, changes, st, C, st1, res);
      if IsSystem(deps[0]) {
        SystemDependenciesIgnored(env, v, rpaths, deps[1..], changes, st, C);
      } else {
        assert ns[0] == deps[0] && ns[1..] == NonSystem(deps[1..]);
        ModuleLoopStep(env, v, rpaths, ns, changes, st, C, st1, res);
        if res.Ok? {
          SystemDependenciesIgnored(env, v, rpaths, deps[1..], res.value, st1, C);
        }
      }
    }
  }

  /** The calls of `process_dependency` that the loop of `process_module`
      makes: one per non-system reference, in order, each from the state the
      one before left, paired with the name it returned; the first error
      ends them. */
  ghost function Resolutions(env: Env, v: Variant, rpaths: seq<Path>, deps: seq<ModulePath>, st: St, C: set<Bytes>): (r: (St, Result<seq<Change>>))
    requires forall d :: d in deps ==> d in AllDeps(env, C)
    requires FileContents(st.fs) <= C
    ensures Extends(st, r.0, C)
    decreases |deps|
  {
    if deps == [] then (st, Ok([]))
    else if IsSystem(deps[0]) then Resolutions(env, v, rpaths, deps[1..], st, C)
    else
      var (st1, res) := DependencySpec(env, v, rpaths, deps[0], st, C);
      if res.Err? then (st1, Err(res.error))
      else
        var (st2, rest) := Resolutions(env, v, rpaths, deps[1..], st1, C);
        ExtendsTrans(st, st1, st2, C);
        if rest.Err? then (st2, rest)
        else
          (st2, Ok([Change(deps[0], res.value)] + rest.value))
  }

  lemma FromsCons(c: Change, rest: seq<Change>)
    ensures Froms([c] + rest) == [c.from] + Froms(rest)
  {
    var a, b := Froms([c] + rest), [c.from] + Froms(rest);
    forall k | 0 <= k < |a| ensures a[k] == b[k] {
      if k > 0 {
        assert ([c] + rest)[k] == rest[k - 1];
      }
    }
  }

  /** The calls are made for exactly the non-system references, in order. */
  lemma {:induction false} ResolutionsOrder(env: Env, v: Variant, rpaths: seq<Path>, deps: seq<ModulePath>, st: St, C: set<Bytes>)
    requires forall d :: d in deps ==> d in AllDeps(env, C)
    requires FileContents(st.fs) <= C
    ensures var q := Resolutions(env, v, rpaths, deps, st, C);
      q.1.Ok? ==> Froms(q.1.value) == NonSystem(deps)
    decreases |deps|
  {
    if deps != [] {
      if IsSystem(deps[0]) {
        ResolutionsOrder(env, v, rpaths, deps[1..], st, C);
      } else {
        var (st1, res) := DependencySpec(env, v, rpaths, deps[0], st, C);
        if res.Ok? {
          ResolutionsOrder(env, v, rpaths, deps[1..], st1, C);
          var rest := Resolutions(env, v, rpaths, deps[1..], st1, C).1;
          if rest.Ok? {
            FromsCons(Change(deps[0], res.value), rest.value);
          }
        }
      }
    }
  }

  /** The pairs whose returned name differs from the reference, in order. */
  function Renamed(pairs: seq<Change>): seq<Change> {
    if pairs == [] then []
    else (if pairs[0].from != pairs[0].to then [pairs[0]] else []) + Renamed(pairs[1..])
  }

  /** `Renamed` keeps exactly the pairs whose name differs, in their order. */
  lemma {:induction false} RenamedFilters(pairs: seq<Change>)
    ensures var r := Renamed(pairs);
      (forall c :: c in r <==> c in pairs && c.from != c.to)
      && IsSubsequence(Froms(r), Froms(pairs))
  {
    if pairs != [] {
      var p, rest := pairs[0], pairs[1..];
      assert pairs == [p] + rest;
      RenamedFilters(rest);
      RenamedCons(p, rest);
      var tail := Renamed(rest);
      FromsCons(p, rest);
      assert Froms(pairs)[1..] == Froms(rest);
      if p.from != p.to {
        FromsCons(p, tail);
        assert Renamed(pairs) == [p] + tail;
        assert Froms([p] + tail)[1..] == Froms(tail);
      } else {
        assert Renamed(pairs) == tail;
      }
    }
  }

  /** The loop of `process_module` is exactly the calls of
      `process_dependency` for the non-system references, in order, the
      changes being the pairs whose name differs: it ends in the same state,
      fails exactly when one of them fails and with its error, and otherwise
      appends every such pair and no other. */
  lemma {:induction false} ModuleLoopComplete(env: Env, v: Variant, rpaths: seq<Path>, deps: seq<ModulePath>, changes: seq<Change>, st: St, C: set<Bytes>)
    requires forall d :: d in deps ==> d in AllDeps(env, C)
    requires FileContents(st.fs) <= C
    ensures var r := ModuleLoop(env, v, rpaths, deps, changes, st, C);
      var q := Resolutions(env, v, rpaths, deps, st, C);
      r.0 == q.0 && (r.1.Ok? <==> q.1.Ok?) && (q.1.Err? ==> r.1.error == q.1.error)
      && (q.1.Ok? ==> r.1.value == changes + Renamed(q.1.value))
    decreases |deps|
  {
    if deps != [] {
      var (st1, res) := ListedSpec(env, v, rpaths, deps[0], changes, st, C);
      ModuleLoopStep(env, v, rpaths, deps, changes, st, C, st1, res);
      if IsSystem(deps[0]) {
        ModuleLoopComplete(env, v, rpaths, deps[1..], changes, st, C);
      } else {
        var (st0, dep) := DependencySpec(env, v, rpaths, deps[0], st, C);
        ResolutionsStep(env, v, rpaths, deps, st, C, st0, dep);
        if dep.Ok? {
          ModuleLoopComplete(env, v, rpaths, deps[1..], res.value, st1, C);
          var q1 := Resolutions(env, v, rpaths, deps[1..], st1, C).1;
          if q1.Ok? {
            RenamedAppend(changes, Change(deps[0], dep.value), res.value, q1.value);
          }
        }
      }
    }
  }

  /** One non-system turn of `Resolutions`, whose dependency call gave
      `(st1, res)`. */
  lemma ResolutionsStep(env: Env, v: Variant, rpaths: seq<Path>, deps: seq<ModulePath>, st: St, C: set<Bytes>,
                        st1: St, res: Result<ModulePath>)
    requires deps != [] && !IsSystem(deps[0]) && forall d :: d in deps ==> d in AllDeps(env, C)
    requires FileContents(st.fs) <= C
    requires (st1, res) == DependencySpec(env, v, rpaths, deps[0], st, C)
    ensures FileContents(st1.fs) <= C
    ensures res.Err? ==> Resolutions(env, v, rpaths, deps, st, C) == (st1, Err(res.error))
    ensures res.Ok? ==>
      (var (st2, rest) := Resolutions(env, v, rpaths, deps[1..], st1, C);
       Resolutions(env, v, rpaths, deps, st, C) == (st2, if rest.Err? then rest else Ok([Change(deps[0], res.value)] + rest.value)))
  {
  }

  /** Recording `c` where its name differs, then the rest, is recording
      the renamed pairs of `c` and the rest. */
  lemma RenamedAppend(changes: seq<Change>, c: Change, value: seq<Change>, rest: seq<Change>)
    requires value == if c.from != c.to then changes + [c] else changes
    ensures value + Renamed(rest) == changes + Renamed([c] + rest)
  {
    RenamedCons(c, rest);
    var tail := Renamed(rest);
    var head: seq<Change> := if c.from != c.to then [c] else [];
    assert value == changes + head;
    assert Renamed([c] + rest) == head + tail;
    assert (changes + head) + tail == changes + (head + tail);
  }

  lemma RenamedCons(c: Change, rest: seq<Change>)
    ensures Renamed([c] + rest) == (if c.from != c.to then [c] else []) + Renamed(rest)
  {
    assert ([c] + rest)[0] == c && ([c] + rest)[1..] == rest;
  }

  /** Every name `process_dependency` returns is an `@rpath/` name. */
  lemma {:induction false} ResolvedNames(env: Env, v: Variant, rpaths: seq<Path>, deps: seq<ModulePath>, st: St, C: set<Bytes>)
    requires forall d :: d in deps ==> d in AllDeps(env, C)
    requires FileContents(st.fs) <= C
    ensures var q := Resolutions(env, v, rpaths, deps, st, C);
      q.1.Ok? ==> forall c :: c in q.1.value ==> "@rpath/" <= c.to.s
    decreases |deps|
  {
    if deps != [] {
      if IsSystem(deps[0]) {
        ResolvedNames(env, v, rpaths, deps[1..], st, C);
      } else {
        var (st1, res) := DependencySpec(env, v, rpaths, deps[0], st, C);
        DependencyKey(env, v, rpaths, deps[0], st, C);
        if res.Ok? {
          ResolvedNames(env, v, rpaths, deps[1..], st1, C);
        }
      }
    }
  }

  /** `process_module` as a whole: on success the dependency calls all
      succeeded, and the only further command is one `-change` command for
      exactly the references whose name differs, none when there are none. */
  lemma ModuleChangeCommand(env: Env, v: Variant, rpaths: seq<Path>, target: Path, m: Module, st: St, C: set<Bytes>)
    requires forall d :: d in m.dependencies ==> d in AllDeps(env, C)
    requires FileContents(st.fs) <= C
    ensures var r := ModuleSpec(env, v, rpaths, target, m, st, C);
      var q := Resolutions(env, v, rpaths, m.dependencies, st, C);
      r.1.Ok? ==>
        q.1.Ok? && r.0.log == q.0.log + (if Renamed(q.1.value) == [] then [] else [ChangeCommand(Renamed(q.1.value), target)])
  {
    ModuleLoopComplete(env, v, rpaths, m.dependencies, [], st, C);
    var q := Resolutions(env, v, rpaths, m.dependencies, st, C);
    if q.1.Ok? {
      assert [] + Renamed(q.1.value) == Renamed(q.1.value);
    }
  }

  /** Whether some dependency is not a system one. */
  predicate HasLocalDependency(deps: seq<ModulePath>) {
    exists d :: d in deps && !IsSystem(d)
  }

  /** `process_executable`: the executable's path relative to the source
      bundle gives its target; it is resolved, and its own directory is the
      only search root for its references. */
  ghost function ExecutableSpec(env: Env, v: Variant, opts: Options, exe: Path, st: St): (r: (St, Result<()>))
    ensures r.0.outPath == st.outPath && r.0.executables == st.executables && st.log <= r.0.log
    ensures r.1.Ok? ==>
      Canonicalize(st.fs, env.cwd, exe).IoOk? && |st.log| < |r.0.log|
      && r.0.log[|st.log|] == OtoolCommand(Path(true, Canonicalize(st.fs, env.cwd, exe).value))
  {
    match DiffPaths(exe, opts.sourcePath)
    case None => (st, Err(PanicUnwrap))
    case Some(relative) =>
      match Canonicalize(st.fs, env.cwd, exe)
      case IoErr(k) => (st, Err(FileOperation(FileOps.Canonicalize, exe, None, k)))
      case IoOk(l) =>
        var executable := Path(true, l);
        match Parent(executable)
        case None => (st, Err(PanicUnwrap))
        case Some(rpath) => LoadedExecutableSpec(env, v, executable, rpath, Join(st.outPath, relative), st)
  }

  /** The resolved executable is loaded, its module processed at `target`,
      and an rpath added when a reference is not a system one. */
  ghost function LoadedExecutableSpec(env: Env, v: Variant, executable: Path, rpath: Path, target: Path, st: St): (r: (St, Result<()>))
    ensures r.0.outPath == st.outPath && r.0.executables == st.executables && st.log <= r.0.log
    ensures |st.log| < |r.0.log| && r.0.log[|st.log|] == OtoolCommand(executable)
  {
    var st1 := st.(log := st.log + [OtoolCommand(executable)]);
    var found := FindModulePaths(executable, env.otool(ContentsOf(st.fs, env.cwd, executable)));
    match LoadExecutable(executable, found)
    case Err(e) => (st1, Err(e))
    case Ok(m) =>
      ListedInUniverse(env, st.fs, FileContents(st1.fs), executable);
      ExecutableModuleSpec(env, v, rpath, target, m, st1, FileContents(st1.fs))
  }

  /** The executable's module processed at `target`, then the rpath step. */
  ghost function ExecutableModuleSpec(env: Env, v: Variant, rpath: Path, target: Path, m: Module, st: St, C: set<Bytes>): (r: (St, Result<()>))
    requires forall d :: d in m.dependencies ==> d in AllDeps(env, C)
    requires FileContents(st.fs) <= C
    ensures r.0.outPath == st.outPath && r.0.executables == st.executables && st.log <= r.0.log
  {
    var (st1, res) := ModuleSpec(env, v, [rpath], target, m, st, C);
    if res.Err? then (st1, Err(res.error))
    else RpathSpec(env, v, m, target, st1)
  }

  /** The rpath step of `process_executable`: nothing happens when every
      reference is a system one; otherwise the `-add_rpath` command is run
      and is the last command. */
  function RpathSpec(env: Env, v: Variant, m: Module, target: Path, st: St): (r: (St, Result<()>))
    ensures !HasLocalDependency(m.dependencies) ==> r == (st, Ok(()))
    ensures HasLocalDependency(m.dependencies) && RpathCommand(v, st.outPath, target).Some?
      ==> r.0 == st.(log := st.log + [RpathCommand(v, st.outPath, target).value])
    ensures HasLocalDependency(m.dependencies) && RpathCommand(v, st.outPath, target).None?
      ==> r == (st, Err(PanicUnwrap))
  {
    if !HasLocalDependency(m.dependencies) then (st, Ok(()))
    else
      match RpathCommand(v, st.outPath, target)
      case None => (st, Err(PanicUnwrap))
      case Some(cmd) =>
        var out := RunCommand(cmd, "install_name_tool", env.run(cmd));
        var st1 := st.(log := st.log + [cmd]);
        if out.Err? then (st1, Err(out.error)) else (st1, Ok(()))
  }

  /** No component from index `from` on is a "Frameworks" following a
      "Contents". */
  predicate OutsideFrameworks(x: Path, from: nat) {
    forall j :: from <= j < |x.comps| && j >= 1 ==> !(x.comps[j - 1] == "Contents" && x.comps[j] == "Frameworks")
  }

  /** What `process_dir` may do to the state: only the file system and the
      recorded executables change; those recorded are source paths below
      `src`, none of them inside a `Contents/Frameworks` the walk skipped. */
  ghost predicate WalkStep(a: St, b: St, src: Path) {
    b.log == a.log && b.outPath == a.outPath && b.processed == a.processed
    && a.executables <= b.executables
    && forall k :: |a.executables| <= k < |b.executables| ==>
        Below(b.executables[k], src) && OutsideFrameworks(b.executables[k], |src.comps|)
  }

  /** `process_dir`: every entry of the source directory, in order. */
  ghost function DirSpec(env: Env, v: Variant, src: Path, dst: Path, st: St): (r: (St, Result<()>))
    ensures WalkStep(st, r.0, src)
    decreases Budget(src), 2
  {
    match ReadDir(st.fs, env.cwd, src)
    case IoErr(k) => (st, Err(FileOperation(FileOps.ReadDir, src, None, k)))
    case IoOk(names) => EntriesSpec(env, v, src, dst, names, st)
  }

  ghost function EntriesSpec(env: Env, v: Variant, src: Path, dst: Path, names: seq<string>, st: St): (r: (St, Result<()>))
    requires !TooLong(src)
    ensures WalkStep(st, r.0, src)
    decreases Budget(src), 1, |names|
  {
    if names == [] then (st, Ok(()))
    else
      var (st1, res) := EntrySpec(env, v, src, dst, names[0], st);
      if res.Err? then (st1, res) else EntriesSpec(env, v, src, dst, names[1..], st1)
  }

  /** One entry of `process_dir`: `Frameworks` directly in `Contents` is
      skipped; a link is recreated and kept when it resolves inside the
      output bundle, and otherwise removed again and its target copied. */
  ghost function EntrySpec(env: Env, v: Variant, src: Path, dst: Path, name: string, st: St): (r: (St, Result<()>))
    requires !TooLong(src)
    ensures WalkStep(st, r.0, src)
    ensures SymlinkMetadata(st.fs, env.cwd, Child(src, name)).IoOk? && FileName(src) == Some("Contents") && name == "Frameworks"
      ==> r == (st, Ok(()))
    ensures (SymlinkMetadata(st.fs, env.cwd, Child(src, name)).IoOk? && FileName(src).Some?
             && !(FileName(src) == Some("Contents") && name == "Frameworks")) ==>
      (var kept := LinkSpec(env, Child(src, name), Child(dst, name), st);
       if !SymlinkMetadata(st.fs, env.cwd, Child(src, name)).value.Symlink? then r == ResolvedSpec(env, v, src, dst, name, st)
       else if kept.1.Err? then r == (kept.0, Err(kept.1.error))
       else if kept.1.value then r == (kept.0, Ok(()))
       else r == ResolvedSpec(env, v, src, dst, name, kept.0))
    decreases Budget(src), 0, 1
  {
    var path := Child(src, name);
    var dest := Child(dst, name);
    match SymlinkMetadata(st.fs, env.cwd, path)
    case IoErr(k) => (st, Err(FileOperation(FileOps.MetaData, path, None, k)))
    case IoOk(meta) =>
      match FileName(src)
      case None => (st, Err(PanicUnwrap))
      case Some(srcName) =>
        if srcName == "Contents" && name == "Frameworks" then (st, Ok(()))
        else if meta.Symlink? then
          var (st1, kept) := LinkSpec(env, path, dest, st);
          match kept
          case Err(e) => (st1, Err(e))
          case Ok(true) => (st1, Ok(()))
          case Ok(false) => ResolvedSpec(env, v, src, dst, name, st1)
        else ResolvedSpec(env, v, src, dst, name, st)
  }

  /** The link part of an entry: the link is recreated at `dest` with the
      same target; `true` when it then resolves inside the resolved output
      bundle, otherwise the new link is removed again. */
  ghost function LinkSpec(env: Env, path: Path, dest: Path, st: St): (r: (St, Result<bool>))
    ensures r.0 == st.(fs := r.0.fs)
    ensures r.1 == Ok(true) ==>
      (Canonicalize(r.0.fs, env.cwd, dest).IoOk? && Canonicalize(r.0.fs, env.cwd, st.outPath).IoOk?
       && Canonicalize(r.0.fs, env.cwd, st.outPath).value <= Canonicalize(r.0.fs, env.cwd, dest).value)
    ensures r.1.Ok? ==> ReadLink(st.fs, env.cwd, path).IoOk?
    ensures r.1.Ok? ==>
      (var made := CreateSymlink(st.fs, env.cwd, ReadLink(st.fs, env.cwd, path).value, dest);
       made.err.None? && Canonicalize(made.fs, env.cwd, dest).IoOk? && Canonicalize(made.fs, env.cwd, st.outPath).IoOk?
       && (r.1.value <==> StartsWith(Path(true, Canonicalize(made.fs, env.cwd, dest).value),
                                     Path(true, Canonicalize(made.fs, env.cwd, st.outPath).value)))
       && (r.1.value ==> r.0.fs == made.fs)
       && (!r.1.value ==> RemoveFile(made.fs, env.cwd, dest).err.None? && r.0.fs == RemoveFile(made.fs, env.cwd, dest).fs
                          && Locate(made.fs, env.cwd, dest).value !in r.0.fs))
  {
    match ReadLink(st.fs, env.cwd, path)
    case IoErr(k) => (st, Err(FileOperation(FileOps.ReadLink, path, None, k)))
    case IoOk(link) =>
      var made := CreateSymlink(st.fs, env.cwd, link, dest);
      if made.err.Some? then (st, Err(FileOperation(FileOps.SymLink, dest, None, made.err.value)))
      else
        var st1 := st.(fs := made.fs);
        match Canonicalize(st1.fs, env.cwd, dest)
        case IoErr(k) => (st1, Err(FileOperation(FileOps.Canonicalize, dest, None, k)))
        case IoOk(destResolved) =>
          match Canonicalize(st1.fs, env.cwd, st.outPath)
          case IoErr(k) => (st1, Err(FileOperation(FileOps.Canonicalize, st.outPath, None, k)))
          case IoOk(bundleResolved) =>
            if StartsWith(Path(true, destResolved), Path(true, bundleResolved)) then (st1, Ok(true))
            else
              var rm := RemoveFile(st1.fs, env.cwd, dest);
              var st2 := st1.(fs := rm.fs);
              if rm.err.Some? then (st2, Err(FileOperation(FileOps.Remove, dest, None, rm.err.value)))
              else (st2, Ok(false))
  }

  /** The resolved part of an entry: a directory is created and walked, a
      file copied and, when it is a binary, its source path recorded. */
  ghost function ResolvedSpec(env: Env, v: Variant, src: Path, dst: Path, name: string, st: St): (r: (St, Result<()>))
    requires !TooLong(src) && !(FileName(src) == Some("Contents") && name == "Frameworks")
    ensures WalkStep(st, r.0, src)
    decreases Budget(src), 0, 0
  {
    var path := Child(src, name);
    var dest := Child(dst, name);
    match Canonicalize(st.fs, env.cwd, path)
    case IoErr(k) => (st, Err(FileOperation(FileOps.Canonicalize, path, None, k)))
    case IoOk(l) =>
      if IsDir(st.fs, env.cwd, Path(true, l)) then
        var made := CreateDir(st.fs, env.cwd, dest);
        if made.err.Some? then (st, Err(FileOperation(FileOps.CreateDir, dest, None, made.err.value)))
        else
          ChildBudget(src, name);
          var r := DirSpec(env, v, path, dest, st.(fs := made.fs));
          WalkBelowChild(st.(fs := made.fs), r.0, src, name);
          r
      else FileEntrySpec(env, v, src, dest, name, Path(true, l), st)
  }

  /** A walk of the child `name` of `src` is a walk of `src`: the child
      itself is not a `Frameworks` in `Contents`. */
  lemma WalkBelowChild(a: St, b: St, src: Path, name: string)
    requires !(FileName(src) == Some("Contents") && name == "Frameworks")
    requires WalkStep(a, b, Child(src, name))
    ensures WalkStep(a, b, src)
  {
    var path := Child(src, name);
    forall k | |a.executables| <= k < |b.executables|
      ensures Below(b.executables[k], src) && OutsideFrameworks(b.executables[k], |src.comps|)
    {
      var x := b.executables[k];
      assert x.comps[..|path.comps|] == path.comps;
      assert x.comps[|src.comps|] == name;
      assert |src.comps| >= 1 ==> x.comps[|src.comps| - 1] == src.comps[|src.comps| - 1];
    }
  }

  /** A child is below its directory and, unless it is a `Frameworks` in
      `Contents`, outside the skipped frameworks. */
  lemma ChildOutsideFrameworks(src: Path, name: string)
    requires !(FileName(src) == Some("Contents") && name == "Frameworks")
    ensures Below(Child(src, name), src) && OutsideFrameworks(Child(src, name), |src.comps|)
  {
    var path := Child(src, name);
    assert path.comps[..|src.comps|] == src.comps && path.comps[|src.comps|] == name;
  }

  /** A file entry: copied to `dest` from its resolved path; when it is a
      binary its source path is recorded. */
  function FileEntrySpec(env: Env, v: Variant, src: Path, dest: Path, name: string, resolved: Path, st: St): (r: (St, Result<()>))
    requires !(FileName(src) == Some("Contents") && name == "Frameworks")
    ensures WalkStep(st, r.0, src)
    ensures r.1.Ok? ==>
      CopyFile(st.fs, env.cwd, resolved, dest).err.None?
      && r.0.fs == CopyFile(st.fs, env.cwd, resolved, dest).fs
      && (r.0.executables == st.executables + [Child(src, name)]
          <==> IsBinary(v, r.0.fs, env.cwd, resolved) == Ok(true))
  {
    var path := Child(src, name);
    var cp := CopyFile(st.fs, env.cwd, resolved, dest);
    var st1 := st.(fs := cp.fs);
    if cp.err.Some? then (st1, Err(FileOperation(FileOps.Copy, dest, Some(path), cp.err.value)))
    else
      match IsBinary(v, st1.fs, env.cwd, resolved)
      case Err(e) => (st1, Err(e))
      case Ok(binary) =>
        ChildOutsideFrameworks(src, name);
        if binary then (st1.(executables := st1.executables + [path]), Ok(())) else (st1, Ok(()))
  }

  /** The loop of `perform` over the recorded executables. */
  ghost function ExecutablesSpec(env: Env, v: Variant, opts: Options, exes: seq<Path>, st: St): (r: (St, Result<()>))
    ensures r.0.outPath == st.outPath && r.0.executables == st.executables && st.log <= r.0.log
    decreases |exes|
  {
    if exes == [] then (st, Ok(()))
    else
      var (st1, res) := ExecutableSpec(env, v, opts, exes[0], st);
      if res.Err? then (st1, res) else ExecutablesSpec(env, v, opts, exes[1..], st1)
  }

  /** `perform`: both given directories must exist; the output bundle, named
      after the source, must not exist unless it may be deleted; it is then
      created, filled by the walk of the source, and each recorded
      executable processed in the order recorded. */
  ghost function PerformSpec(env: Env, v: Variant, opts: Options, st: St): (r: (St, Result<()>))
    ensures !IsDir(st.fs, env.cwd, opts.sourcePath) ==> r == (st, Err(OtherError("Source-path is not a valid folder.")))
    ensures IsDir(st.fs, env.cwd, opts.sourcePath) && !IsDir(st.fs, env.cwd, opts.outDir)
      ==> r == (st, Err(OtherError("Out-dir is not a valid folder")))
    ensures (IsDir(st.fs, env.cwd, opts.sourcePath) && IsDir(st.fs, env.cwd, opts.outDir)
      && FileName(opts.sourcePath).Some? && !opts.deleteExistingBundle
      && Exists(st.fs, env.cwd, Child(opts.outDir, FileName(opts.sourcePath).value)))
      ==> r.1 == Err(OtherError("Target folder " + Debug(Child(opts.outDir, FileName(opts.sourcePath).value))
          + " already exists. Please delete it first."))
    ensures r.1.Ok? ==>
      (IsDir(st.fs, env.cwd, opts.sourcePath) && IsDir(st.fs, env.cwd, opts.outDir)
       && FileName(opts.sourcePath).Some? && r.0.outPath == Child(opts.outDir, FileName(opts.sourcePath).value))
  {
    if !IsDir(st.fs, env.cwd, opts.sourcePath) then (st, Err(OtherError("Source-path is not a valid folder.")))
    else if !IsDir(st.fs, env.cwd, opts.outDir) then (st, Err(OtherError("Out-dir is not a valid folder")))
    else
      match FileName(opts.sourcePath)
      case None => (st, Err(PanicUnwrap))
      case Some(n) =>
        var st1 := st.(outPath := Child(opts.outDir, n));
        if !Exists(st1.fs, env.cwd, st1.outPath) then SetUpSpec(env, v, opts, st1)
        else if !opts.deleteExistingBundle then
          (st1, Err(OtherError("Target folder " + Debug(st1.outPath) + " already exists. Please delete it first.")))
        else
          var rm := RemoveDirAll(st1.fs, env.cwd, st1.outPath);
          var st2 := st1.(fs := rm.fs);
          if rm.err.Some? then (st2, Err(FileOperation(FileOps.RemoveDir, st1.outPath, None, rm.err.value)))
          else SetUpSpec(env, v, opts, st2)
  }

  /** The part of `perform` after the output path is free. */
  ghost function SetUpSpec(env: Env, v: Variant, opts: Options, st: St): (r: (St, Result<()>))
    ensures r.0.outPath == st.outPath
  {
    var made := CreateDir(st.fs, env.cwd, st.outPath);
    var st1 := st.(fs := made.fs);
    if made.err.Some? then (st1, Err(FileOperation(FileOps.MkDir, st.outPath, None, made.err.value)))
    else
      var (st2, walked) := DirSpec(env, v, opts.sourcePath, st.outPath, st1);
      if walked.Err? then (st2, walked)
      else ExecutablesSpec(env, v, opts, st2.executables, st2)
  }

  /** `SelfContained`, or `MacOSBundleSelfContained` when `variant` is
      `Legacy`. */
  class SelfContained {
    const env: Env
    const variant: Variant
    const options: Options
    var outPath: Path
    var executables: seq<Path>
    var processedLibraries: map<ModulePath, Path>
    var fs: FileSystem
    var log: seq<Cmd>

    function State(): St
      reads this
    {
      St(fs, log, outPath, executables, processedLibraries)
    }

    constructor (env: Env, variant: Variant, options: Options, fs: FileSystem)
      ensures this.env == env && this.variant == variant && this.options == options
      ensures State() == St(fs, [], Path(false, []), [], map[])
    {
      this.env := env;
      this.variant := variant;
      this.options := options;
      this.fs := fs;
      log := [];
      outPath := Path(false, []);
      executables := [];
      processedLibraries := map[];
    }

    /** Runs `cmd` and logs it. */
    method Run(cmd: Cmd, name: string) returns (r: Result<seq<string>>)
      modifies this
      ensures State() == old(State()).(log := old(log) + [cmd])
      ensures r == RunCommand(cmd, name, env.run(cmd))
    {
      log := log + [cmd];
      r := RunCommand(cmd, name, env.run(cmd));
    }

    method Perform() returns (r: Result<()>)
      modifies this
      ensures (State(), r) == PerformSpec(env, variant, options, old(State()))
    {
      if !IsDir(fs, env.cwd, options.sourcePath) {
        return Err(OtherError("Source-path is not a valid folder."));
      }
      if !IsDir(fs, env.cwd, options.outDir) {
        return Err(OtherError("Out-dir is not a valid folder"));
      }
      var n := FileName(options.sourcePath);
      if n.None? {
        return Err(PanicUnwrap);
      }
      outPath := Child(options.outDir, n.value);
      if Exists(fs, env.cwd, outPath) {
        if options.deleteExistingBundle {
          var rm := RemoveDirAll(fs, env.cwd, outPath);
          fs := rm.fs;
          if rm.err.Some? {
            return Err(FileOperation(FileOps.RemoveDir, outPath, None, rm.err.value));
          }
        } else {
          return Err(OtherError("Target folder " + Debug(outPath) + " already exists. Please delete it first."));
        }
      }
      r := SetUp();
    }

    method SetUp() returns (r: Result<()>)
      modifies this
      ensures (State(), r) == SetUpSpec(env, variant, options, old(State()))
    {
      var made := CreateDir(fs, env.cwd, outPath);
      fs := made.fs;
      if made.err.Some? {
        return Err(FileOperation(FileOps.MkDir, outPath, None, made.err.value));
      }
      r := ProcessDir(options.sourcePath, outPath);
      if r.Err? {
        return;
      }
      var exes := executables;
      ghost var st0 := State();
      var i := 0;
      while i < |exes|
        invariant i <= |exes|
        invariant ExecutablesSpec(env, variant, options, exes, st0) == ExecutablesSpec(env, variant, options, exes[i..], State())
      {
        assert exes[i..][1..] == exes[i + 1..];
        r := ProcessExecutable(exes[i]);
        if r.Err? {
          return;
        }
        i := i + 1;
      }
      return Ok(());
    }

    method ProcessDir(src: Path, dst: Path) returns (r: Result<()>)
      modifies this
      ensures (State(), r) == DirSpec(env, variant, src, dst, old(State()))
      decreases Budget(src), 2
    {
      var listing := ReadDir(fs, env.cwd, src);
      if listing.IoErr? {
        return Err(FileOperation(FileOps.ReadDir, src, None, listing.kind));
      }
      var names := listing.value;
      ghost var st0 := State();
      var i := 0;
      while i < |names|
        invariant i <= |names|
        invariant EntriesSpec(env, variant, src, dst, names, st0) == EntriesSpec(env, variant, src, dst, names[i..], State())
      {
        assert names[i..][1..] == names[i + 1..];
        r := ProcessEntry(src, dst, names[i]);
        if r.Err? {
          return;
        }
        i := i + 1;
      }
      return Ok(());
    }

    method ProcessEntry(src: Path, dst: Path, name: string) returns (r: Result<()>)
      requires !TooLong(src)
      modifies this
      ensures (State(), r) == EntrySpec(env, variant, src, dst, name, old(State()))
      decreases Budget(src), 0, 1
    {
      var path := Child(src, name);
      var dest := Child(dst, name);
      var meta := SymlinkMetadata(fs, env.cwd, path);
      if meta.IoErr? {
        return Err(FileOperation(FileOps.MetaData, path, None, meta.kind));
      }
      var srcName := FileName(src);
      if srcName.None? {
        return Err(PanicUnwrap);
      }
      if srcName.value == "Contents" && name == "Frameworks" {
        return Ok(());
      }
      if meta.value.Symlink? {
        var kept := PreserveLink(path, dest);
        match kept
        case Err(e) => return Err(e);
        case Ok(true) => return Ok(());
        case Ok(false) =>
      }
      r := ProcessResolved(src, dst, name);
    }

    method PreserveLink(path: Path, dest: Path) returns (r: Result<bool>)
      modifies this
      ensures (State(), r) == LinkSpec(env, path, dest, old(State()))
    {
      var link := ReadLink(fs, env.cwd, path);
      if link.IoErr? {
        return Err(FileOperation(FileOps.ReadLink, path, None, link.kind));
      }
      var made := CreateSymlink(fs, env.cwd, link.value, dest);
      if made.err.Some? {
        return Err(FileOperation(FileOps.SymLink, dest, None, made.err.value));
      }
      fs := made.fs;
      var destResolved := Canonicalize(fs, env.cwd, dest);
      if destResolved.IoErr? {
        return Err(FileOperation(FileOps.Canonicalize, dest, None, destResolved.kind));
      }
      var bundleResolved := Canonicalize(fs, env.cwd, outPath);
      if bundleResolved.IoErr? {
        return Err(FileOperation(FileOps.Canonicalize, outPath, None, bundleResolved.kind));
      }
      if StartsWith(Path(true, destResolved.value), Path(true, bundleResolved.value)) {
        return Ok(true);
      }
      var rm := RemoveFile(fs, env.cwd, dest);
      fs := rm.fs;
      if rm.err.Some? {
        return Err(FileOperation(FileOps.Remove, dest, None, rm.err.value));
      }
      return Ok(false);
    }

    method ProcessResolved(src: Path, dst: Path, name: string) returns (r: Result<()>)
      requires !TooLong(src) && !(FileName(src) == Some("Contents") && name == "Frameworks")
      modifies this
      ensures (State(), r) == ResolvedSpec(env, variant, src, dst, name, old(State()))
      decreases Budget(src), 0, 0
    {
      var path := Child(src, name);
      var dest := Child(dst, name);
      var l := Canonicalize(fs, env.cwd, path);
      if l.IoErr? {
        return Err(FileOperation(FileOps.Canonicalize, path, None, l.kind));
      }
      var resolved := Path(true, l.value);
      if IsDir(fs, env.cwd, resolved) {
        var made := CreateDir(fs, env.cwd, dest);
        if made.err.Some? {
          return Err(FileOperation(FileOps.CreateDir, dest, None, made.err.value));
        }
        fs := made.fs;
        ChildBudget(src, name);
        r := ProcessDir(path, dest);
      } else {
        var cp := CopyFile(fs, env.cwd, resolved, dest);
        fs := cp.fs;
        if cp.err.Some? {
          return Err(FileOperation(FileOps.Copy, dest, Some(path), cp.err.value));
        }
        var binary := IsBinary(variant, fs, env.cwd, resolved);
        if binary.Err? {
          return Err(binary.error);
        }
        if binary.value {
          executables := executables + [path];
        }
        return Ok(());
      }
    }

    method ProcessExecutable(exe: Path) returns (r: Result<()>)
      modifies this
      ensures (State(), r) == ExecutableSpec(env, variant, options, exe, old(State()))
    {
      var relative := DiffPaths(exe, options.sourcePath);
      if relative.None? {
        return Err(PanicUnwrap);
      }
      var l := Canonicalize(fs, env.cwd, exe);
      if l.IoErr? {
        return Err(FileOperation(FileOps.Canonicalize, exe, None, l.kind));
      }
      var executable := Path(true, l.value);
      var rpath := Parent(executable);
      if rpath.None? {
        return Err(PanicUnwrap);
      }
      var found := FindModulePaths(executable, env.otool(ContentsOf(fs, env.cwd, executable)));
      log := log + [OtoolCommand(executable)];
      var loaded := LoadExecutable(executable, found);
      if loaded.Err? {
        return Err(loaded.error);
      }
      ghost var C := FileContents(fs);
      ListedInUniverse(env, fs, C, executable);
      var target := Join(outPath, relative.value);
      r := ProcessModule(target, loaded.value, [rpath.value], C);
      if r.Err? {
        return;
      }
      if !HasLocalDependency(loaded.value.dependencies) {
        return Ok(());
      }
      var cmd := RpathCommand(variant, outPath, target);
      if cmd.None? {
        return Err(PanicUnwrap);
      }
      var out := Run(cmd.value, "install_name_tool");
      if out.Err? {
        return Err(out.error);
      }
      return Ok(());
    }

    /** `process_module`: the loop over the dependencies, then one
        command for the references whose name changes. */
    method ProcessModule(target: Path, m: Module, rpaths: seq<Path>, ghost C: set<Bytes>) returns (r: Result<()>)
      requires forall d :: d in m.dependencies ==> d in AllDeps(env, C)
      requires FileContents(fs) <= C
      modifies this
      ensures (State(), r) == ModuleSpec(env, variant, rpaths, target, m, old(State()), C)
      decreases Pending(KeySpace(env, C, rpaths), processedLibraries), 1, |m.dependencies| + 1
    {
      var changes := ProcessDependencies(m.dependencies, rpaths, C);
      if changes.Err? {
        return Err(changes.error);
      }
      if changes.value != [] {
        var out := Run(ChangeCommand(changes.value, target), "install_name_tool");
        if out.Err? {
          return Err(out.error);
        }
      }
      return Ok(());
    }

    /** The loop of `process_module`, collecting the changed references. */
    method ProcessDependencies(deps: seq<ModulePath>, rpaths: seq<Path>, ghost C: set<Bytes>) returns (r: Result<seq<Change>>)
      requires forall d :: d in deps ==> d in AllDeps(env, C)
      requires FileContents(fs) <= C
      modifies this
      ensures (State(), r) == ModuleLoop(env, variant, rpaths, deps, [], old(State()), C)
      decreases Pending(KeySpace(env, C, rpaths), processedLibraries), 1, |deps|
    {
      ghost var st0 := State();
      var changes: seq<Change> := [];
      var i := 0;
      while i < |deps|
        invariant i <= |deps|
        invariant FileContents(fs) <= C
        invariant st0.processed.Keys <= processedLibraries.Keys
        invariant ModuleLoop(env, variant, rpaths, deps, [], st0, C)
          == ModuleLoop(env, variant, rpaths, deps[i..], changes, State(), C)
      {
        assert deps[i..][1..] == deps[i + 1..] && deps[i..][0] == deps[i];
        PendingMonotone(KeySpace(env, C, rpaths), st0.processed, processedLibraries);
        ghost var before := State();
        var next := ProcessListed(deps[i], changes, rpaths, C);
        ModuleLoopStep(env, variant, rpaths, deps[i..], changes, before, C, State(), next);
        if next.Err? {
          return next;
        }
        changes := next.value;
        i := i + 1;
      }
      return Ok(changes);
    }

    /** One turn of the loop of `process_module`. */
    method ProcessListed(d: ModulePath, changes: seq<Change>, rpaths: seq<Path>, ghost C: set<Bytes>) returns (r: Result<seq<Change>>)
      requires d in AllDeps(env, C) && FileContents(fs) <= C
      modifies this
      ensures (State(), r) == ListedSpec(env, variant, rpaths, d, changes, old(State()), C)
      decreases Pending(KeySpace(env, C, rpaths), processedLibraries), 0, 3
    {
      if IsSystem(d) {
        return Ok(changes);
      }
      var key := ProcessDependency(d, rpaths, C);
      if key.Err? {
        return Err(key.error);
      }
      if key.value != d {
        return Ok(changes + [Change(d, key.value)]);
      }
      return Ok(changes);
    }

    method ProcessDependency(d: ModulePath, rpaths: seq<Path>, ghost C: set<Bytes>) returns (r: Result<ModulePath>)
      requires d in AllDeps(env, C) && FileContents(fs) <= C
      modifies this
      ensures (State(), r) == DependencySpec(env, variant, rpaths, d, old(State()), C)
      decreases Pending(KeySpace(env, C, rpaths), processedLibraries), 0, 2
    {
      var resolved := Resolve(fs, env.cwd, d, rpaths, variant);
      if resolved.Err? {
        return Err(resolved.error);
      }
      r := ProcessLocated(d, resolved.value, rpaths, C);
    }

    method ProcessLocated(d: ModulePath, resolved: Path, rpaths: seq<Path>, ghost C: set<Bytes>) returns (r: Result<ModulePath>)
      requires d in AllDeps(env, C) && resolved in Candidates(d, rpaths) && FileContents(fs) <= C
      modifies this
      ensures (State(), r) == LocatedDependencySpec(env, variant, rpaths, d, resolved, old(State()), C)
      decreases Pending(KeySpace(env, C, rpaths), processedLibraries), 0, 1
    {
      var dk := KeyOf(resolved);
      if dk.None? {
        return Err(PanicUnwrap);
      }
      if dk.value.key in processedLibraries {
        r := CheckKnown(resolved, dk.value.key);
        return;
      }
      KeyInSpace(env, C, rpaths, d, resolved);
      r := AddDependency(resolved, dk.value, rpaths, C);
    }

    /** A reference already processed must name the same file. */
    method CheckKnown(resolved: Path, key: ModulePath) returns (r: Result<ModulePath>)
      requires key in processedLibraries
      ensures r == KnownDependency(env, resolved, key, State())
    {
      var existing := processedLibraries[key];
      var same := IsSame(fs, env.cwd, resolved, existing);
      if same.Err? {
        return Err(same.error);
      }
      if !same.value {
        return Err(OtherError("Trying to bundle two different version of single framework: "
          + Debug(resolved) + ", " + Debug(existing)));
      }
      return Ok(key);
    }

    /** A new dependency: recorded, then loaded. */
    method AddDependency(resolved: Path, dk: DependencyKey, rpaths: seq<Path>, ghost C: set<Bytes>) returns (r: Result<ModulePath>)
      requires FileContents(fs) <= C && dk.key in KeySpace(env, C, rpaths) && dk.key !in processedLibraries
      modifies this
      ensures (State(), r) == NewDependencySpec(env, variant, rpaths, resolved, dk, old(State()), C)
      decreases Pending(KeySpace(env, C, rpaths), processedLibraries), 0, 0
    {
      PendingShrinks(KeySpace(env, C, rpaths), processedLibraries, dk.key, resolved);
      Record(dk.key, resolved);
      r := LoadDependency(resolved, dk, rpaths, C);
    }

    /** Records `resolved` under `key`, and the `otool -L` run on it. */
    method Record(key: ModulePath, resolved: Path)
      modifies this
      ensures State() == old(State()).(processed := old(processedLibraries)[key := resolved], log := old(log) + [OtoolCommand(resolved)])
    {
      processedLibraries := processedLibraries[key := resolved];
      log := log + [OtoolCommand(resolved)];
    }

    method LoadDependency(resolved: Path, dk: DependencyKey, rpaths: seq<Path>, ghost C: set<Bytes>) returns (r: Result<ModulePath>)
      requires FileContents(fs) <= C
      modifies this
      ensures (State(), r) == LoadedDependencySpec(env, variant, rpaths, resolved, dk, old(State()), C)
      decreases Pending(KeySpace(env, C, rpaths), processedLibraries), 2, 2
    {
      var found := FindModulePaths(resolved, env.otool(ContentsOf(fs, env.cwd, resolved)));
      var lib := LoadLibrary(resolved, found);
      if lib.Err? {
        return Err(lib.error);
      }
      LibraryInUniverse(env, fs, C, resolved);
      r := CopyRoot(lib.value, dk, rpaths, C);
    }

    /** The root of the dependency copied into the frameworks directory. */
    method CopyRoot(lib: Library, dk: DependencyKey, rpaths: seq<Path>, ghost C: set<Bytes>) returns (r: Result<ModulePath>)
      requires forall d :: d in lib.lib.dependencies ==> d in AllDeps(env, C)
      requires FileContents(fs) <= C
      modifies this
      ensures (State(), r) == CopyRootSpec(env, variant, rpaths, lib, dk, old(State()), C)
      decreases Pending(KeySpace(env, C, rpaths), processedLibraries), 2, 1
    {
      var frameworks := FrameworksDir(outPath);
      var mk := CreateDirAll(fs, env.cwd, frameworks);
      fs := mk.fs;
      if mk.err.Some? {
        return Err(FileOperation(FileOps.MkDir, frameworks, None, mk.err.value));
      }
      var name := FileName(dk.root);
      if name.None? {
        return Err(PanicUnwrap);
      }
      var copyTarget := Child(frameworks, name.value);
      var realRoot := Canonicalize(fs, env.cwd, dk.root);
      if realRoot.IoErr? {
        return Err(FileOperation(FileOps.Canonicalize, dk.root, None, realRoot.kind));
      }
      var cp := Copy(fs, env.cwd, Path(true, realRoot.value), copyTarget);
      fs := cp.fs;
      if cp.err.Some? {
        return Err(FileOperation(FileOps.Copy, dk.root, Some(copyTarget), cp.err.value));
      }
      r := Install(lib, dk, Join(frameworks, dk.relative), rpaths, C);
    }

    method Install(lib: Library, dk: DependencyKey, target: Path, rpaths: seq<Path>, ghost C: set<Bytes>) returns (r: Result<ModulePath>)
      requires forall d :: d in lib.lib.dependencies ==> d in AllDeps(env, C)
      requires FileContents(fs) <= C
      modifies this
      ensures (State(), r) == InstallSpec(env, variant, rpaths, lib, dk, target, old(State()), C)
      decreases Pending(KeySpace(env, C, rpaths), processedLibraries), 2, 0
    {
      var res := ProcessModule(target, lib.lib, rpaths, C);
      if res.Err? {
        return Err(res.error);
      }
      if lib.installName != dk.key {
        var out := Run(IdCommand(dk.key, target), "install_name_tool");
        if out.Err? {
          return Err(out.error);
        }
      }
      return Ok(dk.key);
    }
  }
}
