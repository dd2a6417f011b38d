/** The signing pass of src/macos/codesign.rs: an app bundle is walked,
    nested app and framework bundles are signed after their contents, loose
    binaries are signed unless they are a bundle's main executable or a
    framework's dylib, and the set `done` of canonical paths makes sure no
    path is signed twice. `codesign` itself is an oracle (`Env.run`); the
    model records each command it would run. */
module Signing {
  import opened Opt
  import opened Paths
  import opened Errors
  import opened Fs
  import opened Utils
  import opened MachO
  import opened Modules
  import FileOps

  /** The signing command's options: the bundle, the entitlements file and
      the signing identity. */
  datatype Options = Options(bundlePath: Path, entitlements: Path, identity: string)

  /** What a signing pass has done: the canonical paths it has signed, and
      the commands it has run. */
  datatype Signer = Signer(done: set<Loc>, log: seq<Cmd>)

  // ---------------------------------------------------------------------
  // Path predicates
  // ---------------------------------------------------------------------

  /** `is_in_framework`: the parent ends with `Contents/Frameworks`. */
  function IsInFramework(p: Path): (r: bool)
    ensures r <==> |p.comps| >= 3 && p.comps[|p.comps| - 3] == "Contents" && p.comps[|p.comps| - 2] == "Frameworks"
  {
    match Parent(p)
    case None => false
    case Some(parent) =>
      assert parent.comps == p.comps[..|p.comps| - 1];
      EndsWith(parent, Path(false, ["Contents", "Frameworks"]))
  }

  /** `.ext` ends the file name, after at least one other character, and
      `ext` has no "." of its own: then and only then is `ext` the
      extension. */
  lemma ExtensionIs(p: Path, ext: string)
    requires ext != [] && '.' !in ext
    ensures Extension(p) == Some(ext) <==>
      (FileName(p).Some? && |FileName(p).value| > |ext| + 1
       && FileName(p).value[|FileName(p).value| - |ext| - 1..] == "." + ext)
  {
    if FileName(p).Some? {
      var name := FileName(p).value;
      if |name| > |ext| + 1 && name[|name| - |ext| - 1..] == "." + ext {
        var k := |name| - |ext| - 1;
        assert name[k] == '.';
        assert name[k + 1..] == ext;
        var i := LastIndexOf(name, '.');
        assert i.Some? by { assert name[k] in name; }
      }
      if Extension(p) == Some(ext) {
        assert name[|name| - |ext| - 1..] == "." + ext;
      }
    }
  }

  /** `is_framework_bundle`: the extension is "framework". */
  function IsFrameworkBundle(p: Path): (r: bool)
    ensures r <==> FileName(p).Some? && IsFrameworkName(FileName(p).value) && |FileName(p).value| > 10
  {
    ExtensionIs(p, "framework");
    assert "." + "framework" == ".framework";
    Extension(p) == Some("framework")
  }

  /** `is_app_bundle`: the extension is "app" and `Contents/Info.plist`
      is a file (joining "Contents/Info.plist" appends both components). */
  function IsAppBundle(fs: FileSystem, cwd: Loc, p: Path): (r: bool)
    ensures r <==>
      (FileName(p).Some? && |FileName(p).value| > 4
       && FileName(p).value[|FileName(p).value| - 4..] == ".app"
       && IsFile(fs, cwd, Child(Child(p, "Contents"), "Info.plist")))
  {
    ExtensionIs(p, "app");
    assert "." + "app" == ".app";
    Extension(p) == Some("app") && IsFile(fs, cwd, Child(Child(p, "Contents"), "Info.plist"))
  }

  /** `is_framework_dylib`: the framework directory holding the path (as
      the `.framework` and `Versions/<v>` rule finds it), or the path
      itself, lies directly in a `Contents/Frameworks`. A missing file name
      on the way is a panic. This is the bundler's rule for the root of a
      dependency: `is_in_framework` of `find_dependency_root`, panicking on
      the same paths. */
  function IsFrameworkDylib(p: Path): (r: Result<bool>)
    ensures FindDependencyRoot(p).None? ==> r == Err(PanicUnwrap)
    ensures FindDependencyRoot(p).Some? ==> r == Ok(IsInFramework(FindDependencyRoot(p).value))
  {
    match Parent(p)
    case None => Ok(IsInFramework(p))
    case Some(parent) =>
      match FileName(parent)
      case None => Err(PanicUnwrap)
      case Some(name) =>
        if IsFrameworkName(name) then Ok(IsInFramework(parent))
        else
          match Parent(parent)
          case None => Ok(IsInFramework(p))
          case Some(grand) =>
            match FileName(grand)
            case None => Err(PanicUnwrap)
            case Some(gname) =>
              if gname != "Versions" then Ok(IsInFramework(p))
              else
                match Parent(grand)
                case None => Ok(IsInFramework(p))
                case Some(great) =>
                  match FileName(great)
                  case None => Err(PanicUnwrap)
                  case Some(fname) =>
                    if IsFrameworkName(fname) then Ok(IsInFramework(great)) else Ok(IsInFramework(p))
  }

  /** `get_bundle_executable`: the `CFBundleExecutable` string of an
      `Info.plist`; a file that cannot be read or parsed is a `Plist` error,
      one without the string is malformed. */
  function GetBundleExecutable(env: Env, fs: FileSystem, infoPlist: Path): (r: Result<string>)
    ensures ContentsOf(fs, env.cwd, infoPlist).None? ==> r == Err(Plist(Some(infoPlist)))
    ensures r.Ok? <==> ContentsOf(fs, env.cwd, infoPlist).Some? && env.plist(ContentsOf(fs, env.cwd, infoPlist)).BundleExecutable?
    ensures r.Ok? ==> r.value == env.plist(ContentsOf(fs, env.cwd, infoPlist)).name
  {
    match ContentsOf(fs, env.cwd, infoPlist)
    case None => Err(Plist(Some(infoPlist)))
    case Some(data) =>
      match env.plist(Some(data))
      case PlistUnreadable => Err(Plist(Some(infoPlist)))
      case NoBundleExecutable => Err(OtherError("Malformed info.plist"))
      case BundleExecutable(name) => Ok(name)
  }

  /** `is_bundle_executable`: the file sits in `<b>/Contents/MacOS`, its
      name is the `CFBundleExecutable` of `<b>/Contents/Info.plist`, and
      `<b>` is an app bundle. */
  function IsBundleExecutable(env: Env, fs: FileSystem, p: Path): (r: Result<bool>)
    ensures r == Ok(true) ==>
      FileName(p).Some? && Parent(p).Some? && FileName(Parent(p).value) == Some("MacOS")
  {
    match Parent(p)
    case None => Ok(false)
    case Some(parent) =>
      match FileName(parent)
      case None => Err(PanicUnwrap)
      case Some(pname) =>
        if pname != "MacOS" then Ok(false)
        else
          match Parent(parent)
          case None => Ok(false)
          case Some(contents) =>
            match FileName(contents)
            case None => Err(PanicUnwrap)
            case Some(cname) =>
              if cname != "Contents" then Ok(false)
              else
                var executable :- GetBundleExecutable(env, fs, Child(contents, "Info.plist"));
                match FileName(p)
                case None => Err(PanicUnwrap)
                case Some(name) =>
                  if executable != name then Ok(false)
                  else
                    match Parent(contents)
                    case None => Ok(false)
                    case Some(bundle) => Ok(IsAppBundle(fs, env.cwd, bundle))
  }

  /** Exactly the main executables of app bundles count: the file is
      `<b>/Contents/MacOS/<name>`, `<name>` is the `CFBundleExecutable` of
      `<b>/Contents/Info.plist`, and `<b>` is an app bundle. */
  lemma BundleExecutableExactly(env: Env, fs: FileSystem, p: Path)
    ensures var c, n := p.comps, |p.comps|;
      IsBundleExecutable(env, fs, p) == Ok(true) <==>
        (n >= 3 && c[n - 2] == "MacOS" && c[n - 3] == "Contents" && c[n - 1] != ".."
         && GetBundleExecutable(env, fs, Path(p.absolute, c[..n - 2] + ["Info.plist"])) == Ok(c[n - 1])
         && IsAppBundle(fs, env.cwd, Path(p.absolute, c[..n - 3])))
  {
    var c, n := p.comps, |p.comps|;
    if n >= 2 {
      var parent := Path(p.absolute, c[..n - 1]);
      assert Parent(p) == Some(parent);
      if c[n - 2] != ".." {
        assert FileName(parent) == Some(c[n - 2]);
      }
      if n >= 3 && c[n - 2] == "MacOS" {
        var contents := Path(p.absolute, c[..n - 2]);
        assert parent.comps[..|parent.comps| - 1] == contents.comps;
        assert Parent(parent) == Some(contents);
        if c[n - 3] != ".." {
          assert FileName(contents) == Some(c[n - 3]);
        }
        if c[n - 3] == "Contents" {
          assert Child(contents, "Info.plist") == Path(p.absolute, c[..n - 2] + ["Info.plist"]);
          assert contents.comps[..|contents.comps| - 1] == c[..n - 3];
          assert Parent(contents) == Some(Path(p.absolute, c[..n - 3]));
        }
      }
    }
  }

  // ---------------------------------------------------------------------
  // Signing commands and the signed-once invariant
  // ---------------------------------------------------------------------

  /** `codesign -o runtime --timestamp [--entitlements <e>] -f -s <id> <path>`. */
  function SignCommand(opts: Options, resolved: Loc, app: bool): (r: Cmd)
    ensures r.program == "codesign" && |r.args| == if app then 9 else 7
    ensures r.args[3] == Str("--entitlements") <==> app
    ensures app ==> r.args[4] == PathArg(opts.entitlements)
    ensures r.args[|r.args| - 1] == PathArg(Path(true, resolved))
  {
    Cmd("codesign",
      [Str("-o"), Str("runtime"), Str("--timestamp")]
      + (if app then [Str("--entitlements"), PathArg(opts.entitlements)] else [])
      + [Str("-f"), Str("-s"), Str(opts.identity), PathArg(Path(true, resolved))])
  }

  /** The location a logged command signs: its last argument. */
  function SignedLoc(c: Cmd): Loc {
    if c.args != [] && c.args[|c.args| - 1].PathArg? then c.args[|c.args| - 1].path.comps else []
  }

  /** The locations signed by the commands of a log. */
  function SignedSet(log: seq<Cmd>): set<Loc> {
    if log == [] then {} else SignedSet(log[..|log| - 1]) + {SignedLoc(log[|log| - 1])}
  }

  /** No location is signed by two commands of the log. */
  predicate Distinct(log: seq<Cmd>) {
    log == [] || (Distinct(log[..|log| - 1]) && SignedLoc(log[|log| - 1]) !in SignedSet(log[..|log| - 1]))
  }

  /** The signer's invariant: every path is signed once, and `done` holds
      exactly the signed paths. */
  predicate Inv(st: Signer) {
    Distinct(st.log) && SignedSet(st.log) == st.done
  }

  lemma SignAppend(log: seq<Cmd>, c: Cmd)
    ensures SignedSet(log + [c]) == SignedSet(log) + {SignedLoc(c)}
    ensures Distinct(log + [c]) <==> Distinct(log) && SignedLoc(c) !in SignedSet(log)
  {
    assert (log + [c])[..|log|] == log;
  }

  lemma {:induction false} SignedSetHas(log: seq<Cmd>)
    ensures forall i :: 0 <= i < |log| ==> SignedLoc(log[i]) in SignedSet(log)
    ensures forall l :: l in SignedSet(log) ==> exists i :: 0 <= i < |log| && SignedLoc(log[i]) == l
  {
    if log != [] {
      var front := log[..|log| - 1];
      SignedSetHas(front);
      assert forall i :: 0 <= i < |front| ==> log[i] == front[i];
    }
  }

  /** `Distinct` is what it says: no two commands sign the same place. */
  lemma {:induction false} DistinctPairwise(log: seq<Cmd>)
    ensures Distinct(log) <==> forall i, j :: 0 <= i < j < |log| ==> SignedLoc(log[i]) != SignedLoc(log[j])
  {
    if log != [] {
      var front := log[..|log| - 1];
      DistinctPairwise(front);
      SignedSetHas(front);
      assert forall i :: 0 <= i < |front| ==> log[i] == front[i];
      if Distinct(log) {
        forall i, j | 0 <= i < j < |log| ensures SignedLoc(log[i]) != SignedLoc(log[j]) {
          if j == |log| - 1 {
            assert SignedLoc(front[i]) in SignedSet(front);
          }
        }
      } else if Distinct(front) {
        var i :| 0 <= i < |front| && SignedLoc(front[i]) == SignedLoc(log[|log| - 1]);
        assert SignedLoc(log[i]) == SignedLoc(log[|log| - 1]);
      } else {
        var i, j :| 0 <= i < j < |front| && SignedLoc(front[i]) == SignedLoc(front[j]);
        assert SignedLoc(log[i]) == SignedLoc(log[j]);
      }
    }
  }

  /** `b` continues `a`: commands are only appended and signed paths only
      added; from a state meeting the invariant every path is still signed
      once, and on success the invariant holds again. */
  predicate SignStep(a: Signer, b: Signer, ok: bool) {
    a.log <= b.log && a.done <= b.done
    && (Inv(a) ==> Distinct(b.log) && (ok ==> Inv(b)))
  }

  lemma SignStepTrans(a: Signer, b: Signer, c: Signer, ok: bool)
    requires SignStep(a, b, true) && SignStep(b, c, ok)
    ensures SignStep(a, c, ok)
  {
  }

  // ---------------------------------------------------------------------
  // The pass
  // ---------------------------------------------------------------------

  /** `codesign`: the path is resolved; a resolved path already in `done`
      is skipped, any other is signed and, once signing succeeded, added. */
  function CodesignSpec(env: Env, fs: FileSystem, opts: Options, path: Path, app: bool, st: Signer): (r: (Signer, Result<()>))
    ensures SignStep(st, r.0, r.1.Ok?)
    ensures Canonicalize(fs, env.cwd, path).IoErr? ==>
      r == (st, Err(FileOperation(FileOps.Canonicalize, path, None, Canonicalize(fs, env.cwd, path).kind)))
    ensures Canonicalize(fs, env.cwd, path).IoOk? && Canonicalize(fs, env.cwd, path).value in st.done ==> r == (st, Ok(()))
    ensures Canonicalize(fs, env.cwd, path).IoOk? && Canonicalize(fs, env.cwd, path).value !in st.done ==>
      r.0.log == st.log + [SignCommand(opts, Canonicalize(fs, env.cwd, path).value, app)]
      && (r.1.Ok? <==> RunCommand(r.0.log[|st.log|], "codesign", env.run(r.0.log[|st.log|])).Ok?)
      && r.0.done == if r.1.Ok? then st.done + {Canonicalize(fs, env.cwd, path).value} else st.done
  {
    match Canonicalize(fs, env.cwd, path)
    case IoErr(k) => (st, Err(FileOperation(FileOps.Canonicalize, path, None, k)))
    case IoOk(resolved) =>
      if resolved in st.done then (st, Ok(()))
      else
        var cmd := SignCommand(opts, resolved, app);
        var out := RunCommand(cmd, "codesign", env.run(cmd));
        var st1 := st.(log := st.log + [cmd]);
        SignAppend(st.log, cmd);
        if out.Err? then (st1, Err(out.error)) else (st1.(done := st1.done + {resolved}), Ok(()))
  }

  /** `process_app_bundle`: a path that is no app bundle is an error; the
      bundle's contents are processed first, the bundle itself signed (with
      the entitlements) last. */
  function AppBundleSpec(env: Env, fs: FileSystem, opts: Options, path: Path, st: Signer): (r: (Signer, Result<()>))
    ensures SignStep(st, r.0, r.1.Ok?)
    ensures !IsAppBundle(fs, env.cwd, path) ==>
      r == (st, Err(OtherError("Path \"" + Debug(path) + "\" is not an app bundle")))
    ensures r.1.Ok? ==>
      var inner := FolderSpec(env, fs, opts, path, st).0;
      IsAppBundle(fs, env.cwd, path) && Canonicalize(fs, env.cwd, path).IoOk?
      && Canonicalize(fs, env.cwd, path).value in r.0.done
      && (r.0.log == inner.log || r.0.log == inner.log + [SignCommand(opts, Canonicalize(fs, env.cwd, path).value, true)])
    decreases Budget(path), 2
  {
    if !IsAppBundle(fs, env.cwd, path) then (st, Err(OtherError("Path \"" + Debug(path) + "\" is not an app bundle")))
    else
      var (st1, res) := FolderSpec(env, fs, opts, path, st);
      if res.Err? then (st1, res)
      else
        var r := CodesignSpec(env, fs, opts, path, true, st1);
        SignStepTrans(st, st1, r.0, r.1.Ok?);
        r
  }

  /** `process_framework_bundle`: as for an app bundle, without the
      entitlements. */
  function FrameworkBundleSpec(env: Env, fs: FileSystem, opts: Options, path: Path, st: Signer): (r: (Signer, Result<()>))
    ensures SignStep(st, r.0, r.1.Ok?)
    ensures !IsFrameworkBundle(path) ==>
      r == (st, Err(OtherError("Path \"" + Debug(path) + "\" is not a framework bundle")))
    ensures r.1.Ok? ==>
      var inner := FolderSpec(env, fs, opts, path, st).0;
      IsFrameworkBundle(path) && Canonicalize(fs, env.cwd, path).IoOk?
      && Canonicalize(fs, env.cwd, path).value in r.0.done
      && (r.0.log == inner.log || r.0.log == inner.log + [SignCommand(opts, Canonicalize(fs, env.cwd, path).value, false)])
    decreases Budget(path), 2
  {
    if !IsFrameworkBundle(path) then (st, Err(OtherError("Path \"" + Debug(path) + "\" is not a framework bundle")))
    else
      var (st1, res) := FolderSpec(env, fs, opts, path, st);
      if res.Err? then (st1, res)
      else
        var r := CodesignSpec(env, fs, opts, path, false, st1);
        SignStepTrans(st, st1, r.0, r.1.Ok?);
        r
  }

  /** `process_folder`: every entry of the directory, in order. */
  function FolderSpec(env: Env, fs: FileSystem, opts: Options, path: Path, st: Signer): (r: (Signer, Result<()>))
    ensures SignStep(st, r.0, r.1.Ok?)
    ensures ReadDir(fs, env.cwd, path).IoErr? ==>
      r == (st, Err(FileOperation(FileOps.ReadDir, path, None, ReadDir(fs, env.cwd, path).kind)))
    decreases Budget(path), 1
  {
    match ReadDir(fs, env.cwd, path)
    case IoErr(k) => (st, Err(FileOperation(FileOps.ReadDir, path, None, k)))
    case IoOk(names) => EntriesSpec(env, fs, opts, path, names, st)
  }

  function EntriesSpec(env: Env, fs: FileSystem, opts: Options, path: Path, names: seq<string>, st: Signer): (r: (Signer, Result<()>))
    requires !TooLong(path)
    ensures SignStep(st, r.0, r.1.Ok?)
    decreases Budget(path), 0, |names|
  {
    if names == [] then (st, Ok(()))
    else
      var (st1, res) := EntrySpec(env, fs, opts, path, names[0], st);
      if res.Err? then (st1, res)
      else
        var r := EntriesSpec(env, fs, opts, path, names[1..], st1);
        SignStepTrans(st, st1, r.0, r.1.Ok?);
        r
  }

  /** One entry of `process_folder`: a directory is processed as an app
      bundle, a framework bundle or a plain folder; a binary is signed
      unless it is a bundle executable or a framework dylib; anything else
      is left alone. */
  function EntrySpec(env: Env, fs: FileSystem, opts: Options, dir: Path, name: string, st: Signer): (r: (Signer, Result<()>))
    requires !TooLong(dir)
    ensures SignStep(st, r.0, r.1.Ok?)
    ensures !IsDir(fs, env.cwd, Child(dir, name)) && IsExecutableBinary(fs, env.cwd, Child(dir, name)) == Ok(false)
      ==> r == (st, Ok(()))
    ensures !IsDir(fs, env.cwd, Child(dir, name)) && IsExecutableBinary(fs, env.cwd, Child(dir, name)) == Ok(true)
      && (IsBundleExecutable(env, fs, Child(dir, name)) == Ok(true)
          || (IsBundleExecutable(env, fs, Child(dir, name)) == Ok(false) && IsFrameworkDylib(Child(dir, name)) == Ok(true)))
      ==> r == (st, Ok(()))
    ensures !IsDir(fs, env.cwd, Child(dir, name)) && IsExecutableBinary(fs, env.cwd, Child(dir, name)) == Ok(true)
      && IsBundleExecutable(env, fs, Child(dir, name)) == Ok(false) && IsFrameworkDylib(Child(dir, name)) == Ok(false)
      ==> r == CodesignSpec(env, fs, opts, Child(dir, name), false, st)
    ensures IsDir(fs, env.cwd, Child(dir, name)) ==>
      r == if IsAppBundle(fs, env.cwd, Child(dir, name)) then AppBundleSpec(env, fs, opts, Child(dir, name), st)
           else if IsFrameworkBundle(Child(dir, name)) then FrameworkBundleSpec(env, fs, opts, Child(dir, name), st)
           else FolderSpec(env, fs, opts, Child(dir, name), st)
    decreases Budget(dir), 0, 0
  {
    var path := Child(dir, name);
    if IsDir(fs, env.cwd, path) then
      ChildBudget(dir, name);
      if IsAppBundle(fs, env.cwd, path) then AppBundleSpec(env, fs, opts, path, st)
      else if IsFrameworkBundle(path) then FrameworkBundleSpec(env, fs, opts, path, st)
      else FolderSpec(env, fs, opts, path, st)
    else
      match IsExecutableBinary(fs, env.cwd, path)
      case Err(e) => (st, Err(e))
      case Ok(binary) =>
        if !binary then (st, Ok(()))
        else
          match IsBundleExecutable(env, fs, path)
          case Err(e) => (st, Err(e))
          case Ok(bundleExecutable) =>
            if bundleExecutable then (st, Ok(()))
            else
              match IsFrameworkDylib(path)
              case Err(e) => (st, Err(e))
              case Ok(dylib) =>
                if dylib then (st, Ok(())) else CodesignSpec(env, fs, opts, path, false, st)
  }

  /** A whole pass, from the empty signer, never signs a path twice, and on
      success `done` is exactly the set of signed paths. */
  lemma PassSignsOnce(env: Env, fs: FileSystem, opts: Options)
    ensures var r := AppBundleSpec(env, fs, opts, opts.bundlePath, Signer({}, []));
      (forall i, j :: 0 <= i < j < |r.0.log| ==> SignedLoc(r.0.log[i]) != SignedLoc(r.0.log[j]))
      && (r.1.Ok? ==> r.0.done == SignedSet(r.0.log))
  {
    var r := AppBundleSpec(env, fs, opts, opts.bundlePath, Signer({}, []));
    assert Inv(Signer({}, []));
    DistinctPairwise(r.0.log);
  }

  /** The `CodeSign` struct: the options and the set `done`, with the
      commands run so far. The file system is that of the bundle, which
      signing (an oracle here) does not change. */
  class CodeSign {
    const env: Env
    const fs: FileSystem
    const options: Options
    var done: set<Loc>
    var log: seq<Cmd>

    function State(): Signer
      reads this
    {
      Signer(done, log)
    }

    /** `CodeSign::new`: nothing signed yet. */
    constructor (env: Env, fs: FileSystem, options: Options)
      ensures this.env == env && this.fs == fs && this.options == options
      ensures State() == Signer({}, []) && Inv(State())
    {
      this.env := env;
      this.fs := fs;
      this.options := options;
      done := {};
      log := [];
    }

    /** `perform`: the pass over the bundle of the options. */
    method Perform() returns (r: Result<()>)
      modifies this
      ensures (State(), r) == AppBundleSpec(env, fs, options, options.bundlePath, old(State()))
    {
      r := ProcessAppBundle(options.bundlePath);
    }

    method ProcessAppBundle(path: Path) returns (r: Result<()>)
      modifies this
      ensures (State(), r) == AppBundleSpec(env, fs, options, path, old(State()))
      decreases Budget(path), 2
    {
      if !IsAppBundle(fs, env.cwd, path) {
        return Err(OtherError("Path \"" + Debug(path) + "\" is not an app bundle"));
      }
      r := ProcessFolder(path);
      if r.Err? {
        return;
      }
      r := Codesign(path, true);
    }

    method ProcessFrameworkBundle(path: Path) returns (r: Result<()>)
      modifies this
      ensures (State(), r) == FrameworkBundleSpec(env, fs, options, path, old(State()))
      decreases Budget(path), 2
    {
      if !IsFrameworkBundle(path) {
        return Err(OtherError("Path \"" + Debug(path) + "\" is not a framework bundle"));
      }
      r := ProcessFolder(path);
      if r.Err? {
        return;
      }
      r := Codesign(path, false);
    }

    method ProcessFolder(path: Path) returns (r: Result<()>)
      modifies this
      ensures (State(), r) == FolderSpec(env, fs, options, path, old(State()))
      decreases Budget(path), 1
    {
      var listing := ReadDir(fs, env.cwd, path);
      if listing.IoErr? {
        return Err(FileOperation(FileOps.ReadDir, path, None, listing.kind));
      }
      var names := listing.value;
      ghost var st0 := State();
      var i := 0;
      while i < |names|
        invariant i <= |names|
        invariant EntriesSpec(env, fs, options, path, names, st0) == EntriesSpec(env, fs, options, path, names[i..], State())
      {
        assert names[i..][1..] == names[i + 1..];
        r := ProcessEntry(path, names[i]);
        if r.Err? {
          return;
        }
        i := i + 1;
      }
      return Ok(());
    }

    method ProcessEntry(dir: Path, name: string) returns (r: Result<()>)
      requires !TooLong(dir)
      modifies this
      ensures (State(), r) == EntrySpec(env, fs, options, dir, name, old(State()))
      decreases Budget(dir), 0, 0
    {
      var path := Child(dir, name);
      if IsDir(fs, env.cwd, path) {
        ChildBudget(dir, name);
        if IsAppBundle(fs, env.cwd, path) {
          r := ProcessAppBundle(path);
        } else if IsFrameworkBundle(path) {
          r := ProcessFrameworkBundle(path);
        } else {
          r := ProcessFolder(path);
        }
        return;
      }
      var binary := IsExecutableBinary(fs, env.cwd, path);
      if binary.Err? {
        return Err(binary.error);
      }
      if !binary.value {
        return Ok(());
      }
      var bundleExecutable := IsBundleExecutable(env, fs, path);
      if bundleExecutable.Err? {
        return Err(bundleExecutable.error);
      }
      if bundleExecutable.value {
        return Ok(());
      }
      var dylib := IsFrameworkDylib(path);
      if dylib.Err? {
        return Err(dylib.error);
      }
      if dylib.value {
        return Ok(());
      }
      r := Codesign(path, false);
    }

    method Codesign(path: Path, app: bool) returns (r: Result<()>)
      modifies this
      ensures (State(), r) == CodesignSpec(env, fs, options, path, app, old(State()))
    {
      var resolved := Canonicalize(fs, env.cwd, path);
      if resolved.IoErr? {
        return Err(FileOperation(FileOps.Canonicalize, path, None, resolved.kind));
      }
      if resolved.value in done {
        return Ok(());
      }
      var cmd := SignCommand(options, resolved.value, app);
      log := log + [cmd];
      var out := RunCommand(cmd, "codesign", env.run(cmd));
      if out.Err? {
        return Err(out.error);
      }
      done := done + {resolved.value};
      return Ok(());
    }
  }
}
