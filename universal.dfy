/** The merge of src/macos/universal.rs: bundles built for different
    architectures are walked in parallel, driven by the entries of the first;
    links are recreated, directories created and walked, binaries whose
    sizes differ joined by `lipo`, and everything else copied from the first
    bundle. `lipo` is an oracle (`Env.run`), recorded in a log. */
module Merge {
  import opened Opt
  import opened Paths
  import opened Errors
  import opened Fs
  import opened Utils
  import opened MachO
  import FileOps

  /** The options of the `universal` command: the input bundles, the
      output, and whether an existing output may be deleted. */
  datatype Options = Options(pathsIn: seq<Path>, out: Path, deleteExistingBundle: bool)

  /** The file system and the `lipo` commands run so far. */
  datatype World = World(fs: FileSystem, log: seq<Cmd>)

  // ---------------------------------------------------------------------
  // The size test
  // ---------------------------------------------------------------------

  /** The metadata of `paths[i]` is the first to fail. */
  predicate FirstMetaFailure(fs: FileSystem, cwd: Loc, paths: seq<Path>, i: nat) {
    i < |paths| && Metadata(fs, cwd, paths[i]).IoErr?
    && forall j :: 0 <= j < i ==> Metadata(fs, cwd, paths[j]).IoOk?
  }

  /** The metadata sizes of the paths, in order; a path whose metadata
      fails gives a `MetaData` error (`SizesMeaning`, `SizesFirstFailure`). */
  function Sizes(fs: FileSystem, cwd: Loc, paths: seq<Path>): (r: Result<seq<nat>>)
    ensures r.Ok? ==> |r.value| == |paths|
  {
    if paths == [] then Ok([])
    else
      match Metadata(fs, cwd, paths[0])
      case IoErr(k) => Err(FileOperation(FileOps.MetaData, paths[0], None, k))
      case IoOk(node) =>
        var rest :- Sizes(fs, cwd, paths[1..]);
        Ok([Size(node)] + rest)
  }

  /** `Sizes` succeeds exactly when every path has metadata, and then
      lists their sizes. */
  lemma {:induction false} SizesMeaning(fs: FileSystem, cwd: Loc, paths: seq<Path>)
    ensures Sizes(fs, cwd, paths).Ok? <==> forall i :: 0 <= i < |paths| ==> Metadata(fs, cwd, paths[i]).IoOk?
    ensures Sizes(fs, cwd, paths).Ok? ==>
      forall i :: 0 <= i < |paths| ==> Sizes(fs, cwd, paths).value[i] == Size(Metadata(fs, cwd, paths[i]).value)
  {
    if paths != [] {
      SizesMeaning(fs, cwd, paths[1..]);
      assert forall i :: 1 <= i < |paths| ==> paths[i] == paths[1..][i - 1];
    }
  }

  /** The error of `Sizes` is that of the first path whose metadata fails. */
  lemma {:induction false} SizesFirstFailure(fs: FileSystem, cwd: Loc, paths: seq<Path>)
    ensures Sizes(fs, cwd, paths).Err? ==>
      exists i: nat :: FirstMetaFailure(fs, cwd, paths, i)
        && Sizes(fs, cwd, paths).error == FileOperation(FileOps.MetaData, paths[i], None, Metadata(fs, cwd, paths[i]).kind)
  {
    if paths != [] && Sizes(fs, cwd, paths).Err? {
      if Metadata(fs, cwd, paths[0]).IoErr? {
        assert FirstMetaFailure(fs, cwd, paths, 0);
      } else {
        SizesFirstFailure(fs, cwd, paths[1..]);
        var i: nat :| FirstMetaFailure(fs, cwd, paths[1..], i)
          && Sizes(fs, cwd, paths[1..]).error == FileOperation(FileOps.MetaData, paths[1..][i], None, Metadata(fs, cwd, paths[1..][i]).kind);
        FirstMetaFailureCons(fs, cwd, paths, i);
      }
    }
  }

  lemma FirstMetaFailureCons(fs: FileSystem, cwd: Loc, paths: seq<Path>, i: nat)
    requires paths != [] && Metadata(fs, cwd, paths[0]).IoOk? && FirstMetaFailure(fs, cwd, paths[1..], i)
    ensures FirstMetaFailure(fs, cwd, paths, i + 1) && paths[i + 1] == paths[1..][i]
  {
    forall j | 0 <= j < i + 1 ensures Metadata(fs, cwd, paths[j]).IoOk? {
      if j > 0 { assert paths[j] == paths[1..][j - 1]; }
    }
  }

  /** Whether every size is `s`. */
  function AllEqual(sizes: seq<nat>, s: nat): (r: bool)
    ensures r <==> forall i :: 0 <= i < |sizes| ==> sizes[i] == s
  {
    if sizes == [] then true
    else
      assert forall i :: 1 <= i < |sizes| ==> sizes[i] == sizes[1..][i - 1];
      sizes[0] == s && AllEqual(sizes[1..], s)
  }

  /** `are_files_same`: every path has the size of the first; an empty
      list panics on the `unwrap` of the first size. */
  function AreFilesSame(fs: FileSystem, cwd: Loc, paths: seq<Path>): (r: Result<bool>)
    ensures Sizes(fs, cwd, paths).Err? ==> r == Err(Sizes(fs, cwd, paths).error)
    ensures Sizes(fs, cwd, paths).Ok? && paths == [] ==> r == Err(PanicUnwrap)
    ensures r.Ok? <==> paths != [] && forall i :: 0 <= i < |paths| ==> Metadata(fs, cwd, paths[i]).IoOk?
    ensures r.Ok? ==>
      (r.value <==> forall i :: 0 <= i < |paths| ==>
        Size(Metadata(fs, cwd, paths[i]).value) == Size(Metadata(fs, cwd, paths[0]).value))
  {
    SizesMeaning(fs, cwd, paths);
    var sizes :- Sizes(fs, cwd, paths);
    if sizes == [] then Err(PanicUnwrap) else Ok(AllEqual(sizes, sizes[0]))
  }

  // ---------------------------------------------------------------------
  // Commands and the walk's invariant
  // ---------------------------------------------------------------------

  function PathArgs(paths: seq<Path>): (r: seq<Arg>)
    ensures |r| == |paths| && forall i :: 0 <= i < |paths| ==> r[i] == PathArg(paths[i])
  {
    if paths == [] then [] else [PathArg(paths[0])] + PathArgs(paths[1..])
  }

  /** `lipo -create <paths> -output <dest>`. */
  function LipoCommand(paths: seq<Path>, dest: Path): (r: Cmd)
    ensures r.program == "lipo" && |r.args| == |paths| + 3 && r.args[0] == Str("-create")
    ensures forall i :: 0 <= i < |paths| ==> r.args[i + 1] == PathArg(paths[i])
    ensures r.args[|paths| + 1..] == [Str("-output"), PathArg(dest)]
  {
    Cmd("lipo", [Str("-create")] + PathArgs(paths) + [Str("-output"), PathArg(dest)])
  }

  /** An entry's paths in every bundle, in input order. */
  function Counterparts(paths: seq<Path>, name: string): (r: seq<Path>)
    ensures |r| == |paths| && forall i :: 0 <= i < |paths| ==> r[i] == Child(paths[i], name)
  {
    if paths == [] then [] else [Child(paths[0], name)] + Counterparts(paths[1..], name)
  }

  predicate AllExist(fs: FileSystem, cwd: Loc, paths: seq<Path>) {
    forall i | 0 <= i < |paths| :: Exists(fs, cwd, paths[i])
  }

  /** `c` is a `lipo` command whose i-th input lies below the i-th of
      `roots` and whose output lies below `out`. */
  predicate IsLipoInto(c: Cmd, roots: seq<Path>, out: Path) {
    c.program == "lipo" && |c.args| == |roots| + 3 && c.args[0] == Str("-create")
    && (forall i :: 1 <= i <= |roots| ==> c.args[i].PathArg? && Below(c.args[i].path, roots[i - 1]))
    && c.args[|roots| + 1] == Str("-output") && c.args[|roots| + 2].PathArg? && Below(c.args[|roots| + 2].path, out)
  }

  /** The `lipo` of an entry joins its copies from every bundle, in input
      order, into the entry's place in `out`. */
  lemma LipoCommandInto(roots: seq<Path>, out: Path, name: string)
    ensures IsLipoInto(LipoCommand(Counterparts(roots, name), Child(out, name)), roots, out)
  {
    var all := Counterparts(roots, name);
    var c := LipoCommand(all, Child(out, name));
    forall i | 1 <= i <= |roots| ensures c.args[i].PathArg? && Below(c.args[i].path, roots[i - 1]) {
      assert c.args[i] == PathArgs(all)[i - 1] == PathArg(Child(roots[i - 1], name));
      assert roots[i - 1].comps < Child(roots[i - 1], name).comps;
    }
    assert out.comps < Child(out, name).comps;
  }

  /** `b` continues `a`: commands are only appended, and each new one is a
      `lipo` from the `roots` into `out`. */
  predicate MergeStep(a: World, b: World, roots: seq<Path>, out: Path) {
    a.log <= b.log && forall k :: |a.log| <= k < |b.log| ==> IsLipoInto(b.log[k], roots, out)
  }

  lemma MergeStepTrans(a: World, b: World, c: World, roots: seq<Path>, out: Path)
    requires MergeStep(a, b, roots, out) && MergeStep(b, c, roots, out)
    ensures MergeStep(a, c, roots, out)
  {
    forall k | |a.log| <= k < |c.log| ensures IsLipoInto(c.log[k], roots, out) {
      if k < |b.log| {
        assert c.log[k] == b.log[k];
      }
    }
  }

  /** A walk of the subdirectories `name` joins files below the roots into
      a file below `out`. */
  lemma MergeStepUp(a: World, b: World, roots: seq<Path>, out: Path, name: string)
    requires MergeStep(a, b, Counterparts(roots, name), Child(out, name))
    ensures MergeStep(a, b, roots, out)
  {
    forall k | |a.log| <= k < |b.log| ensures IsLipoInto(b.log[k], roots, out) {
      var c := b.log[k];
      assert IsLipoInto(c, Counterparts(roots, name), Child(out, name));
      var sub := Counterparts(roots, name);
      forall i | 1 <= i <= |roots| ensures c.args[i].PathArg? && Below(c.args[i].path, roots[i - 1]) {
        assert sub[i - 1] == Child(roots[i - 1], name);
        BelowChild(c.args[i].path, roots[i - 1], name);
      }
      BelowChild(c.args[|roots| + 2].path, out, name);
    }
  }

  lemma BelowChild(x: Path, p: Path, name: string)
    requires Below(x, Child(p, name))
    ensures Below(x, p)
  {
    assert x.comps[..|p.comps|] == Child(p, name).comps[..|p.comps|] == p.comps;
  }

  // ---------------------------------------------------------------------
  // The walk
  // ---------------------------------------------------------------------

  /** `process_dir`: the entries of the first of the parallel directories,
      in order, each written to its name in `out`. */
  function DirSpec(env: Env, paths: seq<Path>, out: Path, st: World): (r: (World, Result<()>))
    requires |paths| > 0
    ensures MergeStep(st, r.0, paths, out)
    ensures ReadDir(st.fs, env.cwd, paths[0]).IoErr? ==>
      r == (st, Err(FileOperation(FileOps.ReadDir, paths[0], None, ReadDir(st.fs, env.cwd, paths[0]).kind)))
    decreases Budget(paths[0]), 2
  {
    match ReadDir(st.fs, env.cwd, paths[0])
    case IoErr(k) => (st, Err(FileOperation(FileOps.ReadDir, paths[0], None, k)))
    case IoOk(names) => EntriesSpec(env, paths, out, names, st)
  }

  function EntriesSpec(env: Env, paths: seq<Path>, out: Path, names: seq<string>, st: World): (r: (World, Result<()>))
    requires |paths| > 0 && !TooLong(paths[0])
    ensures MergeStep(st, r.0, paths, out)
    decreases Budget(paths[0]), 1, |names|
  {
    if names == [] then (st, Ok(()))
    else
      var (st1, res) := EntrySpec(env, paths, out, names[0], st);
      if res.Err? then (st1, res)
      else
        var r := EntriesSpec(env, paths, out, names[1..], st1);
        MergeStepTrans(st, st1, r.0, paths, out);
        r
  }

  /** One entry: it must have its counterpart in each other bundle, and is
      then recreated by `NodeSpec` from what it is in the first. */
  function EntrySpec(env: Env, paths: seq<Path>, out: Path, name: string, st: World): (r: (World, Result<()>))
    requires |paths| > 0 && !TooLong(paths[0])
    ensures MergeStep(st, r.0, paths, out)
    ensures SymlinkMetadata(st.fs, env.cwd, Child(paths[0], name)).IoErr? ==>
      r == (st, Err(FileOperation(FileOps.MetaData, Child(paths[0], name), None,
                                  SymlinkMetadata(st.fs, env.cwd, Child(paths[0], name)).kind)))
    ensures SymlinkMetadata(st.fs, env.cwd, Child(paths[0], name)).IoOk? ==>
      (!AllExist(st.fs, env.cwd, Counterparts(paths[1..], name)) ==> r == (st, Err(BundlesNotIdentical)))
      && (AllExist(st.fs, env.cwd, Counterparts(paths[1..], name)) ==>
            r == NodeSpec(env, paths, out, name, SymlinkMetadata(st.fs, env.cwd, Child(paths[0], name)).value, st))
    decreases Budget(paths[0]), 0, 2
  {
    var path := Child(paths[0], name);
    match SymlinkMetadata(st.fs, env.cwd, path)
    case IoErr(k) => (st, Err(FileOperation(FileOps.MetaData, path, None, k)))
    case IoOk(meta) =>
      if !AllExist(st.fs, env.cwd, Counterparts(paths[1..], name)) then (st, Err(BundlesNotIdentical))
      else NodeSpec(env, paths, out, name, meta, st)
  }

  /** An entry whose counterparts exist, by what its node in the first
      bundle is (a link is not followed): a link is recreated, a directory
      created and walked, and a file handled by `FileSpec`. */
  function NodeSpec(env: Env, paths: seq<Path>, out: Path, name: string, meta: Node, st: World): (r: (World, Result<()>))
    requires |paths| > 0 && !TooLong(paths[0])
    ensures MergeStep(st, r.0, paths, out)
    ensures meta.Symlink? ==> r == LinkSpec(env, Child(paths[0], name), Child(out, name), st)
    ensures meta.Dir? ==> r == SubdirSpec(env, paths, out, name, st)
    ensures meta.File? ==> r == FileSpec(env, paths, out, name, st)
    decreases Budget(paths[0]), 0, 1
  {
    if meta.Symlink? then LinkSpec(env, Child(paths[0], name), Child(out, name), st)
    else if meta.Dir? then SubdirSpec(env, paths, out, name, st)
    else FileSpec(env, paths, out, name, st)
  }

  /** A link is recreated at `dest` with the target it has, unchanged. */
  function LinkSpec(env: Env, path: Path, dest: Path, st: World): (r: (World, Result<()>))
    ensures r.0.log == st.log
    ensures ReadLink(st.fs, env.cwd, path).IoErr? ==>
      r == (st, Err(FileOperation(FileOps.ReadLink, path, None, ReadLink(st.fs, env.cwd, path).kind)))
    ensures ReadLink(st.fs, env.cwd, path).IoOk? ==>
      r.0.fs == CreateSymlink(st.fs, env.cwd, ReadLink(st.fs, env.cwd, path).value, dest).fs
      && (r.1.Ok? <==> CreateSymlink(st.fs, env.cwd, ReadLink(st.fs, env.cwd, path).value, dest).err.None?)
  {
    match ReadLink(st.fs, env.cwd, path)
    case IoErr(k) => (st, Err(FileOperation(FileOps.ReadLink, path, None, k)))
    case IoOk(link) =>
      var made := CreateSymlink(st.fs, env.cwd, link, dest);
      var st1 := st.(fs := made.fs);
      if made.err.Some? then (st1, Err(FileOperation(FileOps.SymLink, dest, None, made.err.value)))
      else (st1, Ok(()))
  }

  /** A directory is created in `out` and walked with its counterparts in
      every bundle, in input order. */
  function SubdirSpec(env: Env, paths: seq<Path>, out: Path, name: string, st: World): (r: (World, Result<()>))
    requires |paths| > 0 && !TooLong(paths[0])
    ensures MergeStep(st, r.0, paths, out)
    ensures CreateDir(st.fs, env.cwd, Child(out, name)).err.Some? ==>
      r == (st.(fs := CreateDir(st.fs, env.cwd, Child(out, name)).fs),
            Err(FileOperation(FileOps.CreateDir, Child(out, name), None, CreateDir(st.fs, env.cwd, Child(out, name)).err.value)))
    ensures CreateDir(st.fs, env.cwd, Child(out, name)).err.None? ==>
      r == DirSpec(env, Counterparts(paths, name), Child(out, name), st.(fs := CreateDir(st.fs, env.cwd, Child(out, name)).fs))
    decreases Budget(paths[0]), 0, 0
  {
    var dest := Child(out, name);
    var made := CreateDir(st.fs, env.cwd, dest);
    var st1 := st.(fs := made.fs);
    if made.err.Some? then (st1, Err(FileOperation(FileOps.CreateDir, dest, None, made.err.value)))
    else
      ChildBudget(paths[0], name);
      var r := DirSpec(env, Counterparts(paths, name), dest, st1);
      MergeStepUp(st1, r.0, paths, out, name);
      r
  }

  /** A file is joined by `lipo` exactly when its first copy is a binary
      and the copies' sizes could all be read and differ. */
  predicate NeedsLipo(env: Env, fs: FileSystem, all: seq<Path>)
    requires |all| > 0
  {
    IsExecutableBinary(fs, env.cwd, all[0]) == Ok(true) && AreFilesSame(fs, env.cwd, all) == Ok(false)
  }

  /** A file is copied exactly when its first copy is no binary, or the
      copies' sizes could all be read and agree. */
  predicate NeedsCopy(env: Env, fs: FileSystem, all: seq<Path>)
    requires |all| > 0
  {
    IsExecutableBinary(fs, env.cwd, all[0]) == Ok(false)
    || (IsExecutableBinary(fs, env.cwd, all[0]) == Ok(true) && AreFilesSame(fs, env.cwd, all) == Ok(true))
  }

  /** A file entry `name` of the parallel directories: a binary whose
      copies differ in size is joined by `lipo`, anything else is copied
      from the first bundle. */
  function FileSpec(env: Env, paths: seq<Path>, out: Path, name: string, st: World): (r: (World, Result<()>))
    requires |paths| > 0
    ensures MergeStep(st, r.0, paths, out)
    ensures NeedsLipo(env, st.fs, Counterparts(paths, name)) ==>
      r == LipoSpec(env, Counterparts(paths, name), Child(out, name), st)
    ensures NeedsCopy(env, st.fs, Counterparts(paths, name)) ==>
      r == CopySpec(env, Child(paths[0], name), Child(out, name), st)
    ensures !NeedsLipo(env, st.fs, Counterparts(paths, name)) && !NeedsCopy(env, st.fs, Counterparts(paths, name)) ==>
      r.0 == st && r.1.Err?
  {
    match IsExecutableBinary(st.fs, env.cwd, Child(paths[0], name))
    case Err(e) => (st, Err(e))
    case Ok(binary) =>
      if !binary then CopySpec(env, Child(paths[0], name), Child(out, name), st)
      else BinarySpec(env, paths, out, name, AreFilesSame(st.fs, env.cwd, Counterparts(paths, name)), st)
  }

  /** A binary, `same` the outcome of the size test on its copies: joined
      by `lipo` unless the sizes agree. */
  function BinarySpec(env: Env, paths: seq<Path>, out: Path, name: string, same: Result<bool>, st: World): (r: (World, Result<()>))
    requires |paths| > 0
    ensures MergeStep(st, r.0, paths, out)
    ensures same == Ok(false) ==> r == LipoSpec(env, Counterparts(paths, name), Child(out, name), st)
    ensures same == Ok(true) ==> r == CopySpec(env, Child(paths[0], name), Child(out, name), st)
    ensures same.Err? ==> r == (st, Err(same.error))
  {
    match same
    case Err(e) => (st, Err(e))
    case Ok(same) =>
      if same then CopySpec(env, Child(paths[0], name), Child(out, name), st)
      else
        LipoCommandInto(paths, out, name);
        LipoSpec(env, Counterparts(paths, name), Child(out, name), st)
  }

  /** What decides between `lipo` and a copy, in terms of the files: the
      first copy's bytes start with a Mach-O magic number, and every copy
      has metadata, and their sizes differ. */
  lemma NeedsLipoExactly(env: Env, fs: FileSystem, all: seq<Path>)
    requires |all| > 0
    ensures NeedsLipo(env, fs, all) <==>
      ContentsOf(fs, env.cwd, all[0]).Some? && IsBinaryData(ContentsOf(fs, env.cwd, all[0]).value)
      && (forall i :: 0 <= i < |all| ==> Metadata(fs, env.cwd, all[i]).IoOk?)
      && exists i :: 0 <= i < |all| && Size(Metadata(fs, env.cwd, all[i]).value) != Size(Metadata(fs, env.cwd, all[0]).value)
  {
    if ContentsOf(fs, env.cwd, all[0]).Some? {
      assert IsFile(fs, env.cwd, all[0]);
    }
  }

  /** `fs::copy` from the first bundle. */
  function CopySpec(env: Env, path: Path, dest: Path, st: World): (r: (World, Result<()>))
    ensures r.0 == st.(fs := CopyFile(st.fs, env.cwd, path, dest).fs)
    ensures r.1.Ok? <==> CopyFile(st.fs, env.cwd, path, dest).err.None?
  {
    var cp := CopyFile(st.fs, env.cwd, path, dest);
    if cp.err.Some? then (st.(fs := cp.fs), Err(FileOperation(FileOps.Copy, dest, Some(path), cp.err.value)))
    else (st.(fs := cp.fs), Ok(()))
  }

  /** `lipo -create <all> -output <dest>`: a command that cannot be
      started is a `Command` file operation error on `dest`, a failing one
      a `Command` error with its status and no output. */
  function LipoSpec(env: Env, all: seq<Path>, dest: Path, st: World): (r: (World, Result<()>))
    ensures r.0 == st.(log := st.log + [LipoCommand(all, dest)])
    ensures r.1.Ok? <==> env.run(LipoCommand(all, dest)).Output? && env.run(LipoCommand(all, dest)).status == 0
    ensures env.run(LipoCommand(all, dest)).Output? && env.run(LipoCommand(all, dest)).status != 0
      ==> r.1 == Err(Command("lipo", env.run(LipoCommand(all, dest)).status, "", ""))
  {
    var cmd := LipoCommand(all, dest);
    var st1 := st.(log := st.log + [cmd]);
    match env.run(cmd)
    case SpawnError => (st1, Err(FileOperation(FileOps.Command, dest, None, SpawnFailure)))
    case Output(status, _, _) =>
      if status != 0 then (st1, Err(Command("lipo", status, "", ""))) else (st1, Ok(()))
  }

  /** The first input that does not exist. */
  function MissingInput(fs: FileSystem, cwd: Loc, paths: seq<Path>): (r: Option<nat>)
    ensures r.Some? ==> r.value < |paths|
  {
    if paths == [] then None
    else if !Exists(fs, cwd, paths[0]) then Some(0)
    else
      match MissingInput(fs, cwd, paths[1..])
      case None => None
      case Some(i) => Some(i + 1)
  }

  /** `MissingInput` finds nothing exactly when every input exists, and
      otherwise names the first input that does not. */
  lemma {:induction false} MissingInputMeaning(fs: FileSystem, cwd: Loc, paths: seq<Path>)
    ensures MissingInput(fs, cwd, paths).None? <==> AllExist(fs, cwd, paths)
    ensures MissingInput(fs, cwd, paths).Some? ==>
      var i := MissingInput(fs, cwd, paths).value;
      !Exists(fs, cwd, paths[i]) && forall j :: 0 <= j < i ==> Exists(fs, cwd, paths[j])
  {
    if paths != [] && Exists(fs, cwd, paths[0]) {
      MissingInputMeaning(fs, cwd, paths[1..]);
      assert forall i :: 1 <= i < |paths| ==> paths[i] == paths[1..][i - 1];
    }
  }

  /** The first missing input is the one `MissingInput` names. */
  lemma MissingInputFirst(fs: FileSystem, cwd: Loc, paths: seq<Path>, i: nat)
    requires i < |paths| && !Exists(fs, cwd, paths[i]) && forall j :: 0 <= j < i ==> Exists(fs, cwd, paths[j])
    ensures MissingInput(fs, cwd, paths) == Some(i)
  {
    MissingInputMeaning(fs, cwd, paths);
    assert !AllExist(fs, cwd, paths);
  }

  /** `perform`: every input must exist; an existing output must be
      deleted, when that is allowed; the output is created and the inputs
      walked in parallel into it. */
  function PerformSpec(env: Env, opts: Options, st: World): (r: (World, Result<()>))
    requires |opts.pathsIn| > 0
    ensures MissingInput(st.fs, env.cwd, opts.pathsIn).Some? ==>
      r == (st, Err(OtherError("Path \"" + Debug(opts.pathsIn[MissingInput(st.fs, env.cwd, opts.pathsIn).value]) + "\" does not exist")))
    ensures AllExist(st.fs, env.cwd, opts.pathsIn) && Exists(st.fs, env.cwd, opts.out) && !opts.deleteExistingBundle
      ==> r == (st, Err(OtherError("Target folder " + Debug(opts.out) + " already exists. Please delete it first.")))
    ensures AllExist(st.fs, env.cwd, opts.pathsIn) && Exists(st.fs, env.cwd, opts.out) && opts.deleteExistingBundle
      && RemoveDirAll(st.fs, env.cwd, opts.out).err.Some?
      ==> r == (st.(fs := RemoveDirAll(st.fs, env.cwd, opts.out).fs),
                Err(FileOperation(FileOps.RemoveDir, opts.out, None, RemoveDirAll(st.fs, env.cwd, opts.out).err.value)))
    ensures r.1.Ok? ==>
      AllExist(st.fs, env.cwd, opts.pathsIn) && (Exists(st.fs, env.cwd, opts.out) ==> opts.deleteExistingBundle)
    ensures (AllExist(st.fs, env.cwd, opts.pathsIn)
             && (Exists(st.fs, env.cwd, opts.out) ==> opts.deleteExistingBundle && RemoveDirAll(st.fs, env.cwd, opts.out).err.None?)) ==>
      (var cleared := if Exists(st.fs, env.cwd, opts.out) then RemoveDirAll(st.fs, env.cwd, opts.out).fs else st.fs;
       var mk := CreateDirAll(cleared, env.cwd, opts.out);
       r == if mk.err.Some? then (st.(fs := mk.fs), Err(FileOperation(FileOps.MkDir, opts.out, None, mk.err.value)))
            else DirSpec(env, opts.pathsIn, opts.out, st.(fs := mk.fs)))
    ensures MergeStep(st, r.0, opts.pathsIn, opts.out)
  {
    MissingInputMeaning(st.fs, env.cwd, opts.pathsIn);
    match MissingInput(st.fs, env.cwd, opts.pathsIn)
    case Some(i) => (st, Err(OtherError("Path \"" + Debug(opts.pathsIn[i]) + "\" does not exist")))
    case None =>
      if Exists(st.fs, env.cwd, opts.out) && !opts.deleteExistingBundle then
        (st, Err(OtherError("Target folder " + Debug(opts.out) + " already exists. Please delete it first.")))
      else
        var rm := if Exists(st.fs, env.cwd, opts.out) then RemoveDirAll(st.fs, env.cwd, opts.out) else Effect(st.fs, None);
        var st1 := st.(fs := rm.fs);
        if rm.err.Some? then (st1, Err(FileOperation(FileOps.RemoveDir, opts.out, None, rm.err.value)))
        else
          var mk := CreateDirAll(st1.fs, env.cwd, opts.out);
          var st2 := st1.(fs := mk.fs);
          if mk.err.Some? then (st2, Err(FileOperation(FileOps.MkDir, opts.out, None, mk.err.value)))
          else
            var r := DirSpec(env, opts.pathsIn, opts.out, st2);
            r
  }

  /** `any(|f| !f.exists())`, negated: every path exists. */
  method AllPresent(fs: FileSystem, cwd: Loc, paths: seq<Path>) returns (b: bool)
    ensures b == AllExist(fs, cwd, paths)
  {
    var k := 0;
    while k < |paths|
      invariant k <= |paths|
      invariant forall j :: 0 <= j < k ==> Exists(fs, cwd, paths[j])
    {
      if !Exists(fs, cwd, paths[k]) {
        return false;
      }
      k := k + 1;
    }
    return true;
  }

  /** The check of the inputs at the start of `perform`: the first that
      does not exist. */
  method FirstMissing(fs: FileSystem, cwd: Loc, paths: seq<Path>) returns (r: Option<nat>)
    ensures r == MissingInput(fs, cwd, paths)
  {
    var i := 0;
    while i < |paths|
      invariant i <= |paths|
      invariant forall j :: 0 <= j < i ==> Exists(fs, cwd, paths[j])
    {
      if !Exists(fs, cwd, paths[i]) {
        MissingInputFirst(fs, cwd, paths, i);
        return Some(i);
      }
      i := i + 1;
    }
    MissingInputMeaning(fs, cwd, paths);
    return None;
  }

  /** The `Universal` command, with the file system and the `lipo` log it
      works on. */
  class Universal {
    const env: Env
    const options: Options
    var fs: FileSystem
    var log: seq<Cmd>

    function State(): World
      reads this
    {
      World(fs, log)
    }

    constructor (env: Env, options: Options, fs: FileSystem)
      ensures this.env == env && this.options == options && State() == World(fs, [])
    {
      this.env := env;
      this.options := options;
      this.fs := fs;
      log := [];
    }

    /** `perform`; `clap` demands at least one input path. */
    method Perform() returns (r: Result<()>)
      requires |options.pathsIn| > 0
      modifies this
      ensures (State(), r) == PerformSpec(env, options, old(State()))
    {
      var missing := FirstMissing(fs, env.cwd, options.pathsIn);
      if missing.Some? {
        return Err(OtherError("Path \"" + Debug(options.pathsIn[missing.value]) + "\" does not exist"));
      }
      if Exists(fs, env.cwd, options.out) {
        if options.deleteExistingBundle {
          var rm := RemoveDirAll(fs, env.cwd, options.out);
          fs := rm.fs;
          if rm.err.Some? {
            return Err(FileOperation(FileOps.RemoveDir, options.out, None, rm.err.value));
          }
        } else {
          return Err(OtherError("Target folder " + Debug(options.out) + " already exists. Please delete it first."));
        }
      }
      var mk := CreateDirAll(fs, env.cwd, options.out);
      fs := mk.fs;
      if mk.err.Some? {
        return Err(FileOperation(FileOps.MkDir, options.out, None, mk.err.value));
      }
      r := ProcessDir(options.pathsIn, options.out);
    }

    method ProcessDir(paths: seq<Path>, out: Path) returns (r: Result<()>)
      requires |paths| > 0
      modifies this
      ensures (State(), r) == DirSpec(env, paths, out, old(State()))
      decreases Budget(paths[0]), 2
    {
      var listing := ReadDir(fs, env.cwd, paths[0]);
      if listing.IoErr? {
        return Err(FileOperation(FileOps.ReadDir, paths[0], None, listing.kind));
      }
      var names := listing.value;
      ghost var st0 := State();
      var i := 0;
      while i < |names|
        invariant i <= |names|
        invariant EntriesSpec(env, paths, out, names, st0) == EntriesSpec(env, paths, out, names[i..], State())
      {
        assert names[i..][1..] == names[i + 1..];
        r := ProcessEntry(paths, out, names[i]);
        if r.Err? {
          return;
        }
        i := i + 1;
      }
      return Ok(());
    }

    method ProcessEntry(paths: seq<Path>, out: Path, name: string) returns (r: Result<()>)
      requires |paths| > 0 && !TooLong(paths[0])
      modifies this
      ensures (State(), r) == EntrySpec(env, paths, out, name, old(State()))
      decreases Budget(paths[0]), 0, 2
    {
      var path := Child(paths[0], name);
      var meta := SymlinkMetadata(fs, env.cwd, path);
      if meta.IoErr? {
        return Err(FileOperation(FileOps.MetaData, path, None, meta.kind));
      }
      var present := AllPresent(fs, env.cwd, Counterparts(paths[1..], name));
      if !present {
        return Err(BundlesNotIdentical);
      }
      r := ProcessNode(paths, out, name, meta.value);
    }

    method ProcessNode(paths: seq<Path>, out: Path, name: string, meta: Node) returns (r: Result<()>)
      requires |paths| > 0 && !TooLong(paths[0])
      modifies this
      ensures (State(), r) == NodeSpec(env, paths, out, name, meta, old(State()))
      decreases Budget(paths[0]), 0, 1
    {
      if meta.Symlink? {
        r := ProcessLink(Child(paths[0], name), Child(out, name));
      } else if meta.Dir? {
        r := ProcessSubdir(paths, out, name);
      } else {
        r := ProcessFile(paths, out, name);
      }
    }

    method ProcessLink(path: Path, dest: Path) returns (r: Result<()>)
      modifies this
      ensures (State(), r) == LinkSpec(env, path, dest, old(State()))
    {
      var link := ReadLink(fs, env.cwd, path);
      if link.IoErr? {
        return Err(FileOperation(FileOps.ReadLink, path, None, link.kind));
      }
      var made := CreateSymlink(fs, env.cwd, link.value, dest);
      fs := made.fs;
      if made.err.Some? {
        return Err(FileOperation(FileOps.SymLink, dest, None, made.err.value));
      }
      return Ok(());
    }

    method ProcessSubdir(paths: seq<Path>, out: Path, name: string) returns (r: Result<()>)
      requires |paths| > 0 && !TooLong(paths[0])
      modifies this
      ensures (State(), r) == SubdirSpec(env, paths, out, name, old(State()))
      decreases Budget(paths[0]), 0, 0
    {
      var dest := Child(out, name);
      var made := CreateDir(fs, env.cwd, dest);
      fs := made.fs;
      if made.err.Some? {
        return Err(FileOperation(FileOps.CreateDir, dest, None, made.err.value));
      }
      ChildBudget(paths[0], name);
      r := ProcessDir(Counterparts(paths, name), dest);
    }

    method ProcessFile(paths: seq<Path>, out: Path, name: string) returns (r: Result<()>)
      requires |paths| > 0
      modifies this
      ensures (State(), r) == FileSpec(env, paths, out, name, old(State()))
    {
      var path := Child(paths[0], name);
      var dest := Child(out, name);
      var binary := IsExecutableBinary(fs, env.cwd, path);
      if binary.Err? {
        return Err(binary.error);
      }
      if binary.value {
        var same := AreFilesSame(fs, env.cwd, Counterparts(paths, name));
        if same.Err? {
          return Err(same.error);
        }
        if !same.value {
          r := Lipo(Counterparts(paths, name), dest);
          return;
        }
      }
      var cp := CopyFile(fs, env.cwd, path, dest);
      fs := cp.fs;
      if cp.err.Some? {
        return Err(FileOperation(FileOps.Copy, dest, Some(path), cp.err.value));
      }
      return Ok(());
    }

    method Lipo(all: seq<Path>, dest: Path) returns (r: Result<()>)
      modifies this
      ensures (State(), r) == LipoSpec(env, all, dest, old(State()))
    {
      var cmd := LipoCommand(all, dest);
      log := log + [cmd];
      match env.run(cmd)
      case SpawnError => return Err(FileOperation(FileOps.Command, dest, None, SpawnFailure));
      case Output(status, _, _) =>
        if status != 0 {
          return Err(Command("lipo", status, "", ""));
        }
        return Ok(());
    }
  }
}
