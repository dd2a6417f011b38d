/** The helpers of src/utils.rs: running an external command, comparing two
    files, and copying a tree while keeping its symbolic links. */
module Utils {
  import opened Opt
  import opened Strings
  import opened Paths
  import opened Errors
  import opened Fs
  import FileOps

  /** An argument of a `Command`: a string, or a path passed as an `OsStr`. */
  datatype Arg = Str(s: string) | PathArg(path: Path)

  function ArgText(a: Arg): string {
    match a
    case Str(s) => s
    case PathArg(p) => PathString(p)
  }

  /** `std::process::Command`: the program and its arguments. */
  datatype Cmd = Cmd(program: string, args: seq<Arg>)

  function RenderArgs(args: seq<Arg>): string {
    if args == [] then "" else " " + Quoted(ArgText(args[0])) + RenderArgs(args[1..])
  }

  /** `format!("{:?}", command)`: the program and every argument quoted,
      separated by spaces. */
  function Render(c: Cmd): string {
    Quoted(c.program) + RenderArgs(c.args)
  }

  /** What running a command gives: its exit status and captured output,
      or a failure to start it. */
  datatype ProcessOutput = Output(status: int, stdout: string, stderr: string) | SpawnError

  /** `run_command`: a command that could not be started is a `Command`
      file operation error on the command's name; a non-zero exit status is
      an error carrying the status and both outputs; otherwise the standard
      output is split into lines by `split_terminator('\n')`. */
  function RunCommand(cmd: Cmd, name: string, out: ProcessOutput): (r: Result<seq<string>>)
    ensures out.SpawnError? ==> r == Err(FileOperation(FileOps.Command, ParsePath(name), None, SpawnFailure))
    ensures out.Output? && out.status != 0 ==> r == Err(ToolError.Command(Render(cmd), out.status, out.stderr, out.stdout))
    ensures out.Output? && out.status == 0 ==>
      (r.Ok? && (forall k :: 0 <= k < |r.value| ==> '\n' !in r.value[k])
       && ConcatTerminated(r.value, '\n') == if out.stdout == [] || out.stdout[|out.stdout| - 1] == '\n' then out.stdout else out.stdout + "\n")
  {
    match out
    case SpawnError => Err(FileOperation(FileOps.Command, ParsePath(name), None, SpawnFailure))
    case Output(status, stdout, stderr) =>
      if status != 0 then Err(ToolError.Command(Render(cmd), status, stderr, stdout))
      else Ok(SplitTerminator(stdout, '\n'))
  }

  /** An open `File`: the bytes it reads and how many have been read. A
      directory can be opened but not read. */
  class OpenFile {
    const data: Bytes
    const readable: bool
    var pos: nat

    ghost predicate Valid()
      reads this
    {
      pos <= |data|
    }

    constructor (data: Bytes, readable: bool)
      ensures Valid() && this.data == data && this.readable == readable && pos == 0
    {
      this.data := data;
      this.readable := readable;
      pos := 0;
    }

    /** `Read::read` into `buf`: as many of the remaining bytes as fit. */
    method Read(buf: array<bv8>) returns (r: Option<nat>)
      requires Valid()
      modifies this, buf
      ensures Valid()
      ensures !readable ==> r.None? && pos == old(pos) && buf[..] == old(buf[..])
      ensures readable ==>
        (r.Some? && r.value == Min(buf.Length, |data| - old(pos)) && pos == old(pos) + r.value
         && buf[..r.value] == data[old(pos)..pos])
    {
      if !readable {
        return None;
      }
      var n := Min(buf.Length, |data| - pos);
      var i := 0;
      while i < n
        invariant 0 <= i <= n && pos == old(pos) && n <= |data| - pos
        invariant buf[..i] == data[pos..pos + i]
      {
        buf[i] := data[pos + i];
        i := i + 1;
      }
      pos := pos + n;
      r := Some(n);
    }
  }

  /** Equal slices followed by equal blocks are equal slices. */
  lemma SlicesExtend(x: Bytes, s: nat, p: nat, y: Bytes, t: nat, q: nat, n: nat)
    requires s <= p && p + n <= |x| && t <= q && q + n <= |y|
    requires x[s..p] == y[t..q] && x[p..p + n] == y[q..q + n]
    ensures x[s..p + n] == y[t..q + n]
  {
    assert x[s..p + n] == x[s..p] + x[p..p + n];
    assert y[t..q + n] == y[t..q] + y[q..q + n];
  }

  /** Two suffixes differ when blocks at the same offset in them do. */
  lemma SuffixesDiffer(x: Bytes, s: nat, y: Bytes, t: nat, off: nat, n: nat)
    requires s + off + n <= |x| && t + off + n <= |y|
    requires x[s + off..s + off + n] != y[t + off..t + off + n]
    ensures x[s..] != y[t..]
  {
    assert x[s + off..s + off + n] == x[s..][off..off + n];
    assert y[t + off..t + off + n] == y[t..][off..off + n];
  }

  function Min(a: nat, b: nat): nat {
    if a < b then a else b
  }

  /** `diff_files`: reads both files 1024 bytes at a time and answers
      whether they hold the same bytes; a read error answers `false`. */
  method DiffFiles(f1: OpenFile, f2: OpenFile) returns (same: bool)
    requires f1 != f2 && f1.Valid() && f2.Valid()
    modifies f1, f2
    ensures same == (f1.readable && f2.readable && old(f1.data[f1.pos..]) == old(f2.data[f2.pos..]))
  {
    var buf1 := new bv8[1024];
    var buf2 := new bv8[1024];
    ghost var start1, start2 := f1.pos, f2.pos;
    while true
      invariant f1.Valid() && f2.Valid()
      invariant start1 <= f1.pos && start2 <= f2.pos && f1.pos - start1 == f2.pos - start2
      invariant f1.data[start1..f1.pos] == f2.data[start2..f2.pos]
      invariant buf1.Length == 1024 && buf2.Length == 1024 && buf1 != buf2
      decreases |f1.data| - f1.pos
    {
      var r1 := f1.Read(buf1);
      if r1.None? {
        return false;
      }
      var r2 := f2.Read(buf2);
      if r2.None? {
        return false;
      }
      var n1, n2 := r1.value, r2.value;
      if n1 != n2 {
        assert |f1.data| - (f1.pos - n1) != |f2.data| - (f2.pos - n2);
        return false;
      }
      if n1 == 0 {
        assert f1.data[start1..] == f1.data[start1..f1.pos];
        assert f2.data[start2..] == f2.data[start2..f2.pos];
        return true;
      }
      if buf1[..n1] != buf2[..n2] {
        SuffixesDiffer(f1.data, start1, f2.data, start2, f1.pos - n1 - start1, n1);
        return false;
      }
      SlicesExtend(f1.data, start1, f1.pos - n1, f2.data, start2, f2.pos - n2, n1);
    }
  }

  /** `is_same`: the metadata of both paths is read first (a failure is an
      error); paths of different sizes differ without being opened;
      otherwise both are opened and compared byte by byte. */
  function IsSameSpec(fs: FileSystem, cwd: Loc, a: Path, b: Path): (r: Result<bool>)
    ensures r.Err? <==> !Exists(fs, cwd, a) || !Exists(fs, cwd, b)
    ensures r.Ok? ==> (r.value <==> IsFile(fs, cwd, a) && IsFile(fs, cwd, b) && ContentsOf(fs, cwd, a) == ContentsOf(fs, cwd, b))
  {
    match Metadata(fs, cwd, a)
    case IoErr(e) => Err(FileOperation(FileOps.MetaData, a, None, e))
    case IoOk(ma) =>
      match Metadata(fs, cwd, b)
      case IoErr(e) => Err(FileOperation(FileOps.MetaData, b, None, e))
      case IoOk(mb) =>
        if Size(ma) != Size(mb) then Ok(false)
        else Ok(ma.File? && mb.File? && ma.data == mb.data)
  }

  /** `File::open` on a path whose metadata could be read. */
  method Open(fs: FileSystem, cwd: Loc, p: Path) returns (f: OpenFile)
    requires Exists(fs, cwd, p)
    ensures fresh(f) && f.Valid() && f.pos == 0
    ensures f.readable == IsFile(fs, cwd, p) && (f.readable ==> Some(f.data) == ContentsOf(fs, cwd, p))
  {
    var m := Metadata(fs, cwd, p).value;
    if m.File? {
      f := new OpenFile(m.data, true);
    } else {
      f := new OpenFile([], false);
    }
  }

  method IsSame(fs: FileSystem, cwd: Loc, a: Path, b: Path) returns (r: Result<bool>)
    ensures r == IsSameSpec(fs, cwd, a, b)
  {
    var ma := Metadata(fs, cwd, a);
    if ma.IoErr? {
      return Err(FileOperation(FileOps.MetaData, a, None, ma.kind));
    }
    var mb := Metadata(fs, cwd, b);
    if mb.IoErr? {
      return Err(FileOperation(FileOps.MetaData, b, None, mb.kind));
    }
    if Size(ma.value) != Size(mb.value) {
      return Ok(false);
    }
    var f1 := Open(fs, cwd, a);
    var f2 := Open(fs, cwd, b);
    var same := DiffFiles(f1, f2);
    return Ok(same);
  }

  /** `copy`: a directory (links followed) is copied by `copy_dir`, anything
      else by `fs::copy`. */
  function CopySpec(fs: FileSystem, cwd: Loc, src: Path, dst: Path): (r: Effect)
    ensures FileContents(r.fs) <= FileContents(fs)
    ensures IsDir(fs, cwd, src) ==> r == CopyDirSpec(fs, cwd, src, dst)
    ensures !IsDir(fs, cwd, src) ==> r == CopyFile(fs, cwd, src, dst)
    decreases Budget(src), 2
  {
    if IsDir(fs, cwd, src) then CopyDirSpec(fs, cwd, src, dst) else CopyFile(fs, cwd, src, dst)
  }

  /** `copy_dir`: creates `dst` (which must not exist), then for each entry
      of `src` recreates a link with the same target, or copies anything
      else with `copy`. */
  function CopyDirSpec(fs: FileSystem, cwd: Loc, src: Path, dst: Path): (r: Effect)
    ensures FileContents(r.fs) <= FileContents(fs)
    ensures Locate(fs, cwd, dst).IoOk? && NodeAt(fs, Locate(fs, cwd, dst).value).Some? ==> r == Effect(fs, Some(AlreadyExists))
    ensures r.err.None? ==>
      CreateDir(fs, cwd, dst).err.None? && ReadDir(CreateDir(fs, cwd, dst).fs, cwd, src).IoOk?
    decreases Budget(src), 1
  {
    var made := CreateDir(fs, cwd, dst);
    if made.err.Some? then made
    else
      match ReadDir(made.fs, cwd, src)
      case IoErr(e) => Effect(made.fs, Some(e))
      case IoOk(names) => CopyEntries(made.fs, cwd, src, dst, names, 0)
  }

  /** The entries loop of `copy_dir`, from entry `i` on. */
  function CopyEntries(fs: FileSystem, cwd: Loc, src: Path, dst: Path, names: seq<string>, i: nat): (r: Effect)
    requires !TooLong(src) && i <= |names|
    ensures FileContents(r.fs) <= FileContents(fs)
    decreases Budget(src), 0, |names| - i
  {
    if i == |names| then Effect(fs, None)
    else
      var step := CopyEntry(fs, cwd, src, dst, names[i]);
      if step.err.Some? then step else CopyEntries(step.fs, cwd, src, dst, names, i + 1)
  }

  /** One entry of `copy_dir`. */
  function CopyEntry(fs: FileSystem, cwd: Loc, src: Path, dst: Path, name: string): (r: Effect)
    requires !TooLong(src)
    ensures FileContents(r.fs) <= FileContents(fs)
    ensures SymlinkMetadata(fs, cwd, Child(src, name)).IoErr? ==>
      r == Effect(fs, Some(SymlinkMetadata(fs, cwd, Child(src, name)).kind))
    ensures SymlinkMetadata(fs, cwd, Child(src, name)).IoOk? && SymlinkMetadata(fs, cwd, Child(src, name)).value.Symlink? ==>
      r == CreateSymlink(fs, cwd, SymlinkMetadata(fs, cwd, Child(src, name)).value.target, Child(dst, name))
    ensures SymlinkMetadata(fs, cwd, Child(src, name)).IoOk? && !SymlinkMetadata(fs, cwd, Child(src, name)).value.Symlink? ==>
      r == CopySpec(fs, cwd, Child(src, name), Child(dst, name))
    decreases Budget(src), 0, 0
  {
    var from, to := Child(src, name), Child(dst, name);
    match SymlinkMetadata(fs, cwd, from)
    case IoErr(e) => Effect(fs, Some(e))
    case IoOk(Symlink(_)) =>
      (match ReadLink(fs, cwd, from)
       case IoErr(e) => Effect(fs, Some(e))
       case IoOk(link) => CreateSymlink(fs, cwd, link, to))
    case IoOk(_) =>
      ChildBudget(src, name);
      CopySpec(fs, cwd, from, to)
  }

  /** A link entry that `copy_dir` copies without error is, in the new file
      system, a link at the entry's new place, which was free, with the
      same target as the original. */
  lemma CopiedLink(fs: FileSystem, cwd: Loc, src: Path, dst: Path, name: string)
    requires !TooLong(src)
    requires SymlinkMetadata(fs, cwd, Child(src, name)).IoOk? && SymlinkMetadata(fs, cwd, Child(src, name)).value.Symlink?
    ensures var r := CopyEntry(fs, cwd, src, dst, name);
      r.err.None? ==>
        Locate(fs, cwd, Child(dst, name)).IoOk? && NodeAt(fs, Locate(fs, cwd, Child(dst, name)).value).None?
        && Locate(fs, cwd, Child(dst, name)).value in r.fs
        && r.fs[Locate(fs, cwd, Child(dst, name)).value] == SymlinkMetadata(fs, cwd, Child(src, name)).value
  {
    var r := CopyEntry(fs, cwd, src, dst, name);
    if r.err.None? {
      var l := Locate(fs, cwd, Child(dst, name)).value;
      assert l[..|l| - 1] != l;
    }
  }

  method Copy(fs: FileSystem, cwd: Loc, src: Path, dst: Path) returns (r: Effect)
    ensures r == CopySpec(fs, cwd, src, dst)
    decreases Budget(src), 2
  {
    if IsDir(fs, cwd, src) {
      r := CopyDir(fs, cwd, src, dst);
    } else {
      r := CopyFile(fs, cwd, src, dst);
    }
  }

  method CopyDir(fs: FileSystem, cwd: Loc, src: Path, dst: Path) returns (r: Effect)
    ensures r == CopyDirSpec(fs, cwd, src, dst)
    decreases Budget(src), 1
  {
    var made := CreateDir(fs, cwd, dst);
    if made.err.Some? {
      return made;
    }
    var listing := ReadDir(made.fs, cwd, src);
    if listing.IoErr? {
      return Effect(made.fs, Some(listing.kind));
    }
    var names := listing.value;
    var cur := made.fs;
    var i := 0;
    while i < |names|
      invariant i <= |names|
      invariant CopyEntries(made.fs, cwd, src, dst, names, 0) == CopyEntries(cur, cwd, src, dst, names, i)
    {
      var step := CopyOne(cur, cwd, src, dst, names[i]);
      if step.err.Some? {
        return step;
      }
      cur := step.fs;
      i := i + 1;
    }
    return Effect(cur, None);
  }

  /** The body of the entries loop of `copy_dir`. */
  method CopyOne(fs: FileSystem, cwd: Loc, src: Path, dst: Path, name: string) returns (step: Effect)
    requires !TooLong(src)
    ensures step == CopyEntry(fs, cwd, src, dst, name)
    decreases Budget(src), 0, 0
  {
    var from, to := Child(src, name), Child(dst, name);
    match SymlinkMetadata(fs, cwd, from)
    case IoErr(e) => step := Effect(fs, Some(e));
    case IoOk(node) =>
      if node.Symlink? {
        match ReadLink(fs, cwd, from)
        case IoErr(e) => step := Effect(fs, Some(e));
        case IoOk(link) => step := CreateSymlink(fs, cwd, link, to);
      } else {
        ChildBudget(src, name);
        step := Copy(fs, cwd, from, to);
      }
  }

  /** What reading an `Info.plist` gives: its `CFBundleExecutable` string,
      a property list without one, or a file the parser refuses. */
  datatype PlistLookup = BundleExecutable(name: string) | NoBundleExecutable | PlistUnreadable

  /** The surroundings of a run: the working directory, what each external
      command gives, what `otool -L` prints for a file's bytes (nothing for
      a path that is no regular file), and what the property-list parser
      finds in a file's bytes. */
  datatype Env = Env(
    cwd: Loc,
    run: Cmd -> ProcessOutput,
    otool: Option<Bytes> -> ProcessOutput,
    plist: Option<Bytes> -> PlistLookup)
}
