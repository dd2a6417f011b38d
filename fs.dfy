/** The file system the tool works on, and the `std::fs` / `Path` calls it
    makes, with the POSIX behaviour those calls have on macOS: symbolic
    links are followed by everything except `symlink_metadata`,
    `read_link`, `remove_file`, `create_dir` and `symlink` on the last
    component; at most `MaxSymlinks` links are followed per call; a path of
    `PathMax` bytes or more is refused. */
module Fs {
  import opened Opt
  import opened Paths
  import opened Errors

  type Bytes = seq<bv8>

  /** A location: the components of a canonical absolute path. */
  type Loc = seq<string>

  /** What a location holds. A directory lists its entry names in the order
      `read_dir` yields them. */
  datatype Node = File(data: Bytes, executable: bool) | Dir(entries: seq<string>) | Symlink(target: Path)

  /** The whole file system; the root directory exists even when it has no
      node of its own. */
  type FileSystem = map<Loc, Node>

  /** macOS `MAXSYMLINKS`. */
  const MaxSymlinks: nat := 32

  datatype IoResult<T> = IoOk(value: T) | IoErr(kind: IoError)

  /** The file system after a call that may change it, and the call's error. */
  datatype Effect = Effect(fs: FileSystem, err: Option<IoError>)

  predicate TooLong(p: Path) {
    PathLen(p.comps) >= PathMax
  }

  /** How much longer a path may grow before calls on it are refused. */
  function Budget(p: Path): nat {
    if TooLong(p) then 0 else PathMax - PathLen(p.comps)
  }

  lemma ChildBudget(p: Path, name: string)
    requires !TooLong(p)
    ensures Budget(Child(p, name)) < Budget(p)
  {
    assert Child(p, name).comps[..|p.comps|] == p.comps;
  }

  function NodeAt(fs: FileSystem, l: Loc): Option<Node> {
    if l in fs then Some(fs[l]) else if l == [] then Some(Dir([])) else None
  }

  predicate IsDirLoc(fs: FileSystem, l: Loc) {
    NodeAt(fs, l).Some? && NodeAt(fs, l).value.Dir?
  }

  /** Path resolution: `cur` is the directory reached so far, `rest` the
      components still to walk, `hops` the symbolic links that may still be
      followed. */
  function Walk(fs: FileSystem, cur: Loc, rest: seq<string>, hops: nat): IoResult<Loc>
    decreases hops, |rest|
  {
    if rest == [] then IoOk(cur)
    else if rest[0] == ".." then Walk(fs, if cur == [] then [] else cur[..|cur| - 1], rest[1..], hops)
    else
      var child := cur + [rest[0]];
      if child !in fs then IoErr(NotFound)
      else
        match fs[child]
        case Dir(_) => Walk(fs, child, rest[1..], hops)
        case File(_, _) => if |rest| == 1 then IoOk(child) else IoErr(NotADirectory)
        case Symlink(t) =>
          if hops == 0 then IoErr(FilesystemLoop)
          else Walk(fs, if t.absolute then [] else cur, t.comps + rest[1..], hops - 1)
  }

  function StartOf(cwd: Loc, p: Path): Loc {
    if p.absolute then [] else cwd
  }

  /** `Path::canonicalize`: the location a path leads to, following every
      symbolic link on the way. */
  function Canonicalize(fs: FileSystem, cwd: Loc, p: Path): (r: IoResult<Loc>)
    ensures TooLong(p) ==> r == IoErr(NameTooLong)
    ensures !TooLong(p) && p.comps == [] ==> r == IoOk(StartOf(cwd, p))
  {
    if TooLong(p) then IoErr(NameTooLong) else Walk(fs, StartOf(cwd, p), p.comps, MaxSymlinks)
  }

  /** The location a path names without following a link in its last
      component. */
  function Locate(fs: FileSystem, cwd: Loc, p: Path): (r: IoResult<Loc>)
    ensures TooLong(p) ==> r == IoErr(NameTooLong)
    ensures r.IoOk? && p.comps != [] && p.comps[|p.comps| - 1] != ".." ==>
      r.value != [] && r.value[|r.value| - 1] == p.comps[|p.comps| - 1]
  {
    if TooLong(p) then IoErr(NameTooLong)
    else if p.comps == [] || p.comps[|p.comps| - 1] == ".." then Walk(fs, StartOf(cwd, p), p.comps, MaxSymlinks)
    else
      match Walk(fs, StartOf(cwd, p), p.comps[..|p.comps| - 1], MaxSymlinks)
      case IoErr(e) => IoErr(e)
      case IoOk(dir) => if IsDirLoc(fs, dir) then IoOk(dir + [p.comps[|p.comps| - 1]]) else IoErr(NotADirectory)
  }

  function NodeOf(fs: FileSystem, l: IoResult<Loc>): IoResult<Node> {
    match l
    case IoErr(e) => IoErr(e)
    case IoOk(loc) => match NodeAt(fs, loc) { case None => IoErr(NotFound) case Some(n) => IoOk(n) }
  }

  /** `Path::metadata`: the node a path leads to. */
  function Metadata(fs: FileSystem, cwd: Loc, p: Path): (r: IoResult<Node>)
    ensures TooLong(p) ==> r == IoErr(NameTooLong)
    ensures r.IoOk? <==> Canonicalize(fs, cwd, p).IoOk? && NodeAt(fs, Canonicalize(fs, cwd, p).value).Some?
    ensures r.IoOk? ==> r.value == NodeAt(fs, Canonicalize(fs, cwd, p).value).value
  {
    NodeOf(fs, Canonicalize(fs, cwd, p))
  }

  /** `Path::symlink_metadata`: the node a path names, a link itself included. */
  function SymlinkMetadata(fs: FileSystem, cwd: Loc, p: Path): (r: IoResult<Node>)
    ensures TooLong(p) ==> r == IoErr(NameTooLong)
    ensures r.IoOk? <==> Locate(fs, cwd, p).IoOk? && NodeAt(fs, Locate(fs, cwd, p).value).Some?
    ensures r.IoOk? ==> r.value == NodeAt(fs, Locate(fs, cwd, p).value).value
  {
    NodeOf(fs, Locate(fs, cwd, p))
  }

  predicate Exists(fs: FileSystem, cwd: Loc, p: Path) {
    Metadata(fs, cwd, p).IoOk?
  }

  predicate IsDir(fs: FileSystem, cwd: Loc, p: Path) {
    Metadata(fs, cwd, p).IoOk? && Metadata(fs, cwd, p).value.Dir?
  }

  predicate IsFile(fs: FileSystem, cwd: Loc, p: Path) {
    Metadata(fs, cwd, p).IoOk? && Metadata(fs, cwd, p).value.File?
  }

  /** `Metadata::len`: the bytes of a file, the length of a link's target;
      a directory has size 0 here. */
  function Size(n: Node): nat {
    match n
    case File(data, _) => |data|
    case Dir(_) => 0
    case Symlink(t) => |PathString(t)|
  }

  /** What a program reading the path sees: the bytes of the regular file
      it leads to, or nothing. */
  function ContentsOf(fs: FileSystem, cwd: Loc, p: Path): Option<Bytes> {
    match Metadata(fs, cwd, p)
    case IoOk(File(data, _)) => Some(data)
    case _ => None
  }

  /** `Path::read_dir`: the entry names of the directory a path leads to. */
  function ReadDir(fs: FileSystem, cwd: Loc, p: Path): (r: IoResult<seq<string>>)
    ensures r.IoOk? ==> !TooLong(p)
  {
    match Metadata(fs, cwd, p)
    case IoErr(e) => IoErr(e)
    case IoOk(Dir(entries)) => IoOk(entries)
    case IoOk(_) => IoErr(NotADirectory)
  }

  /** `Path::read_link`: the target of the link a path names. */
  function ReadLink(fs: FileSystem, cwd: Loc, p: Path): IoResult<Path> {
    match SymlinkMetadata(fs, cwd, p)
    case IoErr(e) => IoErr(e)
    case IoOk(Symlink(t)) => IoOk(t)
    case IoOk(_) => IoErr(InvalidInput)
  }

  /** Puts `node` at `l` and appends its name to its parent directory. */
  function AddEntry(fs: FileSystem, l: Loc, node: Node): FileSystem
    requires l != []
  {
    var parent := l[..|l| - 1];
    var listed := match NodeAt(fs, parent) { case Some(Dir(es)) => es case _ => [] };
    fs[l := node][parent := Dir(listed + [l[|l| - 1]])]
  }

  function Without(names: seq<string>, name: string): (r: seq<string>)
    ensures forall k :: 0 <= k < |r| ==> r[k] in names && r[k] != name
  {
    if names == [] then []
    else if names[0] == name then Without(names[1..], name)
    else [names[0]] + Without(names[1..], name)
  }

  /** Removes `l` and everything below it, and its name from its parent. */
  function RemoveTree(fs: FileSystem, l: Loc): FileSystem {
    var kept := map k | k in fs && !(l <= k) :: fs[k];
    if l == [] then kept
    else
      var parent := l[..|l| - 1];
      match NodeAt(kept, parent)
      case Some(Dir(es)) => kept[parent := Dir(Without(es, l[|l| - 1]))]
      case _ => kept
  }

  /** `fs::create_dir`. */
  function CreateDir(fs: FileSystem, cwd: Loc, p: Path): (r: Effect)
    ensures r.err.None? ==>
      (Locate(fs, cwd, p).IoOk? && NodeAt(fs, Locate(fs, cwd, p).value).None?
       && r.fs == AddEntry(fs, Locate(fs, cwd, p).value, Dir([])))
    ensures r.err.Some? ==> r.fs == fs
    ensures Locate(fs, cwd, p).IoOk? && NodeAt(fs, Locate(fs, cwd, p).value).Some? ==> r.err == Some(AlreadyExists)
    ensures FileContents(r.fs) <= FileContents(fs)
  {
    match Locate(fs, cwd, p)
    case IoErr(e) => Effect(fs, Some(e))
    case IoOk(l) =>
      if NodeAt(fs, l).Some? then Effect(fs, Some(AlreadyExists))
      else AddEntryContents(fs, l, Dir([])); Effect(AddEntry(fs, l, Dir([])), None)
  }

  /** `fs::create_dir_all`, in the order of the standard library: try the
      path; when its parent is missing, create the parent first and try again;
      an existing directory is accepted. */
  function CreateDirAll(fs: FileSystem, cwd: Loc, p: Path): (r: Effect)
    ensures FileContents(r.fs) <= FileContents(fs)
    decreases |p.comps|
  {
    if p == Path(false, []) then Effect(fs, None)
    else
      var first := CreateDir(fs, cwd, p);
      if first.err.None? then first
      else if first.err != Some(NotFound) then
        if IsDir(fs, cwd, p) then Effect(fs, None) else first
      else
        match Parent(p)
        case None => Effect(fs, Some(Uncategorized))
        case Some(q) =>
          var up := CreateDirAll(fs, cwd, q);
          if up.err.Some? then up
          else
            var again := CreateDir(up.fs, cwd, p);
            if again.err.None? then again
            else if IsDir(up.fs, cwd, p) then Effect(up.fs, None)
            else again
  }

  /** `std::os::unix::fs::symlink(target, p)`. */
  function CreateSymlink(fs: FileSystem, cwd: Loc, target: Path, p: Path): (r: Effect)
    ensures r.err.None? ==>
      (Locate(fs, cwd, p).IoOk? && NodeAt(fs, Locate(fs, cwd, p).value).None?
       && r.fs == AddEntry(fs, Locate(fs, cwd, p).value, Symlink(target)))
    ensures r.err.Some? ==> r.fs == fs
    ensures FileContents(r.fs) <= FileContents(fs)
  {
    match Locate(fs, cwd, p)
    case IoErr(e) => Effect(fs, Some(e))
    case IoOk(l) =>
      if NodeAt(fs, l).Some? then Effect(fs, Some(AlreadyExists))
      else AddEntryContents(fs, l, Symlink(target)); Effect(AddEntry(fs, l, Symlink(target)), None)
  }

  /** `fs::remove_file`: removes a file or a link, never a directory. */
  function RemoveFile(fs: FileSystem, cwd: Loc, p: Path): (r: Effect)
    ensures r.err.None? ==>
      (Locate(fs, cwd, p).IoOk? && Locate(fs, cwd, p).value in fs
       && !fs[Locate(fs, cwd, p).value].Dir? && Locate(fs, cwd, p).value !in r.fs)
    ensures FileContents(r.fs) <= FileContents(fs)
  {
    match Locate(fs, cwd, p)
    case IoErr(e) => Effect(fs, Some(e))
    case IoOk(l) =>
      match NodeAt(fs, l)
      case None => Effect(fs, Some(NotFound))
      case Some(Dir(_)) => Effect(fs, Some(IsADirectory))
      case Some(_) => RemoveTreeContents(fs, l); Effect(RemoveTree(fs, l), None)
  }

  /** `fs::remove_dir_all`: a link is removed itself; a directory with all it
      contains, links inside it not followed; a file is refused. */
  function RemoveDirAll(fs: FileSystem, cwd: Loc, p: Path): (r: Effect)
    ensures r.err.None? ==> Locate(fs, cwd, p).IoOk? && Locate(fs, cwd, p).value !in r.fs
    ensures FileContents(r.fs) <= FileContents(fs)
  {
    match SymlinkMetadata(fs, cwd, p)
    case IoErr(e) => Effect(fs, Some(e))
    case IoOk(Symlink(_)) => RemoveFile(fs, cwd, p)
    case IoOk(File(_, _)) => Effect(fs, Some(NotADirectory))
    case IoOk(Dir(_)) =>
      var l := Locate(fs, cwd, p).value;
      if l == [] then Effect(fs, Some(InvalidInput)) else RemoveTreeContents(fs, l); Effect(RemoveTree(fs, l), None)
  }

  /** `fs::copy(src, dst)`: the bytes and the permission of the regular file
      `src` leads to are written to what `dst` leads to, which is created when
      missing and overwritten when a file. */
  function CopyFile(fs: FileSystem, cwd: Loc, src: Path, dst: Path): (r: Effect)
    ensures r.err.None? ==> IsFile(fs, cwd, src)
    ensures FileContents(r.fs) <= FileContents(fs)
  {
    match Metadata(fs, cwd, src)
    case IoErr(e) => Effect(fs, Some(e))
    case IoOk(Dir(_)) => Effect(fs, Some(InvalidInput))
    case IoOk(Symlink(_)) => Effect(fs, Some(InvalidInput))
    case IoOk(File(data, x)) =>
      match Canonicalize(fs, cwd, dst)
      case IoOk(l) =>
        (match NodeAt(fs, l)
         case Some(File(_, _)) => MetadataContents(fs, cwd, src); UpdateContents(fs, l, File(data, x)); Effect(fs[l := File(data, x)], None)
         case Some(_) => Effect(fs, Some(IsADirectory))
         case None => Effect(fs, Some(NotFound)))
      case IoErr(NotFound) =>
        (match Locate(fs, cwd, dst)
         case IoOk(l) =>
           if NodeAt(fs, l).None? then
             MetadataContents(fs, cwd, src);
             AddEntryContents(fs, l, File(data, x));
             Effect(AddEntry(fs, l, File(data, x)), None)
           else Effect(fs, Some(NotFound))
         case IoErr(e) => Effect(fs, Some(e)))
      case IoErr(e) => Effect(fs, Some(e))
  }

  /** The bytes of every regular file. */
  function FileContents(fs: FileSystem): set<Bytes> {
    set l | l in fs && fs[l].File? :: fs[l].data
  }

  lemma UpdateContents(fs: FileSystem, l: Loc, node: Node)
    requires node.File? ==> node.data in FileContents(fs)
    ensures FileContents(fs[l := node]) <= FileContents(fs)
  {
    forall d | d in FileContents(fs[l := node]) ensures d in FileContents(fs) {
      var k :| k in fs[l := node] && fs[l := node][k].File? && fs[l := node][k].data == d;
      if k != l {
        assert k in fs && fs[k].File?;
      }
    }
  }

  lemma AddEntryContents(fs: FileSystem, l: Loc, node: Node)
    requires l != []
    requires node.File? ==> node.data in FileContents(fs)
    ensures FileContents(AddEntry(fs, l, node)) <= FileContents(fs)
  {
    var parent := l[..|l| - 1];
    var listed := match NodeAt(fs, parent) { case Some(Dir(es)) => es case _ => [] };
    UpdateContents(fs, l, node);
    UpdateContents(fs[l := node], parent, Dir(listed + [l[|l| - 1]]));
  }

  lemma RemoveTreeContents(fs: FileSystem, l: Loc)
    ensures FileContents(RemoveTree(fs, l)) <= FileContents(fs)
  {
    var kept := map k | k in fs && !(l <= k) :: fs[k];
    assert FileContents(kept) <= FileContents(fs) by {
      forall d | d in FileContents(kept) ensures d in FileContents(fs) {
        var k :| k in kept && kept[k].File? && kept[k].data == d;
        assert k in fs && fs[k].File?;
      }
    }
    if l != [] {
      var parent := l[..|l| - 1];
      match NodeAt(kept, parent)
      case Some(Dir(es)) => UpdateContents(kept, parent, Dir(Without(es, l[|l| - 1])));
      case _ =>
    }
  }

  /** The bytes a path leads to are bytes of a file of the file system. */
  lemma MetadataContents(fs: FileSystem, cwd: Loc, p: Path)
    requires Metadata(fs, cwd, p).IoOk? && Metadata(fs, cwd, p).value.File?
    ensures Metadata(fs, cwd, p).value.data in FileContents(fs)
  {
    var l := Canonicalize(fs, cwd, p).value;
    assert l in fs;
  }
}
