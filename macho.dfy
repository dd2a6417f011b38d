/** The Mach-O test of src/macos/utils.rs: a file is taken for a binary
    when it is longer than four bytes and starts with one of the four magic
    numbers of fat and 64-bit Mach-O files, in either byte order. */
module MachO {
  import opened Opt
  import opened Paths
  import opened Errors
  import opened Fs
  import FileOps

  const MagicFat: Bytes := [0xca, 0xfe, 0xba, 0xbe]
  const CigamFat: Bytes := [0xbe, 0xba, 0xfe, 0xca]
  const Magic64: Bytes := [0xfe, 0xed, 0xfa, 0xcf]
  const Cigam64: Bytes := [0xcf, 0xfa, 0xed, 0xfe]

  predicate IsMagic(start: Bytes) {
    start == MagicFat || start == CigamFat || start == Magic64 || start == Cigam64
  }

  function Reverse(s: Bytes): (r: Bytes)
    ensures |r| == |s| && forall k :: 0 <= k < |s| ==> r[k] == s[|s| - 1 - k]
  {
    if s == [] then [] else Reverse(s[1..]) + [s[0]]
  }

  /** Each byte-swapped ("cigam") number is its magic number reversed. */
  lemma CigamIsReversedMagic()
    ensures CigamFat == Reverse(MagicFat) && Cigam64 == Reverse(Magic64)
  {
    assert Reverse(MagicFat)[0] == 0xbe;
    assert Reverse(Magic64)[0] == 0xcf;
  }

  /** The bytes a binary may have: more than four, the first four a magic
      number. */
  predicate IsBinaryData(data: Bytes) {
    |data| > 4 && IsMagic(data[..4])
  }

  /** How many bytes one `read` into a buffer of `want` bytes gives. */
  function BytesRead(data: Bytes, want: nat): nat {
    if |data| < want then |data| else want
  }

  /** `is_executable_binary`: the metadata of the path (links followed) is
      read first, and a failure is an error; an entry of four bytes or fewer
      is no binary and is not opened; otherwise its first bytes are read and
      compared with the magic numbers. Reading a directory fails. */
  function IsExecutableBinary(fs: FileSystem, cwd: Loc, p: Path): (r: Result<bool>)
    ensures !Exists(fs, cwd, p) ==> r == Err(FileOperation(FileOps.Metadata, p, None, Metadata(fs, cwd, p).kind))
    ensures IsFile(fs, cwd, p) ==> r.Ok?
    ensures r.Ok? ==> (r.value <==> ContentsOf(fs, cwd, p).Some? && IsBinaryData(ContentsOf(fs, cwd, p).value))
  {
    match Metadata(fs, cwd, p)
    case IoErr(e) => Err(FileOperation(FileOps.Metadata, p, None, e))
    case IoOk(node) =>
      if Size(node) > 4 then
        match node
        case File(data, _) =>
          var n := BytesRead(data, 4);
          Ok(n == 4 && IsMagic(data[..n]))
        case _ => Err(FileOperation(FileOps.Read, p, None, IsADirectory))
      else Ok(false)
  }
}
