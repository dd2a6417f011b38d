/** The operation names of `FileOperation` errors; used qualified, as
    `FileOps.ReadDir`, since they share their names with the calls. */
module FileOps {
  /** `FileOperation`: which file operation failed. Both `MetaData` and `Metadata` exist in
      the source, and different call sites use one or the other. */
  datatype FileOp =
    | CreateDir | Copy | Move | Remove | RemoveDir | Read | ReadLink | Write | Open | Create
    | SymLink | MetaData | CopyDir | MkDir | ReadDir | Canonicalize | Command | Unarchive | Metadata
}

/** The tool's error type and its `Result` alias (src/error.rs), together with
    the operating-system error kinds that `FileOperation` errors carry. */
module Errors {
  import opened Opt
  import opened Paths
  import FileOps

  /** The kinds of `io::Error` that the file-system model produces. */
  datatype IoError =
    | NotFound          // ENOENT
    | AlreadyExists     // EEXIST
    | NotADirectory     // ENOTDIR
    | IsADirectory      // EISDIR, and EPERM from unlinking a directory
    | NameTooLong       // ENAMETOOLONG
    | FilesystemLoop    // ELOOP
    | InvalidInput      // a request the call refuses, e.g. `read_link` on a non-link
    | SpawnFailure      // the program of a `Command` could not be started
    | Uncategorized     // `create_dir_all` reaching a path without a parent

  /** `ToolError`. An exit status is its integer code; `Plist` does not carry
      the parser's error value. `Panic` stands for a Rust panic (an
      `unwrap` of `None`), which ends the process. */
  datatype ToolError =
    | Command(command: string, status: int, stderr: string, stdout: string)
    | FileOperation(operation: FileOps.FileOp, path: Path, sourcePath: Option<Path>, source: IoError)
    | PathResolve(reference: string, rpaths: seq<Path>)
    | Plist(plistPath: Option<Path>)
    | NotarizationFailure(logFileUrl: Option<string>)
    | BundlesNotIdentical
    | OtherError(message: string)
    | Panic(reason: string)

  /** `ToolResult<T>`, usable with `:-` like Rust's `?`. */
  datatype Result<T> = Ok(value: T) | Err(error: ToolError) {
    predicate IsFailure() { Err? }
    function PropagateFailure<U>(): Result<U> requires Err? { Err(error) }
    function Extract(): T requires Ok? { value }
  }

  /** The panic of an `unwrap` on `None`. */
  const PanicUnwrap := Panic("called `Option::unwrap()` on a `None` value")

  /** `IOResultExt::wrap_error`: an I/O failure becomes a `FileOperation`
      error naming the operation and the path. */
  function WrapError(e: Option<IoError>, op: FileOps.FileOp, path: Path): Option<ToolError> {
    match e
    case None => None
    case Some(k) => Some(FileOperation(op, path, None, k))
  }

  /** `IOResultExt::wrap_error_with_src`: as `WrapError`, also naming a
      second path as the source. */
  function WrapErrorWithSrc(e: Option<IoError>, op: FileOps.FileOp, path: Path, source: Path): Option<ToolError> {
    match e
    case None => None
    case Some(k) => Some(FileOperation(op, path, Some(source), k))
  }
}
