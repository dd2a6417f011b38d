# bundle_tool, modelled in Dafny

`bundle_tool` prepares macOS applications for distribution. It does this in three stages.

1. **Self-contained bundling.** The tool copies a `.app` tree into an output folder. It keeps symbolic links only when they point inside the new bundle. It records every Mach-O executable it meets. For each executable it then walks the dynamic-library dependency graph that `otool -L` reports:
   - every non-system dependency is resolved against `@rpath` search roots;
   - the dependency's framework or dylib is copied into `Contents/Frameworks`;
   - the dependency is given the install name `@rpath/...`;
   - every reference to it is rewritten with one batched `install_name_tool -change` command;
   - finally the executable gets an `-add_rpath` pointing at `Contents/Frameworks`.
2. **Code signing.** The tool signs the bundle inside out. Nested bundles and loose binaries come before the bundle that holds them. No canonical path is signed twice.
3. **Universal merge.** The tool walks several bundles built for different architectures in parallel. It recreates links and directories. A Mach-O file whose copies differ in size is joined with `lipo`. Every other file is copied from the first bundle.

The project models these stages.
- The bundler exists in two variants:
  - the current `SelfContained` (`src/macos/bundle.rs`);
  - the older `MacOSBundleSelfContained` (`src/macos_bundle.rs`).

  One class `Bundle.SelfContained` models both, with a `Variant` constant. The variants differ only in three places:
  - the binary classifier;
  - the `-add_rpath` argument;
  - how the reference is shown in a `PathResolve` error.
- The file helpers and the Mach-O test are modelled too.

What stands in for the outside world:
- **File system.** A finite map from absolute locations to `File(bytes, executable) | Dir(entry names, in order) | Symlink(target)`. `canonicalize` resolves links, with a bound on link hops. Every path operation (`canonicalize`, `read_dir`, the metadata calls, and the calls that create or remove entries) refuses an over-long path with `NameTooLong`, which gives every tree walk its termination measure.
- **External tools.** `otool`, `install_name_tool`, `codesign` and `lipo` are oracles in `Utils.Env`. Every command run is appended to a log, so the order of commands is part of what is proved. `otool` is an oracle on a file's bytes.
- **Termination of the dependency walk.** The tool never creates new file contents. So every reference `otool` can print comes from the slices of a finite set of texts. Every `@rpath/...` key then lies in a finite set (`Bundle.KeySpace`). The mutual recursion of `process_dependency` and `process_module` decreases the number of keys of that set not yet in `processed_libraries`. A key is inserted before the recursion.
- **Panics.** Rust panics (an `unwrap` of `None`) are modelled as the error `Panic`.

Modules:
- `Opt`, `Strings`: options, trimming, splitting, `split_terminator` and `replace`.
- `Paths`: `Path` values, `join`/`parent`/`file_name`/`extension`, parsing and printing, and `diff_paths`.
- `FileOps`, `Errors`: the error type of `src/error.rs`.
- `Fs`: the file system.
- `Utils`: `run_command`, `diff_files`/`is_same`, `copy`/`copy_dir`, and the environment.
- `MachO`: the magic-number test.
- `Modules`: `otool -L` parsing, the loaders, `resolve` and `find_dependency_root`.
- `Bundle`: the bundler.
- `Signing`: the code signer.
- `Merge`: the universal merge.

Every imperative operation is a method of a class whose fields are the source's mutable state. Each method is proved equal to a ghost or plain specification function of the old state. That function's own contract, and the lemmas about it, state what the source promises; where a contract is deliberately weaker than that, "## Left out" names the member and what is not promised.

Where the code and its prose description differ, the model follows the code:
- `process_dir` records the **source** path of every binary in `executables`, not its copy in the output bundle.
- The Mach-O test needs a file **longer than four bytes**, not at least four.
- The older bundler's binary test is `num_read == 2 && start[0] != '#' && start[1] != '!'`. It is modelled as written: a file counts as a binary unless its first byte is `#` or its second is `!`.
- `run_command` builds a `ToolError::ToolError` value (`src/utils.rs:17`) that `src/error.rs` does not declare. It is modelled as the `Command` variant, which has the same fields.
- The older bundler builds a `ToolError::PathResolveError { path }` value (`src/macos_bundle.rs:298`) that `src/error.rs` does not declare either, so that copy does not compile as written. It is modelled as the `PathResolve` variant, carrying the raw reference text.

## Model

| member | source | states |
|---|---|---|
| Strings.SkipWhitespace | src/macos/bundle.rs:401 | the forward scan of `trim` stops at the first non-whitespace character at or after `i`, skipping only whitespace |
| Strings.SkipWhitespaceBack | src/macos/bundle.rs:401 | the backward scan of `trim` stops after the last non-whitespace character before `j`, skipping only whitespace |
| Strings.Trim | src/macos/bundle.rs:401 | `trim` is no longer than the line and has no whitespace at either of its ends |
| Strings.TrimMeaning | src/macos/bundle.rs:401 | `trim` gives a slice of the line with only whitespace outside it and no whitespace at either of its ends |
| Strings.FindChar | src/macos/bundle.rs:402 | `find(' ')` gives the first occurrence: the character is there and not anywhere before; `None` means it does not occur |
| Strings.Split | src/macos/bundle.rs:324 | the pieces hold no separator, there is at least one, and joining them with the separator gives back the string |
| Strings.SplitTerminator | src/utils.rs:25 | the lines hold no `\n`; with a `\n` after each they restore the output, plus one final `\n` when the output did not end with one, so no trailing empty line appears |
| Strings.JoinWithCons | src/utils.rs:25 | joining unfolds at the front: the first part, the separator, then the rest joined |
| Strings.ConcatTerminatedJoin | src/utils.rs:25 | the parts, each terminated, are the parts joined plus one final separator |
| Strings.DropEmptyLast | src/utils.rs:25 | the split with a trailing empty piece dropped is what `split_terminator` keeps: a text that ends with the separator loses only its last empty piece |
| Strings.JoinWithLast | src/utils.rs:25 | a joined text whose last part is non-empty ends with that part's last character |
| Strings.ReplaceAllWithoutMatch | src/macos/bundle.rs:330 | `str::replace` leaves a string without an occurrence of the pattern unchanged |
| Paths.Join | src/macos/bundle.rs:195 | `join` appends the components of a relative path and is replaced by an absolute one |
| Paths.Parent | src/macos/bundle.rs:413 | `parent` fails exactly on a path with no components; otherwise the child of the parent under the last name is the path |
| Paths.FileName | src/macos/bundle.rs:415 | `file_name` is the last component, and is missing exactly when there is none or it is `..` |
| Paths.ChildParent | src/macos/bundle.rs:123 | a joined child's parent is the directory, and its file name the name joined |
| Paths.LastIndexOf | src/macos/codesign.rs:201 | the index found holds the character and none follows it; `None` means the character does not occur |
| Paths.Extension | src/macos/codesign.rs:201 | the extension follows the file name's last `.`, which is not its first character; none means no `.` after the first character |
| Paths.NormalComps | src/macos/bundle.rs:324 | the components kept from the pieces are pieces, not empty and not `.` |
| Paths.SplitJoin | src/macos/bundle.rs:324 | splitting the components joined by `/` gives them back |
| Paths.NormalCompsOfNormal | src/macos/bundle.rs:324 | components as parsing produces them are kept unchanged |
| Paths.ParsePathString | src/macos/bundle.rs:330 | a path printed with `to_string_lossy` and parsed back is the same path |
| Paths.DiffPathsOfDescendant | src/macos/bundle.rs:251-252 | a path inside a base is reached from it by its remaining components, and joining them back onto the base restores the path |
| Paths.DiffPaths | src/macos/bundle.rs:251 | an absolute path from a relative base is the path itself; a relative path from an absolute base has no relative form; otherwise the result is relative |
| Fs.ReadDir | src/utils.rs:72 | a directory is listed only when its path is within the path-length bound |
| Fs.Canonicalize | src/macos/bundle.rs:143-149 | an over-long path is `NameTooLong`; an empty path resolves to where it starts |
| Fs.Locate | src/macos/bundle.rs:124-127 | an over-long path is `NameTooLong`; a path ending in a name is located at a place with that name |
| Fs.Metadata | src/utils.rs:55-60 | an over-long path is `NameTooLong`; metadata succeeds exactly when the path resolves to an existing node, and is that node |
| Fs.SymlinkMetadata | src/macos/bundle.rs:124-127 | an over-long path is `NameTooLong`; it succeeds exactly when the located place holds a node, and is that node, a link itself included |
| Fs.CreateDir | src/utils.rs:71 | `create_dir` adds an empty directory when the parent exists and the entry is missing; an existing entry is `AlreadyExists`; a failure changes nothing; no new file contents appear |
| Fs.CreateDirAll | src/macos/bundle.rs:267-269 | `create_dir_all` creates no new file contents |
| Fs.CreateSymlink | src/utils.rs:78 | `symlink` adds a link with exactly the given target at a missing entry; a failure changes nothing |
| Fs.RemoveFile | src/macos/bundle.rs:154 | `remove_file` removes a file or link, never a directory, and creates no file contents |
| Fs.RemoveDirAll | src/macos/bundle.rs:94-96 | `remove_dir_all` leaves nothing at the path on success, and creates no file contents |
| Fs.CopyFile | src/utils.rs:91 | `fs::copy` succeeds only from a regular file and writes only bytes that exist already |
| Utils.RunCommand | src/utils.rs:11-27 | a command that cannot start is a `Command` file-operation error; a non-zero status is an error with the status and both outputs; success gives the stdout lines as `split_terminator('\n')` makes them |
| Utils.OpenFile.constructor | src/utils.rs:64-65 | an opened file starts at offset zero |
| Utils.OpenFile.Read | src/utils.rs:34-38 | a read fills the buffer with as many of the remaining bytes as fit and advances by that count; a file that cannot be read is an error and changes nothing |
| Utils.SlicesExtend | src/utils.rs:45 | equal prefixes followed by equal chunks are equal prefixes |
| Utils.SuffixesDiffer | src/utils.rs:39-47 | remaining contents that differ in one chunk differ |
| Utils.DiffFiles | src/utils.rs:29-52 | `diff_files` is true exactly when both files are readable and their remaining bytes are equal: chunks of differing length or content, or a read error, give false |
| Utils.IsSameSpec | src/utils.rs:54-67 | `is_same` fails exactly when the metadata of either path fails; otherwise it is true exactly when both are regular files with the same bytes |
| Utils.Open | src/utils.rs:64-65 | an opened path reads the bytes of its file, and a directory opens but cannot be read |
| Utils.IsSame | src/utils.rs:54-67 | metadata of both paths first; sizes that differ answer false before either file is opened; else a byte comparison |
| Utils.CopySpec | src/utils.rs:87-94 | `copy` of a directory (links followed) is `copy_dir`, of anything else `fs::copy`; it creates no new file contents |
| Utils.CopyDirSpec | src/utils.rs:70-85 | an existing destination is `AlreadyExists` with nothing changed; success means the destination was created and the source listed; no new file contents |
| Utils.CopyEntries | src/utils.rs:72-82 | the entries loop of `copy_dir` creates no new file contents |
| Utils.CopyEntry | src/utils.rs:73-81 | a metadata failure is the error with nothing changed; a link is recreated at the destination with its own target; anything else is copied by `copy`; no new file contents |
| Utils.CopiedLink | src/utils.rs:74-78 | a link entry copied without error is, afterwards, a link at a place that was free, with the original's target |
| Utils.Copy | src/utils.rs:87-94 | the method's effect is `CopySpec`'s, whose dispatch and frame are stated there |
| Utils.CopyDir | src/utils.rs:70-85 | the method's effect is `CopyDirSpec`'s: an existing destination fails with `AlreadyExists`; the loop invariant keeps the entries still to copy equal to the specification's loop from the entry reached |
| Utils.CopyOne | src/utils.rs:73-81 | the method's effect is `CopyEntry`'s: a link is recreated with its own target, anything else copied with `copy` |
| MachO.Reverse | src/macos/utils.rs:17-20 | the reversal of a byte string has the same length and the bytes in opposite order |
| MachO.CigamIsReversedMagic | src/macos/utils.rs:17-20 | each byte-swapped magic number is its magic number reversed |
| MachO.IsExecutableBinary | src/macos/utils.rs:5-27 | a missing path is a `Metadata` error, not false; a regular file always gets an answer; the answer is true exactly when the file holds more than four bytes and starts with one of the four magic numbers |
| Modules.ExtractModulePath | src/macos/bundle.rs:400-410 | a line parses exactly when its trimmed text contains a space; the reference is that text's prefix up to the first space; otherwise the error is "Malformed otool -L output" with the trimmed line |
| Modules.CollectModulePaths | src/macos/bundle.rs:397 | collecting succeeds with one reference per line, each parsed from its line, or fails with the error of some malformed line |
| Modules.MalformedInTail | src/macos/bundle.rs:397 | a malformed line of the tail is a malformed line of the whole list |
| Modules.FirstMalformedWins | src/macos/bundle.rs:397 | the error collected is that of the first malformed line |
| Modules.ParseOtoolLines | src/macos/bundle.rs:395-397 | the first line is dropped and every other line parsed, in order; the error is that of a malformed later line |
| Modules.FindModulePaths | src/macos/bundle.rs:391-398 | a failed `otool` run is the error; otherwise the result is the parse of its output lines |
| Modules.LoadLibrary | src/macos/bundle.rs:355-373 | an empty list is refused with "Invalid otool -L output"; otherwise the first reference is the install name and the rest the dependencies, in order |
| Modules.LoadExecutable | src/macos/bundle.rs:375-389 | an empty list is refused; otherwise every reference is a dependency |
| Modules.Substitutions | src/macos/bundle.rs:328-330 | there is one substitution per search root, the i-th the reference with every `@rpath` replaced by the i-th root |
| Modules.Candidates | src/macos/bundle.rs:324-330 | the paths tried are the reference itself, then its substitution into each root, in order |
| Modules.FirstExisting | src/macos/bundle.rs:328-334 | the search gives the first candidate that exists, none before it existing; none means no candidate exists |
| Modules.Resolve | src/macos/bundle.rs:323-340 | an existing reference is returned unchanged; otherwise the first root, in list order, whose substitution exists; when none does, the error is `PathResolve` with the reference and all roots |
| Modules.FindDependencyRoot | src/macos/bundle.rs:412-438 | the parent when it ends in `.framework`; else the great-grandparent when the grandparent is `Versions` and it ends in `.framework`; else the path; the result is the path or an ancestor; a missing file name on the way panics, and exactly when |
| Modules.KeyOf | src/macos/bundle.rs:250-253 | the key is `@rpath/` followed by the resolved path relative to the root's parent, and joining that relative path onto the parent gives the resolved path |
| Modules.IsSystem | src/macos/bundle.rs:303-305 | a system reference is an absolute path, so an `@rpath/` name never is one |
| Bundle.ChangeArgs | src/macos/bundle.rs:235-237 | the arguments are, for the i-th change and in order, exactly the triple `-change`, its old name, its new name |
| Bundle.ChangeCommand | src/macos/bundle.rs:234-238 | `install_name_tool` with one `-change old new` triple per change, in order, then the target |
| Bundle.IdCommand | src/macos/bundle.rs:284-287 | `install_name_tool -id <key> <target>`, the new id being the key's text |
| Bundle.RpathCommand | src/macos/bundle.rs:200-207 | `install_name_tool -add_rpath <rpath> <target>`, where `<rpath>` is `RpathValue` of the path from the target's directory to Contents/Frameworks, for any target; none (a panic) exactly when the target has no parent or the frameworks directory has no path relative to it |
| Bundle.RpathValue | src/macos/bundle.rs:200-206 | the current bundler joins the relative path onto `@executable_path` (a relative path is prefixed with it, an absolute one replaces it); the older copy (src/macos_bundle.rs:163-167) passes it bare |
| Bundle.RpathOfMainExecutable | src/macos/bundle.rs:198-209 | for the main executable in `Contents/MacOS` the rpath is `@executable_path/../Frameworks` (bare `../Frameworks` in the older bundler) |
| Bundle.IsBinary | src/macos/bundle.rs:173 | a binary is a regular file; the older bundler's test never fails |
| Bundle.ShebangFreeExecutable | src/macos_bundle.rs:375-387 | the older binary test never fails, and is true exactly for an executable regular file of at least two bytes whose first byte is not `#` and whose second is not `!` |
| Bundle.PartOffset | src/utils.rs:25 | each output line lies at some offset of the terminated output |
| Bundle.SliceChain | src/macos/bundle.rs:400-404 | a reference cut from a trimmed output line is a slice of the output |
| Bundle.LinesInText | src/utils.rs:25 | the lines of a successful run, each terminated, are a prefix of its output |
| Bundle.ListedFromLine | src/macos/bundle.rs:391-398 | each reference `find_module_paths` gives was extracted from a line of the `otool` output |
| Bundle.ExtractedSlice | src/macos/bundle.rs:400-404 | an extracted reference is a slice of the output text |
| Bundle.LineSlice | src/macos/bundle.rs:400-404 | a reference from any of the output lines is a slice of the output |
| Bundle.ListedInUniverse | src/macos/bundle.rs:391-398 | every reference listed for a file whose bytes lie in the universe is in the finite set of possible references |
| Bundle.KeyInSpace | src/macos/bundle.rs:250-253 | the key of any candidate of a possible reference is in the finite key space |
| Bundle.Froms | src/macos/bundle.rs:235-237 | the old references of the changes, in order |
| Bundle.DependencySpec | src/macos/bundle.rs:244-292 | `process_dependency` keeps file contents in the universe, only grows the log and `processed_libraries`, and never changes an entry already recorded |
| Bundle.DependencyKey | src/macos/bundle.rs:249-253 | the new name `process_dependency` returns is the `@rpath/...` key of the path the reference resolves to |
| Bundle.LibraryInUniverse | src/macos/bundle.rs:266 | the dependencies of a loaded library are possible references |
| Bundle.SubsetCardinality | src/macos/bundle.rs:264-265 | a subset has no more elements than its superset |
| Bundle.PendingMonotone | src/macos/bundle.rs:264-265 | recording more keys leaves no more keys pending |
| Bundle.PendingShrinks | src/macos/bundle.rs:264-265 | inserting a new key before recursing leaves strictly fewer keys pending, which is why the walk terminates |
| Bundle.ExtendsByInsert | src/macos/bundle.rs:264-266 | inserting a new key and logging a command neither removes nor overwrites a recorded entry |
| Bundle.ExtendsTrans | src/macos/bundle.rs:244-292 | the "only grows" relation composes |
| Bundle.LocatedDependencySpec | src/macos/bundle.rs:250-291 | a located dependency succeeds only with its `@rpath/...` key, which is then recorded in the map |
| Bundle.KnownDependency | src/macos/bundle.rs:254-261 | a reference already recorded succeeds, with the same key and nothing copied, exactly when the file recorded is the same as the one resolved now; a file that differs is an error |
| Bundle.NewDependencySpec | src/macos/bundle.rs:262-290 | whatever follows, the key is in the map afterwards, recorded for the resolved path; success returns the key |
| Bundle.LoadedDependencySpec | src/macos/bundle.rs:266-290 | loading the recorded dependency succeeds only with its key |
| Bundle.CopyRootSpec | src/macos/bundle.rs:267-290 | copying the root into the frameworks directory succeeds only with the key |
| Bundle.InstallSpec | src/macos/bundle.rs:281-289 | the dependency's own dependencies are processed first; `-id` with the new key is logged last exactly when the install name differs from the key, and nothing else is logged otherwise |
| Bundle.ModuleSpec | src/macos/bundle.rs:213-242 | on success the loop succeeded, and the only further command is one `-change` command for the changes it collected, none when it collected none (which changes those are: `ModuleLoopComplete`) |
| Bundle.ListedSpec | src/macos/bundle.rs:220-228 | a system reference is skipped with nothing changed; any other ends in the state of `process_dependency`, fails exactly when it fails and with its error, and otherwise records the change to its result exactly when the name differs |
| Bundle.ModuleLoop | src/macos/bundle.rs:220-228 | the loop keeps file contents in the universe and never removes or overwrites a recorded entry |
| Bundle.ModuleLoopStep | src/macos/bundle.rs:220-228 | the loop stops at the first failing dependency with its state, and otherwise goes on with the rest of the dependencies |
| Bundle.ChangesFromSkip | src/macos/bundle.rs:221-223 | a skipped reference keeps the changes a subsequence of the remaining references |
| Bundle.ChangesFromCons | src/macos/bundle.rs:224-227 | a change recorded for the first reference keeps the changes in order |
| Bundle.ModuleLoopChanges | src/macos/bundle.rs:219-241 | the changes collected are for non-system references only, each to a different name, and in dependency order |
| Bundle.NonSystem | src/macos/bundle.rs:303-305 | the non-system references are dependencies, and none is a system one |
| Bundle.SystemDependenciesIgnored | src/macos/bundle.rs:221-223 | system dependencies are never resolved, copied or rewritten: processing all dependencies equals processing only the non-system ones |
| Bundle.Resolutions | src/macos/bundle.rs:220-224 | the calls of `process_dependency` the loop makes, each from the state the one before left, keep file contents in the universe and never overwrite a recorded entry |
| Bundle.ResolutionsOrder | src/macos/bundle.rs:220-224 | exactly the non-system references are processed, each once, in dependency order |
| Bundle.RenamedFilters | src/macos/bundle.rs:225-227 | the renamed pairs are exactly the pairs whose returned name differs, in their order |
| Bundle.ModuleLoopComplete | src/macos/bundle.rs:219-228 | the loop is exactly those calls: same final state, failure exactly when one of them fails and with its error, and on success it appends every pair whose returned name differs and no other |
| Bundle.ResolvedNames | src/macos/bundle.rs:250-253 | every name `process_dependency` returns is an `@rpath/` name |
| Bundle.ModuleChangeCommand | src/macos/bundle.rs:219-240 | `process_module` on success: every dependency call succeeded, and the only further command is one `-change` command for exactly the references whose name differs, none when none does |
| Bundle.ExecutableSpec | src/macos/bundle.rs:185-211 | `process_executable` keeps the output path and the recorded executables, only appends to the log, and on success began with `otool -L` on the resolved path |
| Bundle.LoadedExecutableSpec | src/macos/bundle.rs:192-209 | the first command run for a loaded executable is `otool -L` on it |
| Bundle.ExecutableModuleSpec | src/macos/bundle.rs:196-209 | processing the executable's module keeps the output path and the executables, and only appends to the log |
| Bundle.RpathSpec | src/macos/bundle.rs:197-209 | `-add_rpath` is logged, as the last command, exactly when some dependency is not a system one; a path with no relative form panics |
| Bundle.DirSpec | src/macos/bundle.rs:117-183 | the walk changes only the file system and the executables; those recorded are source paths below the walked directory, none inside a skipped `Contents/Frameworks` |
| Bundle.EntriesSpec | src/macos/bundle.rs:118-181 | the entries loop changes only the file system and the executables it records below the directory |
| Bundle.EntrySpec | src/macos/bundle.rs:122-181 | `Frameworks` directly under `Contents` is skipped with nothing changed; a link fails with the link step's error, ends the entry when kept, and otherwise goes on as a resolved entry from the state after the removal; anything else is a resolved entry |
| Bundle.LinkSpec | src/macos/bundle.rs:135-155 | the link is recreated with its own target; on success it is kept exactly when it then resolves inside the resolved output bundle, and otherwise removed again, leaving nothing at the destination; only the file system changes |
| Bundle.ResolvedSpec | src/macos/bundle.rs:157-180 | a resolved entry changes only the file system and records executables below the directory |
| Bundle.WalkBelowChild | src/macos/bundle.rs:162-166 | a walk of a child (not a skipped `Frameworks`) is a walk of the directory |
| Bundle.ChildOutsideFrameworks | src/macos/bundle.rs:129-133 | a child that is not a skipped `Frameworks` lies below its directory and outside the skipped frameworks |
| Bundle.FileEntrySpec | src/macos/bundle.rs:167-180 | a file entry is copied from its resolved path; its source path is appended to the executables exactly when it is a binary |
| Bundle.ExecutablesSpec | src/macos/bundle.rs:109-112 | the executables loop keeps the output path and the executables, and only appends to the log |
| Bundle.PerformSpec | src/macos/bundle.rs:75-115 | a source that is not a directory, an output directory that is not one, or an existing target without the delete flag each give their own error; success implies both are directories and the output path is the output directory joined with the source's name |
| Bundle.SetUpSpec | src/macos/bundle.rs:92-112 | the rest of `perform` keeps the output path |
| Bundle.SelfContained.constructor | src/macos/bundle.rs:37-44 | a fresh bundler has no output path, no executables, an empty map and an empty log |
| Bundle.SelfContained.Run | src/utils.rs:11-27 | running a command logs it and gives `run_command`'s result |
| Bundle.SelfContained.Perform | src/macos/bundle.rs:75-115 | the method's final state and result are those of `PerformSpec` |
| Bundle.SelfContained.SetUp | src/macos/bundle.rs:92-112 | as `SetUpSpec` |
| Bundle.SelfContained.ProcessDir | src/macos/bundle.rs:117-183 | as `DirSpec` |
| Bundle.SelfContained.ProcessEntry | src/macos/bundle.rs:122-181 | as `EntrySpec` |
| Bundle.SelfContained.PreserveLink | src/macos/bundle.rs:135-155 | as `LinkSpec` |
| Bundle.SelfContained.ProcessResolved | src/macos/bundle.rs:157-180 | as `ResolvedSpec` |
| Bundle.SelfContained.ProcessExecutable | src/macos/bundle.rs:185-211 | as `ExecutableSpec` |
| Bundle.SelfContained.ProcessModule | src/macos/bundle.rs:213-242 | as `ModuleSpec` |
| Bundle.SelfContained.ProcessDependencies | src/macos/bundle.rs:219-228 | the loop that builds `paths_to_change` ends in the state and changes of `ModuleLoop` |
| Bundle.SelfContained.ProcessListed | src/macos/bundle.rs:220-228 | as `ListedSpec` |
| Bundle.SelfContained.ProcessDependency | src/macos/bundle.rs:244-292 | as `DependencySpec` |
| Bundle.SelfContained.ProcessLocated | src/macos/bundle.rs:250-291 | as `LocatedDependencySpec` |
| Bundle.SelfContained.CheckKnown | src/macos/bundle.rs:254-261 | as `KnownDependency`, changing nothing |
| Bundle.SelfContained.AddDependency | src/macos/bundle.rs:262-290 | as `NewDependencySpec` |
| Bundle.SelfContained.Record | src/macos/bundle.rs:264-266 | the key is inserted into `processed_libraries` and `otool -L` logged, nothing else |
| Bundle.SelfContained.LoadDependency | src/macos/bundle.rs:266-290 | as `LoadedDependencySpec` |
| Bundle.SelfContained.CopyRoot | src/macos/bundle.rs:267-290 | as `CopyRootSpec` |
| Bundle.SelfContained.Install | src/macos/bundle.rs:281-289 | as `InstallSpec` |
| Signing.IsInFramework | src/macos/codesign.rs:137-139 | the parent ends with the components `Contents`, `Frameworks` |
| Signing.ExtensionIs | src/macos/codesign.rs:200-207 | the extension is `ext` exactly when the file name ends with `"." + ext` after at least one other character |
| Signing.IsFrameworkBundle | src/macos/codesign.rs:205-207 | exactly the paths whose file name ends in `.framework` after at least one character |
| Signing.IsAppBundle | src/macos/codesign.rs:200-203 | exactly the paths whose name ends in `.app` after at least one character and that hold a file `Contents/Info.plist` |
| Signing.IsFrameworkDylib | src/macos/codesign.rs:141-167 | the dylib test is `is_in_framework` of the bundler's dependency root, and panics on the same paths |
| Signing.IsBundleExecutable | src/macos/codesign.rs:169-187 | a bundle executable has a file name and lies directly in a directory named `MacOS` |
| Signing.GetBundleExecutable | src/macos/codesign.rs:189-198 | an unreadable plist is a `Plist` error; success exactly when the plist has a `CFBundleExecutable` string, which is the result |
| Signing.BundleExecutableExactly | src/macos/codesign.rs:169-187 | a file is a bundle executable exactly when it is `<b>/Contents/MacOS/<name>`, `<name>` is the `CFBundleExecutable` of `<b>/Contents/Info.plist`, and `<b>` is an app bundle |
| Signing.SignCommand | src/macos/codesign.rs:114-128 | `--entitlements` with the entitlements file is passed exactly for an app bundle, and the signed path is the last argument |
| Signing.SignAppend | src/macos/codesign.rs:129-131 | appending a signing adds its path, and the log stays duplicate-free exactly when the path was not signed before |
| Signing.SignedSetHas | src/macos/codesign.rs:129-131 | the signed set holds exactly the paths of the log's commands |
| Signing.DistinctPairwise | src/macos/codesign.rs:103-134 | "every path signed once" means no two commands of the log sign the same path |
| Signing.SignStepTrans | src/macos/codesign.rs:43-134 | the step relation of the signer composes |
| Signing.CodesignSpec | src/macos/codesign.rs:103-134 | a canonicalize failure is the error; a resolved path already in `done` is skipped; any other is signed once and added to `done` exactly when signing succeeded |
| Signing.AppBundleSpec | src/macos/codesign.rs:48-58 | a path that is no app bundle is an error; on success the contents were processed first and the bundle itself, with entitlements, is signed last and is in `done` |
| Signing.FrameworkBundleSpec | src/macos/codesign.rs:60-70 | as for an app bundle, without entitlements |
| Signing.FolderSpec | src/macos/codesign.rs:72-101 | a directory that cannot be read is a `ReadDir` error; otherwise signing keeps "each path signed once" |
| Signing.EntriesSpec | src/macos/codesign.rs:73-98 | the entries loop keeps "each path signed once" |
| Signing.EntrySpec | src/macos/codesign.rs:80-97 | a directory is processed as an app bundle, else a framework bundle, else a plain folder; a non-binary, a bundle executable or a framework dylib is left alone; any other binary is signed without entitlements |
| Signing.PassSignsOnce | src/macos/codesign.rs:43-134 | a whole pass never signs one canonical path twice, and on success `done` is exactly the set of signed paths |
| Signing.CodeSign.constructor | src/macos/codesign.rs:30-41 | a fresh signer has signed nothing |
| Signing.CodeSign.Perform | src/macos/codesign.rs:43-46 | as `AppBundleSpec` on the bundle of the options |
| Signing.CodeSign.ProcessAppBundle | src/macos/codesign.rs:48-58 | as `AppBundleSpec` |
| Signing.CodeSign.ProcessFrameworkBundle | src/macos/codesign.rs:60-70 | as `FrameworkBundleSpec` |
| Signing.CodeSign.ProcessFolder | src/macos/codesign.rs:72-101 | as `FolderSpec` |
| Signing.CodeSign.ProcessEntry | src/macos/codesign.rs:77-97 | as `EntrySpec` |
| Signing.CodeSign.Codesign | src/macos/codesign.rs:103-134 | as `CodesignSpec` |
| Merge.Sizes | src/macos/universal.rs:67-74 | one size per path when every metadata call succeeds |
| Merge.SizesMeaning | src/macos/universal.rs:67-74 | the sizes are collected exactly when every path has metadata, and then they are those paths' sizes |
| Merge.SizesFirstFailure | src/macos/universal.rs:67-73 | the error collected is that of the first path whose metadata fails |
| Merge.FirstMetaFailureCons | src/macos/universal.rs:67-73 | a first failure in the tail is a first failure of the whole list |
| Merge.AllEqual | src/macos/universal.rs:76 | `all(s == first)` holds exactly when every size is the first |
| Merge.AreFilesSame | src/macos/universal.rs:66-77 | a metadata failure is the error; an empty list panics; otherwise true exactly when every size equals the first path's size |
| Merge.PathArgs | src/macos/universal.rs:122 | `lipo` is given every path, in order |
| Merge.Counterparts | src/macos/universal.rs:94-105 | an entry's paths are its name in each bundle, in input order |
| Merge.LipoCommandInto | src/macos/universal.rs:119-124 | the `lipo` of an entry joins its copies from every bundle, in order, into the entry's place in the output |
| Merge.LipoCommand | src/macos/universal.rs:120-124 | `lipo -create` with the paths in order, then `-output` and the destination |
| Merge.MergeStepTrans | src/macos/universal.rs:79-146 | the merge step relation composes |
| Merge.MergeStepUp | src/macos/universal.rs:116-118 | commands of a subdirectory walk join files below the roots into the output |
| Merge.BelowChild | src/macos/universal.rs:116-118 | what lies below a child lies below its directory |
| Merge.DirSpec | src/macos/universal.rs:79-146 | an unreadable first directory is a `ReadDir` error; the walk only appends `lipo` commands that join files below the inputs into the output |
| Merge.EntriesSpec | src/macos/universal.rs:82-143 | the entries loop only appends such `lipo` commands |
| Merge.EntrySpec | src/macos/universal.rs:86-106 | a metadata failure of the entry is the error; a missing counterpart in another bundle is `BundlesNotIdentical`; otherwise the entry is handled by what its node is in the first bundle |
| Merge.NodeSpec | src/macos/universal.rs:108-142 | a link, a directory and a file are each handled by their own case |
| Merge.LinkSpec | src/macos/universal.rs:108-115 | a link is recreated with its own target, not followed; a `ReadLink` failure is the error |
| Merge.SubdirSpec | src/macos/universal.rs:116-118 | the directory is created, and walked with its counterparts in every bundle in input order; a creation failure is the error |
| Merge.FileSpec | src/macos/universal.rs:119-142 | a file is joined by `lipo` exactly when its first copy is a binary and the sizes differ; it is copied from the first bundle when it is no binary or the sizes agree; otherwise nothing changes and it is an error |
| Merge.BinarySpec | src/macos/universal.rs:119-142 | sizes that differ mean `lipo`, equal sizes a copy, a failure the error |
| Merge.NeedsLipoExactly | src/macos/universal.rs:119 | `lipo` is chosen exactly when the first copy starts with a Mach-O magic number, every copy has metadata and some size differs from the first |
| Merge.CopySpec | src/macos/universal.rs:136-142 | `fs::copy` from the first bundle, with no command logged |
| Merge.LipoSpec | src/macos/universal.rs:119-135 | `lipo -create <all> -output <dest>` is logged; it succeeds exactly when it ran with status zero; a non-zero status is a `Command` error with no output |
| Merge.MissingInput | src/macos/universal.rs:36-43 | the index found is one of the inputs |
| Merge.MissingInputMeaning | src/macos/universal.rs:36-43 | no input is missing exactly when all exist; otherwise the index named is the first input missing |
| Merge.MissingInputFirst | src/macos/universal.rs:36-43 | the first input missing is the one named |
| Merge.PerformSpec | src/macos/universal.rs:35-61 | a missing input is an error naming the first; an existing output without the delete flag is an error; with the flag it is removed first, and a removal failure is the error; otherwise the output is created with `create_dir_all` and the walk starts from that file system; the merge only appends `lipo` commands from the inputs into the output |
| Merge.AllPresent | src/macos/universal.rs:100 | the loop answers whether every path exists |
| Merge.FirstMissing | src/macos/universal.rs:36-43 | the loop over the inputs finds the first input missing |
| Merge.Universal.constructor | src/macos/universal.rs:31-33 | a fresh merger has logged nothing |
| Merge.Universal.Perform | src/macos/universal.rs:35-61 | as `PerformSpec` |
| Merge.Universal.ProcessDir | src/macos/universal.rs:79-146 | as `DirSpec` |
| Merge.Universal.ProcessEntry | src/macos/universal.rs:86-142 | as `EntrySpec` |
| Merge.Universal.ProcessNode | src/macos/universal.rs:108-142 | as `NodeSpec` |
| Merge.Universal.ProcessLink | src/macos/universal.rs:108-115 | as `LinkSpec` |
| Merge.Universal.ProcessSubdir | src/macos/universal.rs:116-118 | as `SubdirSpec` |
| Merge.Universal.ProcessFile | src/macos/universal.rs:119-142 | as `FileSpec` |
| Merge.Universal.Lipo | src/macos/universal.rs:119-135 | as `LipoSpec` |

## Left out

- `src/macos/notarize.rs` is not part of this model. It talks to a remote service, with polling, random temporary names and `ditto`.
- `src/main.rs` is not part of this model. It parses command-line options, sets up the logger and sets exit codes. `clap` demands at least one input path for the universal merge, so `Merge.Universal.Perform` requires one.
- Logging (`debug!`, `trace!`) is not modelled, because it does not affect results.
- The behaviour of `otool`, `install_name_tool`, `codesign` and `lipo` is not modelled. Each is an oracle giving an exit status and output, or a failure to start.
  - `otool` depends only on the bytes of the file it reads.
  - A tool run leaves the model's file system unchanged. Link edits and signatures change only the log.
- Property-list parsing is an oracle on the bytes of `Info.plist`.
- The `plist` crate's own error value is not modelled: a `Plist` error carries only the path of the file.
- Permission bits: `executable` is one flag per file, which `fs::copy` carries over.
- UTF-8 handling: output and names are already strings, so `from_utf8_lossy` and `to_string_lossy` are identities.
- The escaping that `{:?}` applies to special characters: `Strings.Quoted` only adds the double quotes.
- A failure while iterating directory entries (`entry?`) is not modelled, because the listing of a directory never fails halfway.
- `read_link` right after a successful symbolic-link metadata call cannot fail in the model.
- `Paths.ParsePath` drops `.` components, while Rust keeps a leading `./` in the text of a joined path. Where such text reaches a logged argument or a `{:?}` message, the model prints the path without the `./`.
- OS limits: paths are bounded by a fixed length (1024 bytes, as `PATH_MAX`) and link chains by a fixed number of hops (32). These bounds are what makes the tree walks terminate.
- `Fs.CreateDirAll`, `Fs.CopyFile`, `Fs.RemoveDirAll`: their contracts state only what the rest of the model relies on (success conditions, no new file contents), not every detail of the standard library's behaviour, which their bodies carry.
- `Utils.CopyDirSpec`, `Utils.CopySpec`, `Utils.CopyEntries`, `Utils.CopyEntry`, `Utils.Copy`, `Utils.CopyDir`, `Utils.CopyOne`: their contracts state the dispatch of `copy`, the error for an existing destination, the link case and that no new file contents appear. They do not state that the destination tree ends up with exactly the source's entry names and contents; no tree-equality property of a whole copy is proved.
- `Bundle.DirSpec`, `Bundle.EntriesSpec`, `Bundle.ResolvedSpec`, `Bundle.SelfContained.ProcessDir`, `Bundle.SelfContained.ProcessResolved`: state which parts of the state change and which paths may be recorded, not the full layout of the copied tree.
- `Bundle.ModuleLoop`, `Bundle.DependencySpec`, `Bundle.SelfContained.ProcessDependencies`, `Bundle.SelfContained.ProcessDependency`: their own contracts state the "only grows" invariant. What the loop computes is stated by `Bundle.ModuleLoopComplete` (it is exactly the dependency calls of `Bundle.Resolutions`, keeping the pairs whose name differs), `Bundle.ModuleLoopChanges` and `Bundle.SystemDependenciesIgnored`; of each call's result the model states only that it is the `@rpath/` key of the path resolved in the state that call starts from (`Bundle.DependencyKey`, `Bundle.ResolvedNames`), not which file that is after earlier copies.
- `Fs.Size`: a directory's size is 0, while `metadata().len()` of a directory is the OS's `st_size`. This reaches `Merge.AreFilesSame` only when a counterpart is a directory.
- `Fs.CopyFile`: copying onto a dangling symbolic link fails with `NotFound`, while `fs::copy` creates the link's target. The core's calls do not reach this case.
- `Fs.Canonicalize`: an empty path resolves to the start place, while the OS refuses it with `ENOENT`. The core's calls do not reach this case.
- `Merge.Sizes`, `Merge.MissingInput`: their own contracts are bounds only. What they mean is stated by `Merge.SizesMeaning`, `Merge.SizesFirstFailure`, `Merge.MissingInputMeaning` and `Merge.MissingInputFirst`.
