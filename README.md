# gopack pack pipeline, modelled in Dafny

This project models the `pack` command of gopack (`pack.go`). The command
builds a Go program with a configured script and packs the result into a
zip, tar or tar.gz archive, together with the files found under the
configured include roots and the files named with `--add`. The model covers
two parts:

- **`findFiles`**: a depth-bounded, exclude-filtered walk of one include
  root. The filesystem below a root is a finite tree of `Node`s, each with
  a base name, a full path, a directory flag, a "visiting it failed" flag
  and its entries in listing order. `filepath.Walk` is modelled as a
  recursive method (`WalkNode`) that calls the walk callback (`Visit`) on
  each entry. `Visit` is proved to decide exactly the predicate `Listable`,
  and `WalkNode` and `FindFiles` are proved equal to the pre-order function
  `Walk`.
  Positions in the tree (`WalkOrder`) then show which entries `Walk` lists
  and in what order.
- **`actionPack`**: pattern compilation, format choice by output suffix,
  the build script, build-output names, the file list, the
  deduplicate-and-add loop, `Close`, and the removal list. The method
  `ActionPack` is proved equal to the function `Pack`. The pipeline's
  promises are lemmas about `Pack` in `PackProps`.

Everything outside the program is a parameter of type `Env`:

- the regular-expression engine (`compiles`, `matches`);
- `sanitizedName` (`sanitize`);
- the tree found at each include root (`fsAt`), rooted at that path (`RootsAt`, which `ActionPack` requires);
- the base name of the working directory (`cwdBase`);
- the exit status of each shell process (`run`, applied to the argument
  vector `shExecString` would start);
- the outcome of creating the archive, of each `Add` and of `Close`.

The archive writer is the class `Archiver`. It records the paths passed to
`Add` and whether `Close` was called. The encodings are not modelled.

Points where the code's behaviour is easy to misread (the model follows the code):

- A directory deeper than `depth` is neither listed nor descended into
  (pack.go:30-35 return `SkipDir` before the path is appended).
- The removal list is `buildFiles` after the build step. Line 165 adds the
  working-directory default to `buildFiles`, so when the build ran with no
  configured outfiles that default is removed as well. Only with `nobuild`
  is the list the configured outfiles alone.
- The build outputs are removed after `Close` even when `Close` failed. The
  failure is only reported afterwards, by the deferred `log.Fatal`.
- The walk callback only ever returns `nil` or `SkipDir`, so `filepath.Walk`
  never returns an error here. The error branch at pack.go:179-182 is
  therefore unreachable, and `FindFiles` returns no error. (That branch also
  declares a new `err` with `:=`, so if it were taken the deferred handler
  would not report it.)

Files: `seqs.dfy` (stop-at-first-failure runs, deduplication),
`walk.dfy` (tree, walk specification, callback and walk methods),
`walk_props.dfy` (positions, exact listing, pre-order, pruning, depth),
`archive.dfy` (formats, `Archiver`), `pack.dfy` (configuration,
environment, `Pack`, `ActionPack` and its stage methods), `pack_props.dfy`
(pipeline lemmas).

## Model

| member | source | states |
|---|---|---|
| `FileWalk.Visit` | pack.go:25-55 | the callback appends an entry exactly when its visit did not fail, it is not a directory deeper than `depth`, and no exclude pattern matches its base name or full path; it answers SkipDir exactly for a directory that did not fail and is not appended |
| `FileWalk.WalkNode` | pack.go:25 | walking a subtree with the callback appends exactly `Walk` of that subtree to the accumulated list: entries in pre-order, with failed entries, files and SkipDir directories not descended into |
| `FileWalk.FindFiles` | pack.go:22-57 | the result is `Walk` of the tree rooted at `path`, with depths measured from the separator count of `path`, so the root is at depth 0 and, when listed, is the first path returned |
| `WalkOrder.WalkListsListedInPreOrder` | pack.go:25-55 | the walk result is exactly the paths of the listed entries: each listed position appears once (no position twice), nothing else appears, and positions come in pre-order (an entry before its subtree, earlier siblings' subtrees before later ones) |
| `WalkOrder.ListedMeans` | pack.go:26-53 | an entry is listed if and only if it is in the tree, it is listable, and every entry on the way down to it is a listed directory |
| `WalkOrder.ReachedListedIffNotExcluded` | pack.go:37-50 | an entry the walk reaches, whose visit did not fail and which is not a too-deep directory, is listed if and only if no exclude pattern matches its base name or its path |
| `WalkOrder.PrunedBelow` | pack.go:26-53 | nothing below an entry the walk does not enter is listed: not below a failed entry, a too-deep directory or an excluded directory, even where those entries would not match an exclude pattern |
| `WalkOrder.ListedDepth` | pack.go:30-35 | every listed directory is at most `depth` deep, in any tree; in a tree whose child paths have at most one more separator than their parent's, every listed file below the root is at most `depth + 1` deep |
| `WalkOrder.FailedEntrySkipped` | pack.go:26-29 | a failed entry does not stop the walk: the walk of its directory equals the walk with that entry removed |
| `WalkOrder.WalkPosListed` | pack.go:25-55 | a position is among the walk's positions if and only if it is listed |
| `WalkOrder.WalkPosPreOrdered` | pack.go:25-55 | the walk's positions are strictly increasing in pre-order |
| `Archive.FormatOfExact` | pack.go:108-125 | the suffix checks cannot overlap: Zip is chosen exactly for ".zip", Tar exactly for ".tar", Tgz exactly for ".tgz" or ".tar.gz", and no format for any other name |
| `Archive.FormatOfExt` | pack.go:108-125 | any name ending in a format's extension selects that format; a ".tar.gz" name selects Tgz although it contains ".tar" |
| `Archive.Archiver.constructor` | pack.go:113-121 | a newly created archive has no entries and is not closed |
| `Archive.Archiver.Add` | pack.go:196 | `Add` is only called on an open archive, appends exactly the given path to the trace, and reports the outcome of the write |
| `Archive.Archiver.Close` | pack.go:201 | `Close` is only called on an open archive, adds nothing, and afterwards the archive is closed |
| `Seqs.TakeThroughFail` | pack.go:155-159 | a loop that stops at the first failing step performs a prefix of the steps: all of them when every step succeeds, otherwise up to and including the first failing one |
| `Seqs.TakeThroughFailAt` | pack.go:155-159 | when all steps before `x` succeed and `x` fails, exactly those steps and `x` are performed, whatever follows |
| `Seqs.Dedup` | pack.go:188-199 | the deduplicated list has no repeated element and holds exactly the elements of the input |
| `Seqs.DedupFirstOccurrenceOrder` | pack.go:188-199 | deduplication keeps elements in the order of their first occurrences in the input |
| `Seqs.DedupPrefix` | pack.go:188-199 | deduplicating a prefix of the input gives a prefix of the deduplicated input |
| `PackPipeline.CompileAll` | pack.go:97-104 | compiling succeeds exactly when every anchored pattern `"^"+str+"$"` compiles, and then yields those anchored patterns in order |
| `PackPipeline.RunScript` | pack.go:155-159 | the commands run are the script up to and including the first failing one, and the step succeeds exactly when every command succeeds; each command runs through `shExecString` (pack.go:15-20), as `cmd /c command` on a Windows host and `bash -c command` elsewhere |
| `PackPipeline.AppendExeNames` | pack.go:168-173 | each build name is appended in order, with ".exe" added on the Windows target |
| `PackPipeline.AppendIncludes` | pack.go:177-184 | the walk results of the include roots are appended one root after another, in configured order |
| `PackPipeline.AddUnique` | pack.go:188-199 | the paths passed to `Add` are the deduplicated sanitized file list up to and including the first failing `Add`; the loop succeeds exactly when every `Add` succeeds; `Close` is not called |
| `PackPipeline.ArchiveFiles` | pack.go:176-211 | the end of the run: walk results and adds follow the build outputs, then come the deduplicated adds, `Close` only after every add succeeded, and the removal list only with `rm`; the archive's own trace and closed flag are those of the result |
| `PackPipeline.BuildAndArchive` | pack.go:130-211 | with a failing script nothing is added to the archive and it is not closed; otherwise the build outputs lead the file list and archiving follows; the archive's own trace and closed flag are those of the result |
| `PackPipeline.ActionPack` | pack.go:59-211 | the whole run equals the specification `Pack`: pattern panic, unsupported suffix, create failure, script failure, add failure, close failure or success, with the commands run, the adds, the close flag and the removal list of each case |
| `PackProps.EarlyExitsDoNothing` | pack.go:97-128 | an invalid pattern, an unsupported suffix or a failed create ends the run before any command runs, any file is added or `Close` is called; with valid patterns the suffix is unsupported exactly when it is none of ".zip", ".tar", ".tgz", ".tar.gz" |
| `PackProps.WriterMatchesSuffix` | pack.go:108-125 | a run that gets past the archive creation wrote the format that the output suffix selects |
| `PackProps.ScriptRunsInOrder` | pack.go:133-159 | the commands run are a prefix of the script, every run command but the last succeeded, none run with `nobuild`, and all run when the build step succeeds |
| `PackProps.ScriptFailureEndsRun` | pack.go:155-159 | the run fails in the build step exactly when it gets there without `nobuild` and some command fails; then the last command run failed and no file was added and `Close` was not called |
| `PackProps.ScriptStopsAtFirstFailure` | pack.go:155-159 | when command `k` is the first to fail, exactly commands `0..k` run and the run ends with no add and no `Close` |
| `PackProps.BuildOutputsLeadFileList` | pack.go:131-187 | with `nobuild` the file list is the walk results followed by the adds; otherwise it starts with the build names (configured outfiles, or just the working directory's base name when there are none), each with ".exe" appended once on the Windows target |
| `PackProps.AddsAreDeduplicated` | pack.go:188-201 | the `Add` trace is a prefix of the deduplicated sanitized file list, so no name is added twice; `Close` is reached exactly when every add succeeded, and then the trace is that whole list; after a failing add nothing more is added |
| `PackProps.AddsFollowFirstOccurrence` | pack.go:178-199 | names are added in the order of their first occurrence in build outputs, then walk results, then adds, after sanitizing; later duplicates are dropped |
| `PackProps.ClosedArchiveHoldsEveryFile` | pack.go:188-201 | a run that reaches `Close` has added the sanitized name of every file of the list, each exactly once |
| `PackProps.RemovalFollowsClose` | pack.go:200-210 | build outputs are removed only with `rm` and only after `Close`, whatever `Close` returned; the list is `buildFiles` with the ".exe" rule, including the working-directory default when the build ran |

## Left out

- `cmds/install.go` (download, unzip, symlink, environment lookup) is I/O around the packer and is not modelled.
- The shell session is not modelled: the `GOOS`/`GOARCH` environment, echoing commands, and the `gom` alias for `go` (pack.go:83-91). A command's success is `run` applied to the argument vector, so the same command has the same outcome every time it appears in the script.
- Regular-expression semantics are not modelled. `compiles` and `matches` stand for `regexp.MustCompile` and `MatchString`. The include patterns are compiled (pack.go:101-104) and can panic the run, but the program never uses them afterwards, and neither does the model.
- `CreateZip`/`CreateTar`/`CreateTgz`, the entry encodings, the content of `Add` and `Close`, and `sanitizedName` are defined outside `pack.go`. They are the abstract outcomes `createOk`, `addOk`, `closeOk` and the function `sanitize`.
- `filepath.Walk` itself is library code. Each directory's children are taken in the order the walk lists them (Go sorts them by name). Directory status is as `os.Lstat` reports it, so symbolic links are not followed. Path joining is abstracted as `WellFormed`: a child's path has at most one separator more than its parent's. That holds on a Unix host. On a Windows host it holds only for include roots written with backslashes, because `filepath.Join` cleans its result and turns every '/' into '\\'; for a root written `a/b` the source prunes directories just below it too early and can list files deeper than `depth + 1`, and `Walk` does the same.
- Configuration loading (`DefaultPcfg`), `Settings.TargetDir` (only sanitized and created as a directory) and `goarch` are not modelled. The configuration and options are parameters.
- Side effects only: logging and log levels (pack.go:68-75), `os.MkdirAll` for the output and target directories (pack.go:106, 134-137), and the effect of `os.Remove` (pack.go:208). The model records the removal list. The deferred `log.Fatal`, `os.Exit(1)` and the panic are the `Status` of the result; process exit codes are not modelled.
- `os.Getwd` is not modelled: its result's base name is the parameter `cwdBase`, and its error is ignored as in the source.
- `PackPipeline.ShellExec`: its contract defines the abstraction of a shell process, `run` applied to the argument vector `shExecString` would start (pack.go:15-20); it has no property beyond that, and `RunScript` is where it is used.
- Go strings are byte sequences, while the model's strings are sequences of characters. `HasSuffix` and `Seps` agree with Go's `strings.HasSuffix` and `strings.Count` for valid UTF-8, because the suffixes and the separators are ASCII; invalid UTF-8 in paths is not modelled.
- A directory whose listing cannot be read is `failed`: it is neither listed nor descended into. That is what current `filepath.Walk` does, calling the callback once with the error. Older Go releases first called the callback without an error, which listed the directory, and reported the error afterwards; that behaviour is not modelled.
- `FileWalk.FindFiles`: returns no error value, because the `filepath.Walk` call in `findFiles` cannot fail with this callback (see above).
