/** The pack pipeline (`actionPack`): compile the exclude and include patterns,
    pick the archive format from the output name, run the build script, name
    the build outputs, walk every include root, append the command-line adds,
    add each sanitized name once, close the archive, and list the build
    outputs to remove.

    Everything outside the program is a parameter (`Env`): the regular-expression
    engine, `sanitizedName`, the filesystem below each include root, the base
    name of the working directory, the outcome of each shell command, of
    creating the archive, of each `Add` and of `Close`. */
module PackPipeline {
  import opened Seqs
  import opened FileWalk
  import opened Archive

  /** The pack configuration fields the pipeline reads. */
  datatype PackConfig = PackConfig(
    includes: seq<string>,
    excludes: seq<string>,
    depth: int,
    script: seq<string>,
    outfiles: seq<string>)

  /** The command-line options the pipeline reads: target OS, output name,
      `nobuild`, the repeated `add` paths and `rm`. */
  datatype Options = Options(
    goos: string,
    output: string,
    nobuild: bool,
    adds: seq<string>,
    rm: bool)

  datatype Env = Env(
    hostWindows: bool,
    compiles: string -> bool,
    matches: (string, string) -> bool,
    sanitize: string -> string,
    fsAt: string -> Node,
    cwdBase: string,
    run: seq<string> -> bool,
    createOk: Format -> bool,
    addOk: string -> bool,
    closeOk: bool)

  /** How a pack run ends. `Packed` exits normally; `PatternPanic` is the panic
      of `regexp.MustCompile`; `Unsupported` is `os.Exit(1)`; every other
      failure is reported by the deferred `log.Fatal`. */
  datatype Status = Packed | PatternPanic | Unsupported | CreateFailed | ScriptFailed | AddFailed | CloseFailed

  /** What a pack run did: how it ended, the archive format it opened, the
      script commands it ran, the paths passed to `Add`, whether `Close` was
      called, and the build outputs it removed. */
  datatype PackResult = PackResult(
    status: Status,
    writer: Option<Format>,
    ran: seq<string>,
    added: seq<string>,
    closed: bool,
    removed: seq<string>)

  /** A run that stopped before the archive was opened. */
  function Halted(status: Status): PackResult
  {
    PackResult(status, None, [], [], false, [])
  }

  /** The pattern source compiled for a configured pattern (pack.go:99, 103). */
  function Anchor(str: string): string
  {
    "^" + str + "$"
  }

  function Anchored(strs: seq<string>): seq<string>
  {
    seq(|strs|, i requires 0 <= i < |strs| => Anchor(strs[i]))
  }

  /** The tree found at each include root is rooted at that path, as
      `filepath.Walk` names its root by the path it was given. */
  ghost predicate RootsAt(env: Env)
  {
    forall root :: env.fsAt(root).path == root
  }

  /** `os.PathSeparator` of the host. */
  function PathSep(hostWindows: bool): char
  {
    if hostWindows then '\\' else '/'
  }

  /** The process `shExecString` starts for a script command (pack.go:15-20). */
  function ShellArgv(hostWindows: bool, command: string): seq<string>
  {
    if hostWindows then ["cmd", "/c", command] else ["bash", "-c", command]
  }

  /** Whether a script command exits successfully. */
  function CommandOk(env: Env): string -> bool
  {
    command => env.run(ShellArgv(env.hostWindows, command))
  }

  /** A build output's file name for the target OS. */
  function ExeName(goos: string, filename: string): string
  {
    if goos == "windows" then filename + ".exe" else filename
  }

  function ExeNames(goos: string, names: seq<string>): seq<string>
  {
    seq(|names|, i requires 0 <= i < |names| => ExeName(goos, names[i]))
  }

  /** The `buildFiles` variable after the build step: the configured outfiles,
      or, when the build ran and none are configured, the base name of the
      working directory. */
  function BuildFiles(cfg: PackConfig, opts: Options, env: Env): seq<string>
  {
    if !opts.nobuild && |cfg.outfiles| == 0 then [env.cwdBase] else cfg.outfiles
  }

  /** The walk configuration `findFiles` uses for the include root `root`. */
  function RootWalker(cfg: PackConfig, env: Env, root: string): Walker
  {
    var sep := PathSep(env.hostWindows);
    Walker(Seps(root, sep), cfg.depth, sep, Anchored(cfg.excludes), env.matches)
  }

  /** The walk results of `roots`, one root after another. */
  function WalkIncludes(roots: seq<string>, cfg: PackConfig, env: Env): seq<string>
    decreases |roots|
  {
    if roots == [] then []
    else
      var root := roots[|roots| - 1];
      WalkIncludes(roots[..|roots| - 1], cfg, env) + Walk(env.fsAt(root), RootWalker(cfg, env, root))
  }

  /** The `files` list before deduplication (pack.go:130-187): build outputs,
      then the walk of every include root, then the command-line adds. */
  function FileList(cfg: PackConfig, opts: Options, env: Env): seq<string>
  {
    (if opts.nobuild then [] else ExeNames(opts.goos, BuildFiles(cfg, opts, env)))
      + WalkIncludes(cfg.includes, cfg, env) + opts.adds
  }

  function Sanitized(sanitize: string -> string, files: seq<string>): seq<string>
  {
    seq(|files|, i requires 0 <= i < |files| => sanitize(files[i]))
  }

  /** The names the add loop passes to `Add` when no `Add` fails. */
  function ArchiveList(cfg: PackConfig, opts: Options, env: Env): seq<string>
  {
    Dedup(Sanitized(env.sanitize, FileList(cfg, opts, env)))
  }

  /** The whole run of `actionPack`, as a function of its inputs. */
  function Pack(cfg: PackConfig, opts: Options, env: Env): PackResult
  {
    if !AllOk(Anchored(cfg.excludes), env.compiles) || !AllOk(Anchored(cfg.includes), env.compiles) then
      Halted(PatternPanic)
    else
      match FormatOf(opts.output)
      case None => Halted(Unsupported)
      case Some(fmt) =>
        if !env.createOk(fmt) then Halted(CreateFailed) else Packing(cfg, opts, env, fmt)
  }

  /** The run once the archive of format `fmt` is open: the build step, then
      the archiving. */
  function Packing(cfg: PackConfig, opts: Options, env: Env, fmt: Format): PackResult
  {
    if !opts.nobuild && !AllOk(cfg.script, CommandOk(env)) then
      PackResult(ScriptFailed, Some(fmt), TakeThroughFail(cfg.script, CommandOk(env)), [], false, [])
    else
      Archiving(cfg, opts, env, fmt, if opts.nobuild then [] else cfg.script)
  }

  /** The run once the build step is over, `ran` being the commands it ran:
      the adds, `Close`, and the removal of the build outputs. */
  function Archiving(cfg: PackConfig, opts: Options, env: Env, fmt: Format, ran: seq<string>): PackResult
  {
    var list := ArchiveList(cfg, opts, env);
    if !AllOk(list, env.addOk) then
      PackResult(AddFailed, Some(fmt), ran, TakeThroughFail(list, env.addOk), false, [])
    else
      PackResult(if env.closeOk then Packed else CloseFailed, Some(fmt), ran, list, true,
                 if opts.rm then ExeNames(opts.goos, BuildFiles(cfg, opts, env)) else [])
  }

  /** `regexp.MustCompile("^"+str+"$")` for each pattern in order (pack.go:97-104);
      `ok` is false when one of them does not compile and the call panics. */
  method CompileAll(strs: seq<string>, compiles: string -> bool) returns (res: seq<string>, ok: bool)
    ensures ok <==> AllOk(Anchored(strs), compiles)
    ensures ok ==> res == Anchored(strs)
  {
    res := [];
    var i := 0;
    while i < |strs|
      invariant 0 <= i <= |strs|
      invariant res == Anchored(strs[..i])
      invariant AllOk(res, compiles)
    {
      var re := "^" + strs[i] + "$";
      assert Anchored(strs)[i] == re;
      if !compiles(re) {
        return res, false;
      }
      res := res + [re];
      assert Anchored(strs[..i + 1]) == Anchored(strs[..i]) + [re];
      i := i + 1;
    }
    assert strs[..i] == strs;
    ok := true;
  }

  /** `shExecString`: run one command under the host's shell. */
  method ShellExec(env: Env, command: string) returns (ok: bool)
    ensures ok == CommandOk(env)(command)
  {
    var argv := ShellArgv(env.hostWindows, command);
    ok := env.run(argv);
  }

  /** The script loop (pack.go:155-159): commands run in order and the first
      failing one ends the loop. */
  method RunScript(script: seq<string>, env: Env) returns (ran: seq<string>, ok: bool)
    ensures ran == TakeThroughFail(script, CommandOk(env))
    ensures ok <==> AllOk(script, CommandOk(env))
  {
    ran := [];
    var i := 0;
    while i < |script|
      invariant 0 <= i <= |script|
      invariant ran == script[..i]
      invariant AllOk(ran, CommandOk(env))
    {
      var command := script[i];
      ran := ran + [command];
      var succeeded := ShellExec(env, command);
      if !succeeded {
        assert script == script[..i] + [command] + script[i + 1..];
        TakeThroughFailAt(script[..i], command, script[i + 1..], CommandOk(env));
        return ran, false;
      }
      assert script[..i + 1] == ran;
      i := i + 1;
    }
    assert script[..i] == script;
    ok := true;
  }

  /** The loops over `buildFiles` (pack.go:168-173 and 204-209): each name,
      with ".exe" on the Windows target, appended to `files`. */
  method AppendExeNames(goos: string, names: seq<string>, files: seq<string>) returns (out: seq<string>)
    ensures out == files + ExeNames(goos, names)
  {
    out := files;
    var i := 0;
    while i < |names|
      invariant 0 <= i <= |names|
      invariant out == files + ExeNames(goos, names[..i])
    {
      var filename := names[i];
      if goos == "windows" {
        filename := filename + ".exe";
      }
      out := out + [filename];
      assert ExeNames(goos, names[..i + 1]) == ExeNames(goos, names[..i]) + [filename];
      i := i + 1;
    }
    assert names[..i] == names;
  }

  /** The include loop (pack.go:177-184): `findFiles` for each include root in
      configured order, its results appended to `files`. */
  method AppendIncludes(cfg: PackConfig, env: Env, skips: seq<string>, files: seq<string>)
    returns (out: seq<string>)
    requires skips == Anchored(cfg.excludes) && RootsAt(env)
    ensures out == files + WalkIncludes(cfg.includes, cfg, env)
  {
    out := files;
    var i := 0;
    while i < |cfg.includes|
      invariant 0 <= i <= |cfg.includes|
      invariant out == files + WalkIncludes(cfg.includes[..i], cfg, env)
    {
      var filename := cfg.includes[i];
      var root := env.fsAt(filename);
      var fs := FindFiles(filename, cfg.depth, skips, env.matches, PathSep(env.hostWindows), root);
      assert fs == Walk(root, RootWalker(cfg, env, filename));
      assert cfg.includes[..i + 1][..i] == cfg.includes[..i];
      out := out + fs;
      i := i + 1;
    }
    assert cfg.includes[..i] == cfg.includes;
  }

  /** The add loop (pack.go:188-199): each file is sanitized, skipped when it
      was seen before, and otherwise passed to `Add`; the first failing `Add`
      ends the loop. */
  method AddUnique(z: Archiver, files: seq<string>, sanitize: string -> string) returns (ok: bool)
    requires z.added == [] && !z.closed
    modifies z
    ensures !z.closed
    ensures z.added == TakeThroughFail(Dedup(Sanitized(sanitize, files)), z.addOk)
    ensures ok <==> AllOk(Dedup(Sanitized(sanitize, files)), z.addOk)
  {
    ghost var s := Sanitized(sanitize, files);
    var uniqset: set<string> := {};
    var i := 0;
    while i < |files|
      invariant 0 <= i <= |files|
      invariant !z.closed
      invariant z.added == Dedup(s[..i])
      invariant AllOk(z.added, z.addOk)
      invariant forall x :: x in uniqset <==> x in s[..i]
    {
      var file := sanitize(files[i]);
      assert file == s[i];
      DedupSeenStep(s, i, uniqset);
      if file in uniqset {
        i := i + 1;
        continue;
      }
      uniqset := uniqset + {file};
      var added := z.Add(file);
      if !added {
        DedupFailsAt(s, i, z.addOk);
        return false;
      }
      i := i + 1;
    }
    assert s[..i] == s;
    ok := true;
  }

  /** `actionPack` (pack.go:59-211). */
  method ActionPack(cfg: PackConfig, opts: Options, env: Env) returns (r: PackResult)
    requires RootsAt(env)
    ensures r == Pack(cfg, opts, env)
  {
    var skips, skipsOk := CompileAll(cfg.excludes, env.compiles);
    if !skipsOk {
      return Halted(PatternPanic);
    }
    var needs, needsOk := CompileAll(cfg.includes, env.compiles);
    if !needsOk {
      return Halted(PatternPanic);
    }

    var format := FormatOf(opts.output);
    if format.None? {
      return Halted(Unsupported);
    }
    var fmt := format.value;
    if !env.createOk(fmt) {
      return Halted(CreateFailed);
    }
    var z := new Archiver(fmt, env.addOk, env.closeOk);
    r := BuildAndArchive(z, cfg, opts, env, skips);
  }

  /** The build step of `actionPack` and what follows it (pack.go:130-211). */
  method BuildAndArchive(z: Archiver, cfg: PackConfig, opts: Options, env: Env, skips: seq<string>)
    returns (r: PackResult)
    requires z.added == [] && !z.closed && z.addOk == env.addOk && z.closeOk == env.closeOk
    requires skips == Anchored(cfg.excludes) && RootsAt(env)
    modifies z
    ensures r == Packing(cfg, opts, env, z.format)
    ensures z.added == r.added && z.closed == r.closed
  {
    var files: seq<string> := [];
    var buildFiles := cfg.outfiles;
    var ran: seq<string> := [];
    if !opts.nobuild {
      var scriptOk;
      ran, scriptOk := RunScript(cfg.script, env);
      if !scriptOk {
        return PackResult(ScriptFailed, Some(z.format), ran, [], false, []);
      }
      if |buildFiles| == 0 {
        buildFiles := buildFiles + [env.cwdBase];
      }
      files := AppendExeNames(opts.goos, buildFiles, files);
    }
    assert buildFiles == BuildFiles(cfg, opts, env);
    assert files == if opts.nobuild then [] else ExeNames(opts.goos, BuildFiles(cfg, opts, env));
    r := ArchiveFiles(z, cfg, opts, env, skips, files, ran, buildFiles);
  }

  /** The end of `actionPack` (pack.go:176-211): walk the include roots, append
      the adds, add each sanitized name once, close the archive and remove the
      build outputs when asked to. */
  method ArchiveFiles(z: Archiver, cfg: PackConfig, opts: Options, env: Env, skips: seq<string>,
                      built: seq<string>, ran: seq<string>, buildFiles: seq<string>)
    returns (r: PackResult)
    requires z.added == [] && !z.closed && z.addOk == env.addOk && z.closeOk == env.closeOk
    requires skips == Anchored(cfg.excludes) && RootsAt(env)
    requires buildFiles == BuildFiles(cfg, opts, env)
    requires built == if opts.nobuild then [] else ExeNames(opts.goos, buildFiles)
    modifies z
    ensures r == Archiving(cfg, opts, env, z.format, ran)
    ensures z.added == r.added && z.closed == r.closed
  {
    var files := AppendIncludes(cfg, env, skips, built);
    files := files + opts.adds;
    assert files == FileList(cfg, opts, env);

    var addedAll := AddUnique(z, files, env.sanitize);
    if !addedAll {
      return PackResult(AddFailed, Some(z.format), ran, z.added, false, []);
    }
    var closeOk := z.Close();

    var removed: seq<string> := [];
    if opts.rm {
      removed := AppendExeNames(opts.goos, buildFiles, []);
    }
    r := PackResult(if closeOk then Packed else CloseFailed, Some(z.format), ran, z.added, z.closed, removed);
  }
}
