/** Properties of the pack pipeline: early exits, the script run, the build
    outputs, deduplication and the order of the adds, and the removal list. */
module PackProps {
  import opened Seqs
  import opened FileWalk
  import opened Archive
  import opened PackPipeline

  predicate PatternsCompile(cfg: PackConfig, env: Env)
  {
    AllOk(Anchored(cfg.excludes), env.compiles) && AllOk(Anchored(cfg.includes), env.compiles)
  }

  predicate EarlyExit(s: Status)
  {
    s == PatternPanic || s == Unsupported || s == CreateFailed
  }

  /** An invalid pattern, an unsupported output suffix or a failure to create
      the archive ends the run before any command runs or any file is added;
      the suffix is unsupported exactly when it is none of ".zip", ".tar",
      ".tgz" and ".tar.gz". */
  lemma EarlyExitsDoNothing(cfg: PackConfig, opts: Options, env: Env)
    ensures EarlyExit(Pack(cfg, opts, env).status) ==>
      Pack(cfg, opts, env) == PackResult(Pack(cfg, opts, env).status, None, [], [], false, [])
    ensures !PatternsCompile(cfg, env) ==> Pack(cfg, opts, env).status == PatternPanic
    ensures PatternsCompile(cfg, env) ==>
      (Pack(cfg, opts, env).status == Unsupported <==>
        !HasSuffix(opts.output, ".zip") && !HasSuffix(opts.output, ".tar") &&
        !HasSuffix(opts.output, ".tgz") && !HasSuffix(opts.output, ".tar.gz"))
  {
    FormatOfExact(opts.output);
    if PatternsCompile(cfg, env) && FormatOf(opts.output).Some? {
      var fmt := FormatOf(opts.output).value;
      if env.createOk(fmt) {
        assert Pack(cfg, opts, env) == Packing(cfg, opts, env, fmt);
        PackingOpened(cfg, opts, env, fmt);
      }
    }
  }

  /** Once the archive is open the run no longer ends early. (A separate
      lemma so that the callers' proofs stay small.) */
  lemma PackingOpened(cfg: PackConfig, opts: Options, env: Env, fmt: Format)
    ensures !EarlyExit(Packing(cfg, opts, env, fmt).status)
    ensures Packing(cfg, opts, env, fmt).writer == Some(fmt)
  {
  }

  /** The archive opened is the one the suffix selects. */
  lemma WriterMatchesSuffix(cfg: PackConfig, opts: Options, env: Env)
    ensures !EarlyExit(Pack(cfg, opts, env).status) ==>
      PatternsCompile(cfg, env) && FormatOf(opts.output) == Pack(cfg, opts, env).writer &&
      Pack(cfg, opts, env).writer.Some? && env.createOk(Pack(cfg, opts, env).writer.value)
  {
  }

  /** Script commands run in configured order, and only while they succeed;
      with `nobuild` none runs, and when the build step succeeds all ran. */
  lemma ScriptRunsInOrder(cfg: PackConfig, opts: Options, env: Env)
    ensures Pack(cfg, opts, env).ran <= cfg.script
    ensures opts.nobuild ==> Pack(cfg, opts, env).ran == []
    ensures OkBeforeLast(Pack(cfg, opts, env).ran, CommandOk(env))
    ensures (!EarlyExit(Pack(cfg, opts, env).status) && Pack(cfg, opts, env).status != ScriptFailed
      && !opts.nobuild) ==> Pack(cfg, opts, env).ran == cfg.script
  {
    var r := Pack(cfg, opts, env);
    if PatternsCompile(cfg, env) && FormatOf(opts.output).Some? && env.createOk(FormatOf(opts.output).value) {
      var fmt := FormatOf(opts.output).value;
      assert r == Packing(cfg, opts, env, fmt);
      PackingRan(cfg, opts, env, fmt);
      TakeThroughFailOkBeforeLast(cfg.script, CommandOk(env));
    }
  }

  /** The commands the build step runs, and how it ends. */
  lemma PackingRan(cfg: PackConfig, opts: Options, env: Env, fmt: Format)
    ensures Packing(cfg, opts, env, fmt).ran ==
      if opts.nobuild then [] else if AllOk(cfg.script, CommandOk(env)) then cfg.script
      else TakeThroughFail(cfg.script, CommandOk(env))
    ensures Packing(cfg, opts, env, fmt).status == ScriptFailed <==>
      !opts.nobuild && !AllOk(cfg.script, CommandOk(env))
  {
    if opts.nobuild || AllOk(cfg.script, CommandOk(env)) {
      AddsShape(cfg, opts, env, fmt, if opts.nobuild then [] else cfg.script);
    }
  }

  /** The run fails in the build step exactly when it gets there and some
      command fails; the failing command is the last one run, and no file is
      added and `Close` is not called. */
  lemma ScriptFailureEndsRun(cfg: PackConfig, opts: Options, env: Env)
    ensures Pack(cfg, opts, env).status == ScriptFailed <==>
      PatternsCompile(cfg, env) && FormatOf(opts.output).Some? && env.createOk(FormatOf(opts.output).value) &&
      !opts.nobuild && !AllOk(cfg.script, CommandOk(env))
    ensures Pack(cfg, opts, env).status == ScriptFailed ==>
      var r := Pack(cfg, opts, env);
      0 < |r.ran| && !CommandOk(env)(r.ran[|r.ran| - 1]) && r.added == [] && !r.closed && r.removed == []
  {
    var r := Pack(cfg, opts, env);
    if PatternsCompile(cfg, env) && FormatOf(opts.output).Some? {
      var fmt := FormatOf(opts.output).value;
      if env.createOk(fmt) {
        assert r == Packing(cfg, opts, env, fmt);
        if !opts.nobuild && !AllOk(cfg.script, CommandOk(env)) {
          assert r.ran == TakeThroughFail(cfg.script, CommandOk(env));
        } else {
          AddsShape(cfg, opts, env, fmt, if opts.nobuild then [] else cfg.script);
        }
      }
    }
  }

  /** How the archiving stage ends. (A separate lemma so that the callers'
      proofs stay small.) */
  lemma AddsShape(cfg: PackConfig, opts: Options, env: Env, fmt: Format, ran: seq<string>)
    ensures Archiving(cfg, opts, env, fmt, ran).ran == ran
    ensures Archiving(cfg, opts, env, fmt, ran).status != ScriptFailed
    ensures Archiving(cfg, opts, env, fmt, ran).added
      == TakeThroughFail(ArchiveList(cfg, opts, env), env.addOk)
    ensures Archiving(cfg, opts, env, fmt, ran).closed <==> AllOk(ArchiveList(cfg, opts, env), env.addOk)
    ensures Archiving(cfg, opts, env, fmt, ran).status == AddFailed <==>
      !AllOk(ArchiveList(cfg, opts, env), env.addOk)
    ensures Archiving(cfg, opts, env, fmt, ran).closed <==>
      Archiving(cfg, opts, env, fmt, ran).status in {Packed, CloseFailed}
  {
  }

  /** The first failing command is the last one run. */
  lemma ScriptStopsAtFirstFailure(cfg: PackConfig, opts: Options, env: Env, k: nat)
    requires PatternsCompile(cfg, env) && FormatOf(opts.output).Some?
    requires env.createOk(FormatOf(opts.output).value) && !opts.nobuild
    requires k < |cfg.script| && !CommandOk(env)(cfg.script[k])
    requires forall i :: 0 <= i < k ==> CommandOk(env)(cfg.script[i])
    ensures Pack(cfg, opts, env).status == ScriptFailed
    ensures Pack(cfg, opts, env).ran == cfg.script[..k + 1]
    ensures Pack(cfg, opts, env).added == [] && !Pack(cfg, opts, env).closed
  {
    assert cfg.script == cfg.script[..k] + [cfg.script[k]] + cfg.script[k + 1..];
    TakeThroughFailAt(cfg.script[..k], cfg.script[k], cfg.script[k + 1..], CommandOk(env));
  }

  /** Build outputs lead the file list: the configured outfiles, or the base
      name of the working directory when there are none, each with ".exe"
      appended exactly once on the Windows target. With `nobuild` no build
      output is listed. */
  lemma BuildOutputsLeadFileList(cfg: PackConfig, opts: Options, env: Env)
    ensures opts.nobuild ==> FileList(cfg, opts, env) == WalkIncludes(cfg.includes, cfg, env) + opts.adds
    ensures !opts.nobuild ==>
      var names := BuildFiles(cfg, opts, env);
      |names| <= |FileList(cfg, opts, env)| &&
      (|cfg.outfiles| == 0 ==> names == [env.cwdBase]) &&
      (|cfg.outfiles| > 0 ==> names == cfg.outfiles) &&
      forall i :: 0 <= i < |names| ==>
        FileList(cfg, opts, env)[i] == if opts.goos == "windows" then names[i] + ".exe" else names[i]
  {
  }

  /** The paths passed to `Add` are a prefix of the deduplicated, sanitized
      file list, so no name is added twice; `Close` is reached exactly when
      every `Add` succeeded, and then every name was added; a failing `Add` is
      the last one. */
  lemma AddsAreDeduplicated(cfg: PackConfig, opts: Options, env: Env)
    ensures Pack(cfg, opts, env).added <= ArchiveList(cfg, opts, env)
    ensures NoDup(Pack(cfg, opts, env).added)
    ensures forall x :: x in Pack(cfg, opts, env).added ==> x in Sanitized(env.sanitize, FileList(cfg, opts, env))
    ensures Pack(cfg, opts, env).closed <==>
      Pack(cfg, opts, env).status == Packed || Pack(cfg, opts, env).status == CloseFailed
    ensures Pack(cfg, opts, env).closed ==>
      Pack(cfg, opts, env).added == ArchiveList(cfg, opts, env) && AllOk(Pack(cfg, opts, env).added, env.addOk)
    ensures Pack(cfg, opts, env).status == AddFailed ==>
      var a := Pack(cfg, opts, env).added;
      0 < |a| && !env.addOk(a[|a| - 1]) && AllOk(a[..|a| - 1], env.addOk)
  {
    var r := Pack(cfg, opts, env);
    var list := ArchiveList(cfg, opts, env);
    if PatternsCompile(cfg, env) && FormatOf(opts.output).Some? && env.createOk(FormatOf(opts.output).value) {
      var fmt := FormatOf(opts.output).value;
      assert r == Packing(cfg, opts, env, fmt);
      if opts.nobuild || AllOk(cfg.script, CommandOk(env)) {
        AddsShape(cfg, opts, env, fmt, if opts.nobuild then [] else cfg.script);
        assert r.added == TakeThroughFail(list, env.addOk);
      }
    }
    PrefixKeeps(r.added, list);
  }

  /** Of repeated names the first one in pipeline order is kept: the adds
      follow the order of first occurrence in the sanitized file list. */
  lemma AddsFollowFirstOccurrence(cfg: PackConfig, opts: Options, env: Env)
    ensures forall x :: x in Pack(cfg, opts, env).added ==> x in Sanitized(env.sanitize, FileList(cfg, opts, env))
    ensures forall i, j :: 0 <= i < j < |Pack(cfg, opts, env).added| ==>
      var s := Sanitized(env.sanitize, FileList(cfg, opts, env));
      FirstIndex(s, Pack(cfg, opts, env).added[i]) < FirstIndex(s, Pack(cfg, opts, env).added[j])
  {
    AddsAreDeduplicated(cfg, opts, env);
    var s := Sanitized(env.sanitize, FileList(cfg, opts, env));
    var a := Pack(cfg, opts, env).added;
    var list := Dedup(s);
    DedupFirstOccurrenceOrder(s);
    forall i, j | 0 <= i < j < |a| ensures FirstIndex(s, a[i]) < FirstIndex(s, a[j]) {
      assert a[i] == list[i] && a[j] == list[j];
    }
  }

  /** A run that reaches `Close` has added every file of the list, under its
      sanitized name, exactly once. */
  lemma ClosedArchiveHoldsEveryFile(cfg: PackConfig, opts: Options, env: Env)
    requires Pack(cfg, opts, env).closed
    ensures forall f :: f in FileList(cfg, opts, env) ==> env.sanitize(f) in Pack(cfg, opts, env).added
    ensures NoDup(Pack(cfg, opts, env).added)
  {
    AddsAreDeduplicated(cfg, opts, env);
    var files := FileList(cfg, opts, env);
    var s := Sanitized(env.sanitize, files);
    forall f | f in files ensures env.sanitize(f) in Pack(cfg, opts, env).added {
      var i :| 0 <= i < |files| && files[i] == f;
      assert s[i] == env.sanitize(f);
      assert env.sanitize(f) in s;
    }
  }

  /** Build outputs are removed only with `rm` and only once `Close` was
      reached (whatever it returned); the list is `buildFiles` with the same
      ".exe" rule, which includes the working-directory default when the build
      step ran. */
  lemma RemovalFollowsClose(cfg: PackConfig, opts: Options, env: Env)
    ensures Pack(cfg, opts, env).removed != [] ==> opts.rm && Pack(cfg, opts, env).closed
    ensures Pack(cfg, opts, env).closed && opts.rm ==>
      var names := BuildFiles(cfg, opts, env);
      var removed := Pack(cfg, opts, env).removed;
      |removed| == |names| &&
      forall i :: 0 <= i < |names| ==>
        removed[i] == if opts.goos == "windows" then names[i] + ".exe" else names[i]
    ensures Pack(cfg, opts, env).closed && opts.rm && !opts.nobuild && cfg.outfiles == [] ==>
      Pack(cfg, opts, env).removed == [ExeName(opts.goos, env.cwdBase)]
  {
  }
}
