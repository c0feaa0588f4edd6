/**
 * The sandbox runner (fuzzing.py): start a container from the project's
 * image, copy the fuzz driver and the replacement CMakeLists.txt into it,
 * run fuzzing.sh there while streaming its output, copy the tee'd output
 * back, always remove the container, and save the captured output on the
 * host.
 *
 * The host is a `Host` object: the processes it has started (each an
 * argument vector, in order), what the runner has written to its own
 * standard output, its regular files and the directories it created. What
 * a started process does is the oracle `exec`, asked with the position of
 * the process in the run and its argument vector; `resolve` stands for
 * `Path.resolve`.
 */
module Fuzzing {
  import opened Text

  /** What a started process reports: its return code and its output, as successive `readline` results. */
  datatype Reply = Reply(code: int, lines: seq<string>)

  /** The exceptions the runner raises. */
  datatype Failure =
    | CommandFailed(code: int, cmd: Command, output: string)      // RuntimeError from _run
    | MissingFile(role: string, path: string)                     // FileNotFoundError from main

  /** A value, or the exception that ended the call. */
  datatype Outcome<T> = Ok(value: T) | Raised(failure: Failure)

  /** How main ends: normally, with SystemExit(code), or with an exception. */
  datatype MainOutcome = Returned | Exited(code: int) | Failed(failure: Failure)

  /** The parsed command line of fuzzing.py. */
  datatype RunArgs = RunArgs(
    image: string,
    containerPath: string,
    fuzzDriver: string,
    cmakelists: string,
    output: string,
    containerName: Option<string>,
    workdir: Option<string>)

  /** Defaults of the optional arguments. */
  const DefaultImage := "rosidl_runtime_c_base_image:latest"
  const DefaultOutput := "docker_shared/fuzzing_output.txt"

  /** Where fuzzing.sh's output is tee'd inside the container. */
  const ContainerOutput := "/tmp/fuzzing_result.txt"

  /** The file name the build description is copied under. */
  const CMakeListsName := "CMakeLists.txt"

  /** An optional argument Python treats as true: given and not empty. */
  predicate Truthy(o: Option<string>)
  {
    o.Some? && o.value != ""
  }

  /** `s[:n]`. */
  function Take(s: string, n: nat): string
  {
    if |s| <= n then s else s[..n]
  }

  /** The container's name: the given one, or a fresh one from the first 8 hex digits of a UUID. */
  function ContainerName(args: RunArgs, uuidHex: string): string
  {
    if Truthy(args.containerName) then args.containerName.value
    else "rosidl_runtime_c_fuzz_" + Take(uuidHex, 8)
  }

  /**
   * A given (non-empty) name is used as it is; otherwise the name is the
   * fixed prefix followed by the first 8 hex digits of the UUID (all of
   * them if there are fewer).
   */
  lemma ContainerNameShape(args: RunArgs, uuidHex: string)
    ensures Truthy(args.containerName) ==> ContainerName(args, uuidHex) == args.containerName.value
    ensures var prefix := "rosidl_runtime_c_fuzz_";
            var r := ContainerName(args, uuidHex);
            !Truthy(args.containerName) ==>
              StartsWith(r, prefix) && StartsWith(uuidHex, r[|prefix|..]) &&
              |r| == |prefix| + (if |uuidHex| < 8 then |uuidHex| else 8)
  {
    var prefix := "rosidl_runtime_c_fuzz_";
    if !Truthy(args.containerName) {
      var r := ContainerName(args, uuidHex);
      assert r == prefix + Take(uuidHex, 8);
      assert r[..|prefix|] == prefix && r[|prefix|..] == Take(uuidHex, 8);
    }
  }

  // ---------------------------------------------------------------------
  // The commands

  /** The `cd` prefix of the shell script, when a workdir is given. */
  function WorkdirPrefix(workdir: Option<string>): string
  {
    if Truthy(workdir) then "cd " + workdir.value + " && " else ""
  }

  /** The script _stream_docker_exec hands to `bash -lc`. */
  function ExecScript(command: string, workdir: Option<string>, teePath: string): string
  {
    WorkdirPrefix(workdir) + command + " | tee " + teePath
  }

  /**
   * The script runs `command` in `workdir` when one is given (in the
   * image's default directory otherwise) and always pipes it into `tee`.
   */
  lemma ExecScriptShape(command: string, workdir: Option<string>, teePath: string)
    ensures var script := ExecScript(command, workdir, teePath);
            EndsWith(script, command + " | tee " + teePath) &&
            (Truthy(workdir) ==> StartsWith(script, "cd " + workdir.value + " && ")) &&
            (!Truthy(workdir) ==> script == command + " | tee " + teePath)
  {
    var script := ExecScript(command, workdir, teePath);
    var prefix := WorkdirPrefix(workdir);
    assert script == prefix + (command + " | tee " + teePath);
    assert script[|script| - |command + " | tee " + teePath|..] == command + " | tee " + teePath;
    assert script[..|prefix|] == prefix;
  }

  /** The directory the driver is copied into: the container path without trailing slashes, then `/fuzz`. */
  function FuzzDir(containerPath: string): string
  {
    RStripSlash(containerPath) + "/fuzz"
  }

  function Slashes(n: nat): (r: string)
    ensures |r| == n && forall k | 0 <= k < n :: r[k] == '/'
  {
    if n == 0 then "" else Slashes(n - 1) + "/"
  }

  /** Trailing slashes on the container path change neither the fuzz directory nor the CMakeLists.txt destination. */
  lemma {:induction false} TrailingSlashIrrelevant(containerPath: string, slashes: nat)
    ensures RStripSlash(containerPath + Slashes(slashes)) == RStripSlash(containerPath)
    ensures FuzzDir(containerPath + Slashes(slashes)) == FuzzDir(containerPath)
    decreases slashes
  {
    if slashes > 0 {
      var longer := containerPath + Slashes(slashes);
      assert longer[|longer| - 1] == '/';
      assert longer[..|longer| - 1] == containerPath + Slashes(slashes - 1);
      TrailingSlashIrrelevant(containerPath, slashes - 1);
    } else {
      assert containerPath + Slashes(0) == containerPath;
    }
  }

  /**
   * The docker commands the runner starts, by what they do; `Argv` is the
   * argument vector each is started with.
   */
  datatype Command =
    | ImageInspect(image: string)
    | RunDetached(name: string, image: string)
    | MakeFuzzDir(name: string, containerPath: string)
    | CopyDriver(name: string, source: string, containerPath: string, driver: string)
    | CopyCMakeLists(name: string, source: string, containerPath: string)
    | ExecShell(name: string, command: string, workdir: Option<string>, teePath: string)
    | CopyOut(name: string, containerFile: string, hostPath: string)
    | Remove(name: string)

  function Argv(c: Command): seq<string>
  {
    match c
    case ImageInspect(image) => ["docker", "image", "inspect", image]
    case RunDetached(name, image) => ["docker", "run", "-d", "--name", name, image, "sleep", "infinity"]
    case MakeFuzzDir(name, containerPath) => ["docker", "exec", name, "mkdir", "-p", FuzzDir(containerPath)]
    case CopyDriver(name, source, containerPath, driver) =>
      ["docker", "cp", source, name + ":" + FuzzDir(containerPath) + "/" + PathName(driver)]
    case CopyCMakeLists(name, source, containerPath) =>
      ["docker", "cp", source, name + ":" + RStripSlash(containerPath) + "/" + CMakeListsName]
    case ExecShell(name, command, workdir, teePath) =>
      ["docker", "exec", name, "bash", "-lc", ExecScript(command, workdir, teePath)]
    case CopyOut(name, containerFile, hostPath) => ["docker", "cp", name + ":" + containerFile, hostPath]
    case Remove(name) => ["docker", "rm", "-f", name]
  }

  /**
   * The driver keeps its own file name inside the fuzz directory, and
   * CMakeLists.txt lands beside that directory.
   */
  lemma CopyDestinations(name: string, source: string, containerPath: string, driver: string)
    ensures var base := name + ":" + RStripSlash(containerPath);
            var dest := Argv(CopyDriver(name, source, containerPath, driver))[3];
            StartsWith(dest, base + "/fuzz" + "/") && dest[|base + "/fuzz" + "/"|..] == PathName(driver) &&
            '/' !in PathName(driver)
    ensures var base := name + ":" + RStripSlash(containerPath);
            var dest := Argv(CopyCMakeLists(name, source, containerPath))[3];
            StartsWith(dest, base + "/") && dest[|base + "/"|..] == CMakeListsName
  {
    var base := name + ":" + RStripSlash(containerPath);
    assert name + ":" + (RStripSlash(containerPath) + "/fuzz") == base + "/fuzz";
    AppendSplit(base + "/fuzz" + "/", PathName(driver));
    AppendSplit(base + "/", CMakeListsName);
  }

  /** The five commands prepare_container runs, in order. */
  function PrepareCommands(args: RunArgs, name: string, resolve: string -> string): (r: seq<Command>)
    ensures |r| == 5
  {
    [ ImageInspect(args.image),
      RunDetached(name, args.image),
      MakeFuzzDir(name, args.containerPath),
      CopyDriver(name, resolve(args.fuzzDriver), args.containerPath, args.fuzzDriver),
      CopyCMakeLists(name, resolve(args.cmakelists), args.containerPath) ]
  }

  /** The command that runs fuzzing.sh, tee'd into ContainerOutput. */
  function FuzzCommand(args: RunArgs, name: string): Command
  {
    ExecShell(name, "./fuzzing.sh", args.workdir, ContainerOutput)
  }

  /** The copy of the tee'd output back to the host. */
  function CopyBack(name: string, hostOutput: string): Command
  {
    CopyOut(name, ContainerOutput, hostOutput)
  }

  /**
   * The commands run_fuzzing starts when the `failedAt`-th preparation
   * command is the first to fail (`|prepare|` when none fails): the
   * preparation up to that command, then fuzzing and the copy back only
   * if preparation succeeded, then the removal of the container in any
   * case.
   */
  function RunTrace(prepare: seq<Command>, fuzz: Command, copyBack: Command, name: string, failedAt: nat): seq<Command>
    requires failedAt <= |prepare|
  {
    if failedAt < |prepare| then prepare[..failedAt + 1] + [Remove(name)]
    else prepare + [fuzz, copyBack, Remove(name)]
  }

  /** Nothing before the final `docker rm -f` removes a container. */
  predicate NoRemove(cmds: seq<Command>)
  {
    forall k | 0 <= k < |cmds| :: !cmds[k].Remove?
  }

  lemma PrepareNeverRemoves(args: RunArgs, name: string, resolve: string -> string)
    ensures NoRemove(PrepareCommands(args, name, resolve))
  {
  }

  /** Whatever fails, the container is removed exactly once, by the last command of the run. */
  lemma RunTraceRemovesOnceAtEnd(prepare: seq<Command>, fuzz: Command, copyBack: Command, name: string, failedAt: nat)
    requires failedAt <= |prepare|
    requires NoRemove(prepare) && !fuzz.Remove? && !copyBack.Remove?
    ensures var t := RunTrace(prepare, fuzz, copyBack, name, failedAt);
            |t| >= 1 && t[|t| - 1] == Remove(name) && NoRemove(t[..|t| - 1])
  {
    var t := RunTrace(prepare, fuzz, copyBack, name, failedAt);
    if failedAt < |prepare| {
      assert t[..|t| - 1] == prepare[..failedAt + 1];
    } else {
      assert t[..|t| - 1] == prepare + [fuzz, copyBack];
    }
  }

  /** The run of fuzzing.py: removal once at the end, whatever the outcome of preparation. */
  lemma RunFuzzingRemovesOnceAtEnd(args: RunArgs, name: string, resolve: string -> string, hostOutput: string, failedAt: nat)
    requires failedAt <= 5
    ensures var t := RunTrace(PrepareCommands(args, name, resolve), FuzzCommand(args, name), CopyBack(name, hostOutput), name, failedAt);
            t[|t| - 1] == Remove(name) && NoRemove(t[..|t| - 1])
  {
    PrepareNeverRemoves(args, name, resolve);
    RunTraceRemovesOnceAtEnd(PrepareCommands(args, name, resolve), FuzzCommand(args, name), CopyBack(name, hostOutput), name, failedAt);
  }

  // ---------------------------------------------------------------------
  // Reading a stream

  /** How many `readline` results come before the first empty one (end of file). */
  function LinesBeforeEof(lines: seq<string>): (r: nat)
    ensures r <= |lines|
    ensures forall k | 0 <= k < r :: lines[k] != ""
    ensures r < |lines| ==> lines[r] == ""
  {
    if lines == [] || lines[0] == "" then 0 else 1 + LinesBeforeEof(lines[1..])
  }

  /** The loop `for line in iter(readline, "")` stops exactly at the first empty result. */
  lemma LinesBeforeEofUnique(lines: seq<string>, i: nat)
    requires i <= |lines|
    requires forall k | 0 <= k < i :: lines[k] != ""
    requires i == |lines| || lines[i] == ""
    ensures i == LinesBeforeEof(lines)
  {
  }

  /** The lines the streaming loop reads. */
  function Streamed(lines: seq<string>): seq<string>
  {
    lines[..LinesBeforeEof(lines)]
  }

  // ---------------------------------------------------------------------
  // The host

  class Host {
    /** What the `n`-th process started in the run reports (the process runs `Argv(c)` for command `c`). */
    const exec: (nat, Command) -> Reply
    /** `str(Path(p).resolve())`. */
    const resolve: string -> string

    /** The processes started, in order. */
    var commands: seq<Command>
    /** What the runner itself wrote to its standard output. */
    var terminal: string
    /** Regular files on the host, by absolute path. */
    var files: map<string, string>
    /** Directories the runner created on the host. */
    var dirs: set<string>

    constructor (exec: (nat, Command) -> Reply, resolve: string -> string, files: map<string, string>)
      ensures this.exec == exec && this.resolve == resolve && this.files == files
      ensures commands == [] && terminal == "" && dirs == {}
    {
      this.exec := exec;
      this.resolve := resolve;
      this.files := files;
      commands := [];
      terminal := "";
      dirs := {};
    }

    /** `Path(p).is_file()`. */
    predicate IsFile(p: string)
      reads this
    {
      resolve(p) in files
    }

    /** The return code of `c` when it is started at position `n`. */
    function Code(n: nat, c: Command): int
    {
      exec(n, c).code
    }

    /** The position in `cmds` of the first command that fails when started from `start` (`|cmds|` if none fails). */
    function FirstFailure(start: nat, cmds: seq<Command>): (r: nat)
      ensures r <= |cmds|
      decreases |cmds|
    {
      if cmds == [] || Code(start, cmds[0]) != 0 then 0 else 1 + FirstFailure(start + 1, cmds[1..])
    }

    /** Every command before the first failure succeeds, and the one at it fails. */
    lemma {:induction false} FirstFailureSpec(start: nat, cmds: seq<Command>)
      ensures var r := FirstFailure(start, cmds);
              (forall k | 0 <= k < r :: Code(start + k, cmds[k]) == 0) &&
              (r < |cmds| ==> Code(start + r, cmds[r]) != 0)
      decreases |cmds|
    {
      if cmds != [] && Code(start, cmds[0]) == 0 {
        FirstFailureSpec(start + 1, cmds[1..]);
        var r := FirstFailure(start, cmds);
        forall k | 0 <= k < r
          ensures Code(start + k, cmds[k]) == 0
        {
          if k > 0 {
            assert cmds[k] == cmds[1..][k - 1];
          }
        }
        if r < |cmds| {
          assert cmds[r] == cmds[1..][r - 1];
        }
      }
    }

    /**
     * _run: start `cmd` and wait for it. A nonzero return code raises
     * RuntimeError unless `allowError`; the output is collected only
     * when `captureOutput` (otherwise it goes straight to the terminal
     * and the result's output is empty).
     */
    method Run(cmd: Command, captureOutput: bool, allowError: bool) returns (r: Outcome<(int, string)>)
      modifies this
      ensures commands == old(commands) + [cmd]
      ensures var reply := exec(|old(commands)|, cmd);
              var output := if captureOutput then Concat(Streamed(reply.lines)) else "";
              (reply.code != 0 && !allowError ==> r == Raised(CommandFailed(reply.code, cmd, output))) &&
              (reply.code == 0 || allowError ==> r == Ok((reply.code, output)))
      ensures terminal == old(terminal) && files == old(files) && dirs == old(dirs)
    {
      var reply := exec(|commands|, cmd);
      commands := commands + [cmd];
      var output := if captureOutput then Concat(Streamed(reply.lines)) else "";
      if reply.code != 0 && !allowError {
        return Raised(CommandFailed(reply.code, cmd, output));
      }
      return Ok((reply.code, output));
    }

    /**
     * _stream_docker_exec: run `command` in the container through
     * `bash -lc`, echo each line it prints and collect them until end of
     * file; return its code, the collected text and the tee path.
     */
    method StreamDockerExec(name: string, command: string, workdir: Option<string>, teePath: string)
      returns (code: int, output: string, tee: string)
      modifies this
      ensures commands == old(commands) + [ExecShell(name, command, workdir, teePath)]
      ensures var reply := exec(|old(commands)|, ExecShell(name, command, workdir, teePath));
              code == reply.code && output == Concat(Streamed(reply.lines))
      ensures tee == teePath
      ensures terminal == old(terminal) + output
      ensures files == old(files) && dirs == old(dirs)
    {
      var cmd := ExecShell(name, command, workdir, teePath);
      var reply := exec(|commands|, cmd);
      commands := commands + [cmd];
      var captured: seq<string> := [];
      var i := 0;
      while i < |reply.lines| && reply.lines[i] != ""
        invariant i <= |reply.lines|
        invariant forall k | 0 <= k < i :: reply.lines[k] != ""
        invariant captured == reply.lines[..i]
        invariant terminal == old(terminal) + Concat(captured)
        invariant commands == old(commands) + [cmd] && files == old(files) && dirs == old(dirs)
      {
        var line := reply.lines[i];
        terminal := terminal + line;
        ConcatAppend(captured, line);
        captured := captured + [line];
        assert reply.lines[..i + 1] == reply.lines[..i] + [line];
        i := i + 1;
      }
      LinesBeforeEofUnique(reply.lines, i);
      return reply.code, Concat(captured), teePath;
    }

    /** With the first `i` commands succeeding, the first failure is at `i` exactly when command `i` fails. */
    lemma FirstFailureStep(start: nat, cmds: seq<Command>, i: nat)
      requires i < |cmds| && FirstFailure(start, cmds) >= i
      ensures FirstFailure(start, cmds) > i <==> Code(start + i, cmds[i]) == 0
    {
      FirstFailureSpec(start, cmds);
    }

    /**
     * One step of prepare_container: run the `i`-th command, which raises
     * when it fails; all commands before it have succeeded.
     */
    method PrepareStep(cmds: seq<Command>, i: nat, ghost before: seq<Command>) returns (failed: Option<Failure>)
      requires i < |cmds| && commands == before + cmds[..i] && FirstFailure(|before|, cmds) >= i
      modifies this
      ensures commands == before + cmds[..i + 1]
      ensures failed.None? <==> FirstFailure(|before|, cmds) > i
      ensures failed.Some? ==> failed.value == CommandFailed(Code(|before| + i, cmds[i]), cmds[i], "")
      ensures terminal == old(terminal) && files == old(files) && dirs == old(dirs)
    {
      var run := Run(cmds[i], false, false);
      assert cmds[..i + 1] == cmds[..i] + [cmds[i]];
      FirstFailureStep(|before|, cmds, i);
      failed := if run.Raised? then Some(run.failure) else None;
    }

    /**
     * The `_run` calls of prepare_container, one per command in order:
     * the first that fails raises, and nothing after it runs.
     */
    method RunPrepareSteps(cmds: seq<Command>) returns (failed: Option<Failure>)
      requires |cmds| == 5
      modifies this
      ensures var f := FirstFailure(|old(commands)|, cmds);
              (f < 5 ==>
                 commands == old(commands) + cmds[..f + 1] &&
                 failed == Some(CommandFailed(Code(|old(commands)| + f, cmds[f]), cmds[f], ""))) &&
              (f == 5 ==> commands == old(commands) + cmds && failed.None?)
      ensures terminal == old(terminal) && files == old(files) && dirs == old(dirs)
    {
      ghost var before := commands;
      assert commands == before + cmds[..0];
      failed := PrepareStep(cmds, 0, before);
      if failed.Some? {
        return;
      }
      failed := PrepareStep(cmds, 1, before);
      if failed.Some? {
        return;
      }
      failed := PrepareStep(cmds, 2, before);
      if failed.Some? {
        return;
      }
      failed := PrepareStep(cmds, 3, before);
      if failed.Some? {
        return;
      }
      failed := PrepareStep(cmds, 4, before);
      assert cmds[..5] == cmds;
    }

    /**
     * prepare_container: inspect the image, start the container, create
     * the fuzz directory and copy the two files in; the first command
     * that fails raises and runs nothing after it.
     */
    method PrepareContainer(args: RunArgs, name: string) returns (r: Outcome<string>)
      modifies this
      ensures var cmds := PrepareCommands(args, name, resolve);
              var f := FirstFailure(|old(commands)|, cmds);
              (r.Raised? <==> f < 5) &&
              (r.Raised? ==> commands == old(commands) + cmds[..f + 1] &&
                             r.failure == CommandFailed(Code(|old(commands)| + f, cmds[f]), cmds[f], "")) &&
              (r.Ok? ==> f == 5 && commands == old(commands) + cmds && r.value == FuzzDir(args.containerPath))
      ensures terminal == old(terminal) && files == old(files) && dirs == old(dirs)
    {
      var failed := RunPrepareSteps(PrepareCommands(args, name, resolve));
      if failed.Some? {
        return Raised(failed.value);
      }
      return Ok(FuzzDir(args.containerPath));
    }

    /**
     * run_fuzzing: create the output's parent directory, then run in the
     * container named by ContainerName with the resolved output path.
     */
    method RunFuzzing(args: RunArgs, uuidHex: string) returns (r: Outcome<int>)
      modifies this
      ensures dirs == old(dirs) + {Parent(resolve(args.output))}
      ensures var name := ContainerName(args, uuidHex);
              var prepare := PrepareCommands(args, name, resolve);
              var f := FirstFailure(|old(commands)|, prepare);
              commands == old(commands) + RunTrace(prepare, FuzzCommand(args, name), CopyBack(name, resolve(args.output)), name, f) &&
              (r.Raised? <==> f < 5) &&
              (r.Raised? ==> r.failure == CommandFailed(Code(|old(commands)| + f, prepare[f]), prepare[f], ""))
      ensures r.Raised? ==> files == old(files) && terminal == old(terminal)
      ensures var reply := exec(|old(commands)| + 5, FuzzCommand(args, ContainerName(args, uuidHex)));
              r.Ok? ==>
                r.value == reply.code &&
                terminal == old(terminal) + Concat(Streamed(reply.lines)) &&
                files == old(files)[resolve(args.output) := Concat(Streamed(reply.lines))]
    {
      var name := ContainerName(args, uuidHex);
      var hostOutput := resolve(args.output);
      dirs := dirs + {Parent(hostOutput)};
      r := RunInContainer(args, name, hostOutput);
    }

    /**
     * The try/finally of run_fuzzing: prepare the container and run
     * fuzzing.sh in it, then copy the tee'd output back (errors
     * tolerated); remove the container whatever happened; when nothing
     * raised, write the captured output to `hostOutput` and return
     * fuzzing.sh's return code.
     */
    method RunInContainer(args: RunArgs, name: string, hostOutput: string) returns (r: Outcome<int>)
      modifies this
      ensures dirs == old(dirs)
      ensures var prepare := PrepareCommands(args, name, resolve);
              var f := FirstFailure(|old(commands)|, prepare);
              commands == old(commands) + RunTrace(prepare, FuzzCommand(args, name), CopyBack(name, hostOutput), name, f) &&
              (r.Raised? <==> f < 5) &&
              (r.Raised? ==> r.failure == CommandFailed(Code(|old(commands)| + f, prepare[f]), prepare[f], ""))
      ensures r.Raised? ==> files == old(files) && terminal == old(terminal)
      ensures var reply := exec(|old(commands)| + 5, FuzzCommand(args, name));
              r.Ok? ==>
                r.value == reply.code &&
                terminal == old(terminal) + Concat(Streamed(reply.lines)) &&
                files == old(files)[hostOutput := Concat(Streamed(reply.lines))]
    {
      ghost var start := commands;
      ghost var prepare := PrepareCommands(args, name, resolve);
      var prepared := PrepareContainer(args, name);
      ghost var f := FirstFailure(|start|, prepare);
      if prepared.Raised? {
        // the finally clause
        var removed := Run(Remove(name), false, true);
        assert (start + prepare[..f + 1]) + [Remove(name)] == start + (prepare[..f + 1] + [Remove(name)]);
        return Raised(prepared.failure);
      }
      var code := FuzzAndCollect(args, name, hostOutput);
      assert (start + prepare) + [FuzzCommand(args, name), CopyBack(name, hostOutput), Remove(name)] ==
             start + (prepare + [FuzzCommand(args, name), CopyBack(name, hostOutput), Remove(name)]);
      return Ok(code);
    }

    /**
     * The rest of run_fuzzing once the container is prepared: stream
     * fuzzing.sh, copy its tee'd output back (errors tolerated), remove the
     * container (the finally clause), and write the captured output to the
     * host file.
     */
    method FuzzAndCollect(args: RunArgs, name: string, hostOutput: string) returns (code: int)
      modifies this
      ensures commands == old(commands) + [FuzzCommand(args, name), CopyBack(name, hostOutput), Remove(name)]
      ensures var reply := exec(|old(commands)|, FuzzCommand(args, name));
              code == reply.code &&
              terminal == old(terminal) + Concat(Streamed(reply.lines)) &&
              files == old(files)[hostOutput := Concat(Streamed(reply.lines))]
      ensures dirs == old(dirs)
    {
      var containerOutput := ContainerOutput;
      var output;
      code, output, containerOutput := StreamDockerExec(name, "./fuzzing.sh", args.workdir, containerOutput);
      var copied := Run(CopyOut(name, containerOutput, hostOutput), false, true);
      var removed := Run(Remove(name), false, true);
      files := files[hostOutput := output];
    }

    /**
     * main: both input files must exist (the driver is checked first)
     * before anything runs; a nonzero return code of the run becomes
     * SystemExit with that code.
     */
    method RunMain(args: RunArgs, uuidHex: string) returns (r: MainOutcome)
      modifies this
      ensures !old(IsFile(args.fuzzDriver)) ==> r == Failed(MissingFile("fuzz driver", args.fuzzDriver))
      ensures old(IsFile(args.fuzzDriver)) && !old(IsFile(args.cmakelists)) ==>
                r == Failed(MissingFile("CMakeLists.txt", args.cmakelists))
      ensures !old(IsFile(args.fuzzDriver)) || !old(IsFile(args.cmakelists)) ==>
                commands == old(commands) && files == old(files) && dirs == old(dirs) && terminal == old(terminal)
      ensures var name := ContainerName(args, uuidHex);
              var prepare := PrepareCommands(args, name, resolve);
              var f := FirstFailure(|old(commands)|, prepare);
              old(IsFile(args.fuzzDriver)) && old(IsFile(args.cmakelists)) ==>
                commands == old(commands) + RunTrace(prepare, FuzzCommand(args, name), CopyBack(name, resolve(args.output)), name, f) &&
                dirs == old(dirs) + {Parent(resolve(args.output))} &&
                (r.Failed? <==> f < 5) &&
                (r.Failed? ==> r.failure == CommandFailed(Code(|old(commands)| + f, prepare[f]), prepare[f], "") &&
                               files == old(files) && terminal == old(terminal))
      ensures var reply := exec(|old(commands)| + 5, FuzzCommand(args, ContainerName(args, uuidHex)));
              old(IsFile(args.fuzzDriver)) && old(IsFile(args.cmakelists)) &&
              FirstFailure(|old(commands)|, PrepareCommands(args, ContainerName(args, uuidHex), resolve)) == 5 ==>
                (if reply.code != 0 then r == Exited(reply.code) else r == Returned) &&
                terminal == old(terminal) + Concat(Streamed(reply.lines)) &&
                files == old(files)[resolve(args.output) := Concat(Streamed(reply.lines))]
    {
      var inputs := [(args.fuzzDriver, "fuzz driver"), (args.cmakelists, "CMakeLists.txt")];
      assert inputs[0] == (args.fuzzDriver, "fuzz driver") && inputs[1] == (args.cmakelists, "CMakeLists.txt");
      for k := 0 to 2
        invariant forall j | 0 <= j < k :: IsFile(inputs[j].0)
        invariant unchanged(this)
      {
        if !IsFile(inputs[k].0) {
          return Failed(MissingFile(inputs[k].1, inputs[k].0));
        }
      }
      var run := RunFuzzing(args, uuidHex);
      if run.Raised? {
        return Failed(run.failure);
      }
      if run.value != 0 {
        return Exited(run.value);
      }
      return Returned;
    }
  }
}
