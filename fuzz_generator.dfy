/**
 * The compile-verify-repair side of FuzzingGenerationAgent
 * (fuzzing_llm_engine/roles/fuzz_generator.py): extracting C/C++ code
 * from a language-model reply, building the compile check's arguments,
 * repairing a driver from the compiler's error output, and the bounded
 * loop that keeps a generated driver only if it ends up compiling.
 *
 * The host filesystem is a map from path to file contents (a path is a
 * file exactly when it is a key). The language model and the compile
 * check are oracles: functions of the round they are asked in and of
 * what they are given.
 */
module FuzzGenerator {
  import opened Text

  /** What extract_code returns when the reply holds no code block. */
  const NoCodeFound: string := "No code found"

  /** The repair loop makes at most this many fix attempts. */
  const MaxFixAttempts: nat := 5

  // ---------------------------------------------------------------------
  // extract_code: the pattern ```(?:c|cpp|c\+\+)\s(.*?)``` with DOTALL

  /** The language tags the pattern's alternation tries, in this order. */
  datatype Tag = C | Cpp | CPlusPlus

  function TagLength(t: Tag): nat
  {
    if t == C then 1 else 3
  }

  /** Python's `\s` on `str` patterns: the Unicode whitespace characters. */
  predicate IsRegexSpace(c: char)
  {
    var n := c as int;
    n == 0x20 || 0x09 <= n <= 0x0D || 0x1C <= n <= 0x1F || n == 0x85 || n == 0xA0 ||
    n == 0x1680 || 0x2000 <= n <= 0x200A || n == 0x2028 || n == 0x2029 ||
    n == 0x202F || n == 0x205F || n == 0x3000
  }

  /** Three backticks start at `j`. */
  predicate FenceAt(s: string, j: nat)
  {
    j + 3 <= |s| && s[j] == '`' && s[j + 1] == '`' && s[j + 2] == '`'
  }

  /** The tag's text (`c`, `cpp` or `c++`) starts at `i`. */
  predicate TagAt(s: string, i: nat, t: Tag)
  {
    i + TagLength(t) <= |s| && s[i] == 'c' &&
    match t
    case C => true
    case Cpp => s[i + 1] == 'p' && s[i + 2] == 'p'
    case CPlusPlus => s[i + 1] == '+' && s[i + 2] == '+'
  }

  /** At `p`: a fence, the tag, one whitespace character. */
  predicate OpenerAt(s: string, p: nat, t: Tag)
  {
    FenceAt(s, p) && TagAt(s, p + 3, t) && p + 3 + TagLength(t) < |s| &&
    IsRegexSpace(s[p + 3 + TagLength(t)])
  }

  /** No fence starts in `[from, to)`. */
  predicate NoFenceIn(s: string, from: nat, to: nat)
  {
    forall k | from <= k < to :: !FenceAt(s, k)
  }

  /** `body` starts at `b`, a fence follows it, and (the lazy `.*?`) none starts inside it. */
  predicate BodyAt(s: string, b: nat, body: string)
  {
    b + |body| <= |s| && s[b..b + |body|] == body && FenceAt(s, b + |body|) &&
    NoFenceIn(s, b, b + |body|)
  }

  /**
   * The reference meaning of "the pattern matches at `p` with group 1
   * equal to `body`".
   */
  ghost predicate MatchAt(s: string, p: nat, body: string)
  {
    exists t: Tag :: OpenerAt(s, p, t) && BodyAt(s, p + 4 + TagLength(t), body)
  }

  /** Where the body begins if an opener is at `p`, trying the tags in order. */
  function BodyStart(s: string, p: nat): Option<nat>
  {
    if OpenerAt(s, p, C) then Some(p + 5)
    else if OpenerAt(s, p, Cpp) then Some(p + 7)
    else if OpenerAt(s, p, CPlusPlus) then Some(p + 7)
    else None
  }

  /** A body start is found exactly when some tag opens at `p`, and it is right after that opener. */
  lemma BodyStartSpec(s: string, p: nat)
    ensures BodyStart(s, p).Some? <==> exists t: Tag :: OpenerAt(s, p, t)
    ensures BodyStart(s, p).Some? ==>
              exists t: Tag :: OpenerAt(s, p, t) && BodyStart(s, p).value == p + 4 + TagLength(t)
  {
  }

  /** At most one tag opens at a position: after the `c` comes whitespace, `p` or `+`. */
  lemma OneTagAt(s: string, p: nat, t: Tag, u: Tag)
    requires OpenerAt(s, p, t) && OpenerAt(s, p, u)
    ensures t == u
  {
  }

  /** The first fence at or after `q`. */
  function FindFence(s: string, q: nat): (r: Option<nat>)
    ensures r.Some? ==> q <= r.value && r.value + 3 <= |s|
    decreases |s| - q
  {
    if q + 3 > |s| then None
    else if FenceAt(s, q) then Some(q)
    else FindFence(s, q + 1)
  }

  /** FindFence gives the first fence at or after `q`, and none only when there is none. */
  lemma {:induction false} FindFenceSpec(s: string, q: nat)
    ensures FindFence(s, q).Some? ==>
              q <= FindFence(s, q).value && FenceAt(s, FindFence(s, q).value) && NoFenceIn(s, q, FindFence(s, q).value)
    ensures FindFence(s, q).None? ==> forall k | q <= k :: !FenceAt(s, k)
    decreases |s| - q
  {
    if q + 3 <= |s| && !FenceAt(s, q) {
      FindFenceSpec(s, q + 1);
    }
  }

  datatype Found = Found(pos: nat, body: string)

  /** `re.search` from `p`: the leftmost position where the pattern matches, and its group 1. */
  function SearchFrom(s: string, p: nat): Option<Found>
    decreases |s| - p, 1
  {
    if p >= |s| then None else SearchAt(s, p)
  }

  /** The search's attempt at `p`: the match there, or else the search from `p + 1`. */
  function SearchAt(s: string, p: nat): Option<Found>
    requires p < |s|
    decreases |s| - p, 0
  {
    match BodyStart(s, p)
    case Some(b) =>
      (match FindFence(s, b)
       case Some(e) => Some(Found(p, s[b..e]))
       case None => SearchFrom(s, p + 1))
    case None => SearchFrom(s, p + 1)
  }

  /** extract_code (fuzz_generator.py): group 1 of the first match, or the sentinel. */
  function ExtractCode(s: string): string
  {
    match SearchFrom(s, 0)
    case Some(f) => f.body
    case None => NoCodeFound
  }

  /** A body that starts at `b` is determined by `b`: it ends at the first fence. */
  lemma BodyAtUnique(s: string, b: nat, c: nat, x: string, y: string)
    requires BodyAt(s, b, x) && BodyAt(s, c, y) && b == c
    ensures x == y
  {
  }

  /** The body found at `p` is the only one that matches there. */
  lemma MatchAtUnique(s: string, p: nat, x: string, y: string)
    requires MatchAt(s, p, x) && MatchAt(s, p, y)
    ensures x == y
  {
    forall t: Tag, u: Tag | OpenerAt(s, p, t) && BodyAt(s, p + 4 + TagLength(t), x) &&
                            OpenerAt(s, p, u) && BodyAt(s, p + 4 + TagLength(u), y)
      ensures x == y
    {
      OneTagAt(s, p, t, u);
      BodyAtUnique(s, p + 4 + TagLength(t), p + 4 + TagLength(u), x, y);
    }
  }

  /** Whether a match at `p` exists is exactly what BodyStart and FindFence compute. */
  lemma MatchAtFound(s: string, p: nat)
    ensures BodyStart(s, p).Some? && FindFence(s, BodyStart(s, p).value).Some? ==>
              MatchAt(s, p, s[BodyStart(s, p).value..FindFence(s, BodyStart(s, p).value).value])
    ensures (BodyStart(s, p).None? || FindFence(s, BodyStart(s, p).value).None?) ==>
              forall body :: !MatchAt(s, p, body)
  {
    BodyStartSpec(s, p);
    var r := BodyStart(s, p);
    if r.Some? {
      var t :| OpenerAt(s, p, t) && r.value == p + 4 + TagLength(t);
      FindFenceSpec(s, r.value);
      var e := FindFence(s, r.value);
      if e.Some? {
        var body := s[r.value..e.value];
        assert s[r.value..r.value + |body|] == body;
        assert BodyAt(s, r.value, body);
      } else {
        forall body | MatchAt(s, p, body)
          ensures false
        {
          var u :| OpenerAt(s, p, u) && BodyAt(s, p + 4 + TagLength(u), body);
          OneTagAt(s, p, t, u);
        }
      }
    }
  }

  /** A match needs at least the opener and the closing fence. */
  lemma MatchAtBound(s: string, p: nat, body: string)
    requires MatchAt(s, p, body)
    ensures p < |s|
  {
  }

  /** SearchFrom finds the leftmost match at or after `p`, and finds nothing only when there is none. */
  lemma {:induction false} SearchFromIsLeftmost(s: string, p: nat)
    ensures SearchFrom(s, p).Some? ==>
              var f := SearchFrom(s, p).value;
              p <= f.pos && MatchAt(s, f.pos, f.body) &&
              forall q, body | p <= q < f.pos :: !MatchAt(s, q, body)
    ensures SearchFrom(s, p).None? ==> forall q, body | p <= q :: !MatchAt(s, q, body)
    decreases |s| - p
  {
    if p >= |s| {
      forall q, body | p <= q && MatchAt(s, q, body)
        ensures false
      {
        MatchAtBound(s, q, body);
      }
    } else {
      MatchAtFound(s, p);
      var r := BodyStart(s, p);
      if r.None? || FindFence(s, r.value).None? {
        assert SearchFrom(s, p) == SearchFrom(s, p + 1);
        SearchFromIsLeftmost(s, p + 1);
        forall q, body | p <= q && MatchAt(s, q, body)
          ensures p + 1 <= q
        {
        }
      } else {
        assert SearchFrom(s, p) == Some(Found(p, s[r.value..FindFence(s, r.value).value]));
      }
    }
  }

  /** extract_code returns group 1 of the leftmost match. */
  lemma ExtractCodeFirstMatch(s: string, p: nat, body: string)
    requires MatchAt(s, p, body)
    requires forall q: nat, other | q < p :: !MatchAt(s, q, other)
    ensures ExtractCode(s) == body
  {
    SearchFromIsLeftmost(s, 0);
    var f := SearchFrom(s, 0).value;
    if f.pos == p {
      MatchAtUnique(s, p, f.body, body);
    }
  }

  /** extract_code returns the sentinel when nothing matches, and otherwise group 1 of some match. */
  lemma ExtractCodeCases(s: string)
    ensures (forall q: nat, body :: !MatchAt(s, q, body)) ==> ExtractCode(s) == NoCodeFound
    ensures (exists q: nat, body :: MatchAt(s, q, body)) ==> exists q: nat :: MatchAt(s, q, ExtractCode(s))
  {
    SearchFromIsLeftmost(s, 0);
    var r := SearchFrom(s, 0);
    if r.Some? {
      assert MatchAt(s, r.value.pos, ExtractCode(s));
    }
  }

  /** The extracted body never contains a fence: the lazy group stops at the first one. */
  lemma ExtractedCodeHasNoFence(s: string, k: nat)
    requires SearchFrom(s, 0).Some?
    ensures !FenceAt(ExtractCode(s), k)
  {
    SearchFromMatches(s);
    var f := SearchFrom(s, 0).value;
    assert ExtractCode(s) == f.body;
    forall t: Tag | OpenerAt(s, f.pos, t) && BodyAt(s, f.pos + 4 + TagLength(t), f.body)
      ensures !FenceAt(f.body, k)
    {
      BodyHasNoFence(s, f.pos + 4 + TagLength(t), f.body, k);
    }
  }

  /** A lazy body has no fence inside it. */
  lemma BodyHasNoFence(s: string, b: nat, body: string, k: nat)
    requires BodyAt(s, b, body)
    ensures !FenceAt(body, k)
  {
    if k + 3 <= |body| {
      assert !FenceAt(s, b + k);
      assert body[k] == s[b + k] && body[k + 1] == s[b + k + 1] && body[k + 2] == s[b + k + 2];
    }
  }

  lemma SearchFromMatches(s: string)
    ensures SearchFrom(s, 0).Some? ==> MatchAt(s, SearchFrom(s, 0).value.pos, SearchFrom(s, 0).value.body)
  {
    SearchFromIsLeftmost(s, 0);
  }

  /** A typical reply: the code between a "```c" line and the closing fence. */
  const ExampleReply: string := "Here:\n```c\nint x;\n```\n"

  lemma ExampleReplyMatches()
    ensures MatchAt(ExampleReply, 6, "int x;\n")
  {
    var s := ExampleReply;
    assert OpenerAt(s, 6, C);
    assert |s| == 22 && s[11] == 'i' && s[12] == 'n' && s[13] == 't' && s[14] == ' ' && s[15] == 'x' &&
           s[16] == ';' && s[17] == '\n';
    assert s[11..18] == "int x;\n";
    assert NoFenceIn(s, 11, 18);
    assert BodyAt(s, 11, "int x;\n");
  }

  lemma ExampleReplyNoEarlierMatch(q: nat, other: string)
    requires q < 6
    ensures !MatchAt(ExampleReply, q, other)
  {
    var s := ExampleReply;
    assert s[0] == 'H' && s[1] == 'e' && s[2] == 'r' && s[3] == 'e' && s[4] == ':' && s[5] == '\n';
    assert s[q] != '`';
  }

  lemma ExtractCodeExample()
    ensures ExtractCode(ExampleReply) == "int x;\n"
  {
    ExampleReplyMatches();
    forall q: nat, other | q < 6
      ensures !MatchAt(ExampleReply, q, other)
    {
      ExampleReplyNoEarlierMatch(q, other);
    }
    ExtractCodeFirstMatch(ExampleReply, 6, "int x;\n");
  }

  // ---------------------------------------------------------------------
  // _build_compile_args, _check_compile, _read_compile_output

  /** The argparse Namespace _build_compile_args returns. */
  datatype CompileArgs = CompileArgs(
    image: string,
    containerPath: string,
    fuzzDriver: string,
    cmakelists: string,
    fuzzScript: string,
    driverDestName: string,
    targetBinary: string,
    timeoutSeconds: nat,
    coverageOutput: Option<string>,
    coverageContainerPath: string,
    coverageTextOutput: Option<string>,
    coverageTextContainerPath: string,
    output: string,
    containerName: Option<string>,
    workdir: string)

  /** `config.get(key, default)`. */
  function Get(config: map<string, string>, key: string, default: string): string
  {
    if key in config then config[key] else default
  }

  /** Where the project's CMakeLists.txt and fuzzing.sh are looked up. */
  function ProjectFile(workDir: string, projectBase: string, name: string): string
  {
    PathJoinAll(workDir, ["fuzzing_llm_engine", "projects", projectBase, name])
  }

  /** The host file the compile check of `project` writes its log to. */
  function CompileOutputPath(project: string, config: map<string, string>, cwd: string): string
  {
    var workDir := Get(config, "work_dir", cwd);
    var sharedDir := Get(config, "shared_dir", PathJoin(workDir, "docker_shared"));
    PathJoin(sharedDir, LastComponent(project) + "_fuzz_output.txt")
  }

  /** Both files the compile check of `project` needs are on the host. */
  predicate ProjectReady(project: string, config: map<string, string>, cwd: string, files: set<string>)
  {
    var workDir := Get(config, "work_dir", cwd);
    ProjectFile(workDir, LastComponent(project), "CMakeLists.txt") in files &&
    ProjectFile(workDir, LastComponent(project), "fuzzing.sh") in files
  }

  /**
   * _build_compile_args: `config` is the project configuration,
   * `cwd` the working directory and `files` the host's regular files.
   */
  function BuildCompileArgs(project: string, driverPath: string, config: map<string, string>,
                            cwd: string, files: set<string>): Option<CompileArgs>
  {
    var projectBase := LastComponent(project);
    var workDir := Get(config, "work_dir", cwd);
    var containerPath := if '/' in project then "/ws/src/" + project else "/src/" + project;
    var workdir := if '/' in project then "/ws" else "/src";
    var cmakelists := ProjectFile(workDir, projectBase, "CMakeLists.txt");
    var fuzzScript := ProjectFile(workDir, projectBase, "fuzzing.sh");
    if cmakelists !in files then None
    else if fuzzScript !in files then None
    else Some(CompileArgs(
      projectBase + "_base_image:latest", containerPath, driverPath, cmakelists, fuzzScript,
      "fuzzer.c", "fuzzer", 10, None, "/ws/fuzz_corpus/coverage.json",
      None, "/ws/fuzz_corpus/coverage.txt",
      CompileOutputPath(project, config, cwd), None, workdir))
  }

  /**
   * The checks are skipped (None) exactly when a project file is missing;
   * otherwise the container path lies under the workdir (/ws/src for a
   * nested project, /src otherwise), the image is named after the last
   * path component of the project and the driver goes in as fuzzer.c.
   */
  lemma BuildCompileArgsSpec(project: string, driverPath: string, config: map<string, string>,
                             cwd: string, files: set<string>)
    ensures var workDir := Get(config, "work_dir", cwd);
            var base := LastComponent(project);
            BuildCompileArgs(project, driverPath, config, cwd, files).None? <==>
              ProjectFile(workDir, base, "CMakeLists.txt") !in files ||
              ProjectFile(workDir, base, "fuzzing.sh") !in files
    ensures BuildCompileArgs(project, driverPath, config, cwd, files).Some? <==>
            ProjectReady(project, config, cwd, files)
    ensures var r := BuildCompileArgs(project, driverPath, config, cwd, files);
            r.Some? ==>
              var a := r.value;
              a.workdir == (if '/' in project then "/ws" else "/src") &&
              a.containerPath == (if '/' in project then "/ws/src/" else "/src/") + project &&
              StartsWith(a.containerPath, a.workdir + "/") &&
              EndsWith(a.containerPath, project) &&
              a.image == LastComponent(project) + "_base_image:latest" && '/' !in LastComponent(project) &&
              EndsWith(project, LastComponent(project)) &&
              a.driverDestName == "fuzzer.c" && a.fuzzDriver == driverPath &&
              a.output == CompileOutputPath(project, config, cwd)
  {
    var r := BuildCompileArgs(project, driverPath, config, cwd, files);
    if r.Some? {
      if '/' in project {
        ContainerPrefixes(project);
        AppendSplit("/ws" + "/", "src/" + project);
        AppendSplit("/ws/src/", project);
      } else {
        ContainerPrefixes(project);
        AppendSplit("/src/", project);
      }
    }
  }

  /** The nested layout's container path is the workdir, a `/`, and `src/<project>`. */
  lemma ContainerPrefixes(project: string)
    ensures "/ws/src/" + project == ("/ws" + "/") + ("src/" + project) && "/src/" == "/src" + "/"
  {
  }

  /**
   * What one compile check does: its result, whether it raised SystemExit,
   * whether another exception escaped it (_check_compile lets those
   * through), and the log it wrote.
   */
  datatype CompileRun = CompileRun(result: int, exited: bool, raised: bool, log: Option<string>)

  /** _check_compile, when nothing else escaped: SystemExit counts as result 0 (failure). */
  function CheckCompile(run: CompileRun): int
  {
    if run.exited then 0 else run.result
  }

  /** The compile check's effect on the host: its log, when it writes one, replaces the output file. */
  function WriteLog(files: map<string, string>, output: string, run: CompileRun): map<string, string>
  {
    if run.log.Some? then files[output := run.log.value] else files
  }

  /** _read_compile_output: the file's text, or "" for an empty path or a missing file. */
  function ReadCompileOutput(files: map<string, string>, path: string): string
  {
    if path == "" || path !in files then "" else files[path]
  }

  // ---------------------------------------------------------------------
  // fix_compilation

  datatype FixOutcome = FixOutcome(fixed: bool, files: map<string, string>)

  /**
   * fix_compilation: ask the model (`reply`, given the current code and
   * the error text) for a repaired driver and overwrite the driver file
   * with the code extracted from its reply.
   */
  function FixCompilation(files: map<string, string>, driverPath: string, error: string,
                          reply: (string, string) -> string): FixOutcome
  {
    if error == "" then FixOutcome(false, files)
    else if driverPath !in files then FixOutcome(false, files)
    else
      var fixedCode := ExtractCode(reply(files[driverPath], error));
      if fixedCode == NoCodeFound then FixOutcome(false, files)
      else FixOutcome(true, files[driverPath := fixedCode])
  }

  /**
   * fix_compilation declines (and touches nothing) exactly on an empty
   * error, a missing driver, or a reply without a code block; otherwise
   * it replaces the driver's contents and nothing else.
   */
  lemma FixCompilationCases(files: map<string, string>, driverPath: string, error: string,
                            reply: (string, string) -> string)
    ensures var f := FixCompilation(files, driverPath, error, reply);
            !f.fixed <==> error == "" || driverPath !in files ||
                          ExtractCode(reply(files[driverPath], error)) == NoCodeFound
    ensures var f := FixCompilation(files, driverPath, error, reply);
            !f.fixed ==> f.files == files
    ensures var f := FixCompilation(files, driverPath, error, reply);
            f.fixed ==> f.files.Keys == files.Keys && f.files[driverPath] != NoCodeFound &&
                        f.files[driverPath] == ExtractCode(reply(files[driverPath], error)) &&
                        forall p | p in files && p != driverPath :: f.files[p] == files[p]
  {
  }

  // ---------------------------------------------------------------------
  // The repair loop of driver_gen / generate_single_fuzz_driver

  /** Which candidate and which round an oracle is asked about. */
  datatype Round = Round(candidate: nat, attempt: nat)

  /**
   * The language model and the compile check. `generate` is the raw reply
   * to the generation prompt of a candidate; `compile` runs the check on
   * the driver's source; `repair` is the raw reply to the fix prompt
   * (current code, error text).
   */
  datatype Oracles = Oracles(
    generate: nat -> string,
    compile: (Round, string) -> CompileRun,
    repair: (Round, string, string) -> string)

  /**
   * Why the repair loop stopped. `Aborted(round)`: the check of that round
   * raised an exception other than SystemExit, which leaves the loop (and
   * the caller) with the driver file in place.
   */
  datatype Stop = Compiled | OutOfAttempts | FixDeclined | Aborted(round: nat)

  /**
   * The fix the loop tries in `files` at attempt `attempt`: fix_compilation
   * given the compile output and the model's reply in that round
   * (FixAtIsFixCompilation).
   */
  function FixAt(files: map<string, string>, driverPath: string, output: string,
                 candidate: nat, attempt: nat, oracles: Oracles): FixOutcome
  {
    var error := ReadCompileOutput(files, output);
    if error == "" || driverPath !in files then FixOutcome(false, files)
    else
      var fixedCode := ExtractCode(oracles.repair(Round(candidate, attempt), files[driverPath], error));
      if fixedCode == NoCodeFound then FixOutcome(false, files)
      else FixOutcome(true, files[driverPath := fixedCode])
  }

  lemma FixAtIsFixCompilation(files: map<string, string>, driverPath: string, output: string,
                              candidate: nat, attempt: nat, oracles: Oracles)
    ensures FixAt(files, driverPath, output, candidate, attempt, oracles) ==
            FixCompilation(files, driverPath, ReadCompileOutput(files, output),
                           (code, error) => oracles.repair(Round(candidate, attempt), code, error))
  {
  }

  /**
   * How the repair loop ends: the last compile result, the number of
   * fixes made, why it stopped and the host files at that point (before
   * the deletion). `compiled` lists the driver source compiled in each
   * round and `errors` the error text each accepted fix was given.
   */
  datatype Repair = Repair(compileOk: int, attempts: nat, stop: Stop, files: map<string, string>,
                           compiled: seq<string>, errors: seq<string>)

  /**
   * The repair loop from round `attempts`, whose compile of `last` gave
   * `compileOk`: while the result is 0 and fewer than five fixes were
   * made, fix the driver from the compile output (stopping when the fix
   * is declined) and compile again.
   */
  function RepairFrom(files: map<string, string>, driverPath: string, output: string, candidate: nat,
                      oracles: Oracles, compileOk: int, attempts: nat, last: string): Repair
    requires attempts <= MaxFixAttempts
    decreases MaxFixAttempts - attempts
  {
    if compileOk != 0 then Repair(compileOk, attempts, Compiled, files, [last], [])
    else if attempts == MaxFixAttempts then Repair(compileOk, attempts, OutOfAttempts, files, [last], [])
    else
      var fix := FixAt(files, driverPath, output, candidate, attempts, oracles);
      if !fix.fixed then Repair(compileOk, attempts, FixDeclined, files, [last], [])
      else
        var code := fix.files[driverPath];
        var run := oracles.compile(Round(candidate, attempts + 1), code);
        if run.raised then Repair(compileOk, attempts, Aborted(attempts + 1), WriteLog(fix.files, output, run), [last], [])
        else
          var r := RepairFrom(WriteLog(fix.files, output, run), driverPath, output, candidate, oracles,
                              CheckCompile(run), attempts + 1, code);
          r.(compiled := [last] + r.compiled, errors := [ReadCompileOutput(files, output)] + r.errors)
  }

  /** The whole repair loop: the first compile of the written driver, then the fixes. */
  function RepairRun(files: map<string, string>, driverPath: string, output: string, candidate: nat,
                     oracles: Oracles): Repair
    requires driverPath in files
  {
    var run := oracles.compile(Round(candidate, 0), files[driverPath]);
    if run.raised then Repair(0, 0, Aborted(0), WriteLog(files, output, run), [files[driverPath]], [])
    else
      RepairFrom(WriteLog(files, output, run), driverPath, output, candidate, oracles,
                 CheckCompile(run), 0, files[driverPath])
  }

  /** The host files after the loop: the driver is removed when the last result is 0, unless a check raised. */
  function RepairResult(files: map<string, string>, driverPath: string, output: string, candidate: nat,
                        oracles: Oracles): map<string, string>
    requires driverPath in files
  {
    var r := RepairRun(files, driverPath, output, candidate, oracles);
    if r.compileOk == 0 && !r.stop.Aborted? then r.files - {driverPath} else r.files
  }

  /** What one fix attempt of the loop does to the host files (fix_compilation, seen from the loop). */
  lemma FixAtDriver(files: map<string, string>, driverPath: string, output: string, candidate: nat,
                    attempt: nat, oracles: Oracles)
    ensures FixAt(files, driverPath, output, candidate, attempt, oracles).fixed ==>
              driverPath in FixAt(files, driverPath, output, candidate, attempt, oracles).files
  {
  }
  lemma FixAtSpec(files: map<string, string>, driverPath: string, output: string, candidate: nat,
                  attempt: nat, oracles: Oracles)
    ensures var fix := FixAt(files, driverPath, output, candidate, attempt, oracles);
            !fix.fixed ==> fix.files == files
    ensures var fix := FixAt(files, driverPath, output, candidate, attempt, oracles);
            var error := ReadCompileOutput(files, output);
            fix.fixed ==>
              driverPath in files && error != "" && driverPath in fix.files &&
              fix.files[driverPath] == ExtractCode(oracles.repair(Round(candidate, attempt), files[driverPath], error)) &&
              fix.files[driverPath] != NoCodeFound &&
              forall p | p != driverPath :: (p in fix.files <==> p in files) && (p in files ==> fix.files[p] == files[p])
  {
  }

  /** The loop stops within five fixes, for the reason its last state gives. */
  lemma {:induction false} RepairFromEnd(files: map<string, string>, driverPath: string, output: string,
                                         candidate: nat, oracles: Oracles, compileOk: int, attempts: nat,
                                         last: string)
    requires attempts <= MaxFixAttempts
    ensures var r := RepairFrom(files, driverPath, output, candidate, oracles, compileOk, attempts, last);
            attempts <= r.attempts <= MaxFixAttempts &&
            (r.stop == Compiled <==> r.compileOk != 0) &&
            (r.stop == OutOfAttempts ==> r.attempts == MaxFixAttempts) &&
            (r.stop.Aborted? ==>
               r.compileOk == 0 && r.attempts < MaxFixAttempts && r.stop.round == r.attempts + 1)
    decreases MaxFixAttempts - attempts
  {
    if compileOk == 0 && attempts < MaxFixAttempts {
      var fix := FixAt(files, driverPath, output, candidate, attempts, oracles);
      if fix.fixed {
        FixAtDriver(files, driverPath, output, candidate, attempts, oracles);
        var code := fix.files[driverPath];
        var run := oracles.compile(Round(candidate, attempts + 1), code);
        if !run.raised {
          RepairFromEnd(WriteLog(fix.files, output, run), driverPath, output, candidate, oracles,
                        CheckCompile(run), attempts + 1, code);
        }
      }
    }
  }

  /**
   * The loop stops on a declined fix only when the fix in its last state
   * is declined, and a loop that made no fix and did not abort keeps the
   * result and the files it started from.
   */
  lemma {:induction false} RepairFromDeclined(files: map<string, string>, driverPath: string, output: string,
                                              candidate: nat, oracles: Oracles, compileOk: int, attempts: nat,
                                              last: string)
    requires attempts <= MaxFixAttempts
    ensures var r := RepairFrom(files, driverPath, output, candidate, oracles, compileOk, attempts, last);
            attempts <= r.attempts &&
            (r.stop == FixDeclined ==>
               r.attempts < MaxFixAttempts && !FixAt(r.files, driverPath, output, candidate, r.attempts, oracles).fixed) &&
            (r.attempts == attempts && !r.stop.Aborted? ==> r.compileOk == compileOk && r.files == files)
    decreases MaxFixAttempts - attempts
  {
    if compileOk == 0 && attempts < MaxFixAttempts {
      var fix := FixAt(files, driverPath, output, candidate, attempts, oracles);
      if fix.fixed {
        FixAtDriver(files, driverPath, output, candidate, attempts, oracles);
        var code := fix.files[driverPath];
        var run := oracles.compile(Round(candidate, attempts + 1), code);
        if !run.raised {
          RepairFromDeclined(WriteLog(fix.files, output, run), driverPath, output, candidate, oracles,
                             CheckCompile(run), attempts + 1, code);
        }
      }
    }
  }

  /** The driver file stays in place, and no file other than the driver and the compile output changes. */
  lemma {:induction false} RepairFromFiles(files: map<string, string>, driverPath: string, output: string,
                                           candidate: nat, oracles: Oracles, compileOk: int, attempts: nat,
                                           last: string)
    requires attempts <= MaxFixAttempts && driverPath in files
    ensures var r := RepairFrom(files, driverPath, output, candidate, oracles, compileOk, attempts, last);
            driverPath in r.files &&
            forall p | p != driverPath && p != output ::
              (p in r.files <==> p in files) && (p in files ==> r.files[p] == files[p])
    decreases MaxFixAttempts - attempts
  {
    if compileOk == 0 && attempts < MaxFixAttempts {
      var fix := FixAt(files, driverPath, output, candidate, attempts, oracles);
      if fix.fixed {
        FixAtSpec(files, driverPath, output, candidate, attempts, oracles);
        var code := fix.files[driverPath];
        var run := oracles.compile(Round(candidate, attempts + 1), code);
        if !run.raised {
          RepairFromFiles(WriteLog(fix.files, output, run), driverPath, output, candidate, oracles,
                          CheckCompile(run), attempts + 1, code);
        }
      }
    }
  }

  /** The loop records one compiled source per round and one error text per accepted fix. */
  lemma {:induction false} RepairFromLengths(files: map<string, string>, driverPath: string, output: string,
                                             candidate: nat, oracles: Oracles, compileOk: int, attempts: nat,
                                             last: string)
    requires attempts <= MaxFixAttempts
    ensures var r := RepairFrom(files, driverPath, output, candidate, oracles, compileOk, attempts, last);
            attempts <= r.attempts &&
            |r.compiled| == r.attempts - attempts + 1 && |r.errors| == r.attempts - attempts && r.compiled[0] == last
    decreases MaxFixAttempts - attempts
  {
    if compileOk == 0 && attempts < MaxFixAttempts {
      var fix := FixAt(files, driverPath, output, candidate, attempts, oracles);
      if fix.fixed {
        FixAtDriver(files, driverPath, output, candidate, attempts, oracles);
        var code := fix.files[driverPath];
        var run := oracles.compile(Round(candidate, attempts + 1), code);
        if !run.raised {
          RepairFromLengths(WriteLog(fix.files, output, run), driverPath, output, candidate, oracles,
                            CheckCompile(run), attempts + 1, code);
        }
      }
    }
  }

  /**
   * A round that did not end the loop: the check of `source` gave 0, the
   * error text is the log it wrote (when it wrote one and the output path
   * is not empty), and `next` is the code the model's reply to `source`
   * and that error held.
   */
  predicate FailedRound(source: string, error: string, next: string, output: string, round: Round,
                        oracles: Oracles)
  {
    var run := oracles.compile(round, source);
    CheckCompile(run) == 0 && error != "" &&
    (output != "" && run.log.Some? ==> error == run.log.value) &&
    next == ExtractCode(oracles.repair(round, source, error)) && next != NoCodeFound
  }

  /** Every recorded round from round `from` on, except the last, failed and was repaired. */
  predicate FailedRounds(compiled: seq<string>, errors: seq<string>, output: string, candidate: nat,
                         from: nat, oracles: Oracles)
    requires |compiled| == |errors| + 1
  {
    forall k | 0 <= k < |errors| ::
      FailedRound(compiled[k], errors[k], compiled[k + 1], output, Round(candidate, from + k), oracles)
  }

  lemma FailedRoundsCons(source: string, error: string, compiled: seq<string>, errors: seq<string>,
                         output: string, candidate: nat, from: nat, oracles: Oracles)
    requires |compiled| == |errors| + 1
    requires FailedRound(source, error, compiled[0], output, Round(candidate, from), oracles)
    requires FailedRounds(compiled, errors, output, candidate, from + 1, oracles)
    ensures FailedRounds([source] + compiled, [error] + errors, output, candidate, from, oracles)
  {
    var cs, es := [source] + compiled, [error] + errors;
    forall k | 0 <= k < |es|
      ensures FailedRound(cs[k], es[k], cs[k + 1], output, Round(candidate, from + k), oracles)
    {
      if k > 0 {
        assert cs[k] == compiled[k - 1] && cs[k + 1] == compiled[k] && es[k] == errors[k - 1];
        assert from + k == (from + 1) + (k - 1);
      }
    }
  }

  /** A round whose fix was taken failed its compile, had a non-empty error and received code. */
  lemma FixedRoundFailed(files: map<string, string>, driverPath: string, output: string, candidate: nat,
                         oracles: Oracles, attempts: nat, last: string)
    requires driverPath in files && files[driverPath] == last
    requires CheckCompile(oracles.compile(Round(candidate, attempts), last)) == 0
    requires oracles.compile(Round(candidate, attempts), last).log.Some? ==>
               output in files && files[output] == oracles.compile(Round(candidate, attempts), last).log.value
    requires FixAt(files, driverPath, output, candidate, attempts, oracles).fixed
    ensures FailedRound(last, ReadCompileOutput(files, output),
                        FixAt(files, driverPath, output, candidate, attempts, oracles).files[driverPath],
                        output, Round(candidate, attempts), oracles)
  {
    FixAtSpec(files, driverPath, output, candidate, attempts, oracles);
  }
  lemma {:induction false} RepairFromLast(files: map<string, string>, driverPath: string, output: string,
                                          candidate: nat, oracles: Oracles, compileOk: int, attempts: nat,
                                          last: string)
    requires attempts <= MaxFixAttempts && driverPath in files && driverPath != output
    requires files[driverPath] == last
    requires compileOk == CheckCompile(oracles.compile(Round(candidate, attempts), last))
    ensures var r := RepairFrom(files, driverPath, output, candidate, oracles, compileOk, attempts, last);
            attempts <= r.attempts && |r.compiled| == r.attempts - attempts + 1 && driverPath in r.files &&
            r.compileOk == CheckCompile(oracles.compile(Round(candidate, r.attempts), r.compiled[r.attempts - attempts])) &&
            (!r.stop.Aborted? ==> r.files[driverPath] == r.compiled[r.attempts - attempts])
    decreases MaxFixAttempts - attempts
  {
    RepairFromLengths(files, driverPath, output, candidate, oracles, compileOk, attempts, last);
    if compileOk == 0 && attempts < MaxFixAttempts {
      var fix := FixAt(files, driverPath, output, candidate, attempts, oracles);
      if fix.fixed {
        FixAtDriver(files, driverPath, output, candidate, attempts, oracles);
        var code := fix.files[driverPath];
        var run := oracles.compile(Round(candidate, attempts + 1), code);
        if !run.raised {
          var next := WriteLog(fix.files, output, run);
          RepairFromLast(next, driverPath, output, candidate, oracles, CheckCompile(run), attempts + 1, code);
          var s := RepairFrom(next, driverPath, output, candidate, oracles, CheckCompile(run), attempts + 1, code);
          var r := RepairFrom(files, driverPath, output, candidate, oracles, compileOk, attempts, last);
          assert r == s.(compiled := [last] + s.compiled, errors := [ReadCompileOutput(files, output)] + s.errors);
          assert r.compiled[r.attempts - attempts] == s.compiled[s.attempts - (attempts + 1)];
        }
      }
    }
  }
  /** A loop stopped by a check that raised holds, in the driver file, the source that check was given. */
  lemma {:induction false} RepairFromAborted(files: map<string, string>, driverPath: string, output: string,
                                             candidate: nat, oracles: Oracles, compileOk: int, attempts: nat,
                                             last: string)
    requires attempts <= MaxFixAttempts && driverPath != output
    ensures var r := RepairFrom(files, driverPath, output, candidate, oracles, compileOk, attempts, last);
            r.stop.Aborted? ==>
              driverPath in r.files && oracles.compile(Round(candidate, r.stop.round), r.files[driverPath]).raised
    decreases MaxFixAttempts - attempts
  {
    if compileOk == 0 && attempts < MaxFixAttempts {
      var fix := FixAt(files, driverPath, output, candidate, attempts, oracles);
      if fix.fixed {
        FixAtDriver(files, driverPath, output, candidate, attempts, oracles);
        var code := fix.files[driverPath];
        var run := oracles.compile(Round(candidate, attempts + 1), code);
        if !run.raised {
          RepairFromAborted(WriteLog(fix.files, output, run), driverPath, output, candidate, oracles,
                            CheckCompile(run), attempts + 1, code);
        }
      }
    }
  }
  lemma {:induction false} RepairFromFailed(files: map<string, string>, driverPath: string, output: string,
                                            candidate: nat, oracles: Oracles, compileOk: int, attempts: nat,
                                            last: string)
    requires attempts <= MaxFixAttempts && driverPath in files && driverPath != output
    requires files[driverPath] == last
    requires compileOk == CheckCompile(oracles.compile(Round(candidate, attempts), last))
    requires oracles.compile(Round(candidate, attempts), last).log.Some? ==>
               output in files && files[output] == oracles.compile(Round(candidate, attempts), last).log.value
    ensures var r := RepairFrom(files, driverPath, output, candidate, oracles, compileOk, attempts, last);
            |r.compiled| == |r.errors| + 1 && FailedRounds(r.compiled, r.errors, output, candidate, attempts, oracles)
    decreases MaxFixAttempts - attempts
  {
    RepairFromLengths(files, driverPath, output, candidate, oracles, compileOk, attempts, last);
    if compileOk == 0 && attempts < MaxFixAttempts {
      var fix := FixAt(files, driverPath, output, candidate, attempts, oracles);
      if fix.fixed {
        FixedRoundFailed(files, driverPath, output, candidate, oracles, attempts, last);
        FixAtDriver(files, driverPath, output, candidate, attempts, oracles);
        var code := fix.files[driverPath];
        var run := oracles.compile(Round(candidate, attempts + 1), code);
        var next := WriteLog(fix.files, output, run);
        if !run.raised {
          RepairFromFailed(next, driverPath, output, candidate, oracles, CheckCompile(run), attempts + 1, code);
          RepairFromLengths(next, driverPath, output, candidate, oracles, CheckCompile(run), attempts + 1, code);
          var s := RepairFrom(next, driverPath, output, candidate, oracles, CheckCompile(run), attempts + 1, code);
          assert RepairFrom(files, driverPath, output, candidate, oracles, compileOk, attempts, last) ==
                 s.(compiled := [last] + s.compiled, errors := [ReadCompileOutput(files, output)] + s.errors);
          FailedRoundsCons(last, ReadCompileOutput(files, output), s.compiled, s.errors, output, candidate, attempts, oracles);
          return;
        }
      }
    }
    assert RepairFrom(files, driverPath, output, candidate, oracles, compileOk, attempts, last).errors == [];
  }


  /**
   * The repair loop, end to end: at most five fixes; a check that raises
   * anything but SystemExit ends it at once with the driver kept (the
   * first check exactly when it stops at round 0); otherwise the driver
   * is deleted exactly when the last compile result is 0 (a first check
   * that raised SystemExit counts as 0), and otherwise holds the last
   * source compiled, which passed; every earlier round failed and was
   * followed by an accepted fix of its source and its error; nothing but
   * the driver and the compile output changes.
   */
  lemma RepairRunEnd(files: map<string, string>, driverPath: string, output: string, candidate: nat,
                     oracles: Oracles)
    requires driverPath in files
    ensures var r := RepairRun(files, driverPath, output, candidate, oracles);
            var result := RepairResult(files, driverPath, output, candidate, oracles);
            r.attempts <= MaxFixAttempts && (r.stop == Compiled <==> r.compileOk != 0) &&
            (r.stop == OutOfAttempts ==> r.attempts == MaxFixAttempts) &&
            (driverPath in result <==> r.compileOk != 0 || r.stop.Aborted?) &&
            (r.stop.Aborted? ==> r.compileOk == 0 && result == r.files) &&
            (oracles.compile(Round(candidate, 0), files[driverPath]).raised <==> r.stop == Aborted(0)) &&
            (r.attempts == 0 && !r.stop.Aborted? && oracles.compile(Round(candidate, 0), files[driverPath]).exited ==>
               driverPath !in result)
  {
    var run := oracles.compile(Round(candidate, 0), files[driverPath]);
    var start := WriteLog(files, output, run);
    if !run.raised {
      RepairFromEnd(start, driverPath, output, candidate, oracles, CheckCompile(run), 0, files[driverPath]);
      RepairFromDeclined(start, driverPath, output, candidate, oracles, CheckCompile(run), 0, files[driverPath]);
      RepairFromFiles(start, driverPath, output, candidate, oracles, CheckCompile(run), 0, files[driverPath]);
    }
  }
  lemma RepairRunFrame(files: map<string, string>, driverPath: string, output: string, candidate: nat,
                       oracles: Oracles)
    requires driverPath in files
    ensures var result := RepairResult(files, driverPath, output, candidate, oracles);
            forall p | p != driverPath && p != output ::
              (p in result <==> p in files) && (p in files ==> result[p] == files[p])
  {
    var run := oracles.compile(Round(candidate, 0), files[driverPath]);
    var start := WriteLog(files, output, run);
    if !run.raised {
      RepairFromFiles(start, driverPath, output, candidate, oracles, CheckCompile(run), 0, files[driverPath]);
    }
  }
  lemma RepairRunRounds(files: map<string, string>, driverPath: string, output: string, candidate: nat,
                        oracles: Oracles)
    requires driverPath in files && driverPath != output
    ensures var r := RepairRun(files, driverPath, output, candidate, oracles);
            var result := RepairResult(files, driverPath, output, candidate, oracles);
            |r.compiled| == r.attempts + 1 && |r.errors| == r.attempts && r.compiled[0] == files[driverPath] &&
            FailedRounds(r.compiled, r.errors, output, candidate, 0, oracles)
  {
    var run := oracles.compile(Round(candidate, 0), files[driverPath]);
    var start := WriteLog(files, output, run);
    if !run.raised {
      RepairFromLengths(start, driverPath, output, candidate, oracles, CheckCompile(run), 0, files[driverPath]);
      RepairFromFailed(start, driverPath, output, candidate, oracles, CheckCompile(run), 0, files[driverPath]);
    }
  }
  lemma RepairRunLast(files: map<string, string>, driverPath: string, output: string, candidate: nat,
                      oracles: Oracles)
    requires driverPath in files && driverPath != output
    ensures var r := RepairRun(files, driverPath, output, candidate, oracles);
            var result := RepairResult(files, driverPath, output, candidate, oracles);
            |r.compiled| == r.attempts + 1 &&
            (!r.stop.Aborted? ==>
               r.compileOk == CheckCompile(oracles.compile(Round(candidate, r.attempts), r.compiled[r.attempts])) &&
               (driverPath in result ==> result[driverPath] == r.compiled[r.attempts]) &&
               (oracles.compile(Round(candidate, r.attempts), r.compiled[r.attempts]).exited ==> driverPath !in result)) &&
            (r.stop.Aborted? ==>
               driverPath in result && oracles.compile(Round(candidate, r.stop.round), result[driverPath]).raised)
  {
    var run := oracles.compile(Round(candidate, 0), files[driverPath]);
    var start := WriteLog(files, output, run);
    if !run.raised {
      RepairFromLast(start, driverPath, output, candidate, oracles, CheckCompile(run), 0, files[driverPath]);
      RepairFromAborted(start, driverPath, output, candidate, oracles, CheckCompile(run), 0, files[driverPath]);
    }
  }


  /**
   * A driver that fails its first compile, is repaired from that error
   * and then compiles stops after one fix and is kept with the fix.
   */
  lemma RepairFixedThenCompiled(files: map<string, string>, driverPath: string, output: string, candidate: nat,
                                oracles: Oracles)
    requires driverPath in files && driverPath != output
    requires var run := oracles.compile(Round(candidate, 0), files[driverPath]);
             var error := ReadCompileOutput(WriteLog(files, output, run), output);
             var fixed := ExtractCode(oracles.repair(Round(candidate, 0), files[driverPath], error));
             !run.raised && CheckCompile(run) == 0 && error != "" && fixed != NoCodeFound &&
             !oracles.compile(Round(candidate, 1), fixed).raised && CheckCompile(oracles.compile(Round(candidate, 1), fixed)) != 0
    ensures var run := oracles.compile(Round(candidate, 0), files[driverPath]);
            var error := ReadCompileOutput(WriteLog(files, output, run), output);
            var fixed := ExtractCode(oracles.repair(Round(candidate, 0), files[driverPath], error));
            var r := RepairRun(files, driverPath, output, candidate, oracles);
            var result := RepairResult(files, driverPath, output, candidate, oracles);
            r.attempts == 1 && r.stop == Compiled && driverPath in result && result[driverPath] == fixed
  {
    var run := oracles.compile(Round(candidate, 0), files[driverPath]);
    var start := WriteLog(files, output, run);
    var fix := FixAt(start, driverPath, output, candidate, 0, oracles);
    FixAtSpec(start, driverPath, output, candidate, 0, oracles);
    assert fix.fixed;
    var run1 := oracles.compile(Round(candidate, 1), fix.files[driverPath]);
    var next := WriteLog(fix.files, output, run1);
    assert RepairRun(files, driverPath, output, candidate, oracles).files == next;
  }

  /** From a failed round whose log is in the output file, every round failing and every fix accepted. */
  lemma {:induction false} RepairFromAllFail(files: map<string, string>, driverPath: string, output: string,
                                             candidate: nat, oracles: Oracles, attempts: nat, last: string)
    requires attempts <= MaxFixAttempts && driverPath in files && driverPath != output && output != ""
    requires output in files && files[output] != ""
    requires forall k: nat, s: string :: !oracles.compile(Round(candidate, k), s).raised &&
                                        CheckCompile(oracles.compile(Round(candidate, k), s)) == 0 &&
                                        oracles.compile(Round(candidate, k), s).log.Some? &&
                                        oracles.compile(Round(candidate, k), s).log.value != ""
    requires forall k: nat, code: string, error: string ::
               ExtractCode(oracles.repair(Round(candidate, k), code, error)) != NoCodeFound
    ensures var r := RepairFrom(files, driverPath, output, candidate, oracles, 0, attempts, last);
            r.attempts == MaxFixAttempts && r.stop == OutOfAttempts && r.compileOk == 0
    decreases MaxFixAttempts - attempts
  {
    if attempts < MaxFixAttempts {
      var fix := FixAt(files, driverPath, output, candidate, attempts, oracles);
      FixAtSpec(files, driverPath, output, candidate, attempts, oracles);
      var code := fix.files[driverPath];
      var run := oracles.compile(Round(candidate, attempts + 1), code);
      RepairFromAllFail(WriteLog(fix.files, output, run), driverPath, output, candidate, oracles, attempts + 1, code);
    }
  }

  /**
   * When every compile fails (without raising) with a non-empty log and the model always
   * answers with a code block, the loop makes all five fixes and the
   * driver is deleted.
   */
  lemma RepairAllFail(files: map<string, string>, driverPath: string, output: string, candidate: nat,
                      oracles: Oracles)
    requires driverPath in files && driverPath != output && output != ""
    requires forall k: nat, s: string :: !oracles.compile(Round(candidate, k), s).raised &&
                                        CheckCompile(oracles.compile(Round(candidate, k), s)) == 0 &&
                                        oracles.compile(Round(candidate, k), s).log.Some? &&
                                        oracles.compile(Round(candidate, k), s).log.value != ""
    requires forall k: nat, code: string, error: string ::
               ExtractCode(oracles.repair(Round(candidate, k), code, error)) != NoCodeFound
    ensures var r := RepairRun(files, driverPath, output, candidate, oracles);
            r.attempts == MaxFixAttempts && r.stop == OutOfAttempts &&
            driverPath !in RepairResult(files, driverPath, output, candidate, oracles)
  {
    var run := oracles.compile(Round(candidate, 0), files[driverPath]);
    RepairFromAllFail(WriteLog(files, output, run), driverPath, output, candidate, oracles, 0, files[driverPath]);
  }

  /**
   * Compile; while the result is 0 and fewer than five fixes were made,
   * read the compile output, fix (leaving the loop when the fix is
   * declined) and compile again; finally delete the driver if the last
   * result is 0. A check that raises anything but SystemExit ends the
   * loop with `Aborted` and skips the deletion. The loop ends as RepairRun
   * says and leaves the files RepairResult gives.
   */
  method RepairLoop(files: map<string, string>, driverPath: string, output: string,
                    candidate: nat, oracles: Oracles)
    returns (compileOk: int, attempts: nat, stop: Stop, result: map<string, string>)
    requires driverPath in files
    ensures var r := RepairRun(files, driverPath, output, candidate, oracles);
            compileOk == r.compileOk && attempts == r.attempts && stop == r.stop
    ensures result == RepairResult(files, driverPath, output, candidate, oracles)
    ensures attempts <= MaxFixAttempts && (stop == Compiled <==> compileOk != 0) &&
            (driverPath in result <==> compileOk != 0 || stop.Aborted?)
    ensures stop.Aborted? ==> compileOk == 0
    ensures stop == Aborted(0) <==> oracles.compile(Round(candidate, 0), files[driverPath]).raised
  {
    RepairRunEnd(files, driverPath, output, candidate, oracles);
    var first := oracles.compile(Round(candidate, 0), files[driverPath]);
    if first.raised {
      // the exception leaves the loop before any fix, and the driver stays
      return 0, 0, Aborted(0), WriteLog(files, output, first);
    }
    var current;
    compileOk, attempts, stop, current :=
      RepairRounds(WriteLog(files, output, first), driverPath, output, candidate, oracles,
                   CheckCompile(first), files[driverPath]);
    result := current;
    if compileOk == 0 && !stop.Aborted? {
      // os.remove would raise for a missing file; the driver is always there.
      result := current - {driverPath};
    }
    RepairResultOf(files, driverPath, output, candidate, oracles, result);
  }

  /** The while loop of the repair: fix and recompile until it compiles or five fixes were made. */
  method RepairRounds(files: map<string, string>, driverPath: string, output: string,
                      candidate: nat, oracles: Oracles, firstOk: int, ghost first: string)
    returns (compileOk: int, attempts: nat, stop: Stop, current: map<string, string>)
    requires driverPath in files
    ensures driverPath in current
    ensures SameEnd(RepairFrom(files, driverPath, output, candidate, oracles, firstOk, 0, first),
                    Repair(compileOk, attempts, stop, current, [], []))
  {
    current, compileOk, attempts := files, firstOk, 0;
    ghost var last := first;
    ghost var whole := RepairFrom(files, driverPath, output, candidate, oracles, firstOk, 0, first);
    stop := if compileOk != 0 then Compiled else OutOfAttempts;
    while compileOk == 0 && attempts < MaxFixAttempts
      invariant attempts <= MaxFixAttempts
      invariant driverPath in current
      invariant stop == (if compileOk != 0 then Compiled else OutOfAttempts)
      invariant SameEnd(RepairFrom(current, driverPath, output, candidate, oracles, compileOk, attempts, last), whole)
      decreases MaxFixAttempts - attempts
    {
      var fixed, raised, next, nextOk, code;
      fixed, raised, next, nextOk, code := RepairRound(current, driverPath, output, candidate, oracles, attempts, last);
      if !fixed {
        stop := FixDeclined;
        SameEndTrans(RepairFrom(current, driverPath, output, candidate, oracles, compileOk, attempts, last), whole,
                     Repair(compileOk, attempts, stop, current, [], []));
        break;
      }
      if raised {
        stop := Aborted(attempts + 1);
        SameEndTrans(RepairFrom(current, driverPath, output, candidate, oracles, compileOk, attempts, last), whole,
                     Repair(compileOk, attempts, stop, next, [], []));
        current := next;
        break;
      }
      SameEndTrans(RepairFrom(current, driverPath, output, candidate, oracles, compileOk, attempts, last),
                   RepairFrom(next, driverPath, output, candidate, oracles, nextOk, attempts + 1, code), whole);
      last, current, compileOk := code, next, nextOk;
      stop := if compileOk != 0 then Compiled else OutOfAttempts;
      attempts := attempts + 1;
    }
    if !stop.FixDeclined? && !stop.Aborted? {
      RepairFromDone(current, driverPath, output, candidate, oracles, compileOk, attempts, last);
      SameEndTrans(RepairFrom(current, driverPath, output, candidate, oracles, compileOk, attempts, last), whole,
                   Repair(compileOk, attempts, stop, current, [], []));
    }
  }

  /** The loop has nothing left to do once the compile passed or five fixes were made. */
  lemma RepairFromDone(files: map<string, string>, driverPath: string, output: string, candidate: nat,
                       oracles: Oracles, compileOk: int, attempts: nat, last: string)
    requires attempts <= MaxFixAttempts && (compileOk != 0 || attempts == MaxFixAttempts)
    ensures SameEnd(RepairFrom(files, driverPath, output, candidate, oracles, compileOk, attempts, last),
                    Repair(compileOk, attempts, if compileOk != 0 then Compiled else OutOfAttempts, files, [], []))
  {
  }


  /** RepairResult is the end state's files, less the driver when the last result is 0. */
  lemma RepairResultOf(files: map<string, string>, driverPath: string, output: string, candidate: nat,
                       oracles: Oracles, result: map<string, string>)
    requires driverPath in files
    requires var r := RepairRun(files, driverPath, output, candidate, oracles);
             result == if r.compileOk == 0 && !r.stop.Aborted? then r.files - {driverPath} else r.files
    ensures result == RepairResult(files, driverPath, output, candidate, oracles)
  {
  }

  /**
   * One iteration of the loop: read the compile output and ask
   * fix_compilation to repair the driver from it; a declined fix ends the
   * loop where it is; an accepted one is compiled, and either its check
   * raised (ending the loop in `next`) or the loop moves to the next round.
   */
  method RepairRound(current: map<string, string>, driverPath: string, output: string, candidate: nat,
                     oracles: Oracles, attempts: nat, ghost last: string)
    returns (fixed: bool, raised: bool, next: map<string, string>, compileOk: int, code: string)
    requires attempts < MaxFixAttempts
    ensures !fixed ==>
              SameEnd(RepairFrom(current, driverPath, output, candidate, oracles, 0, attempts, last),
                      Repair(0, attempts, FixDeclined, current, [], []))
    ensures fixed ==> driverPath in next
    ensures fixed && raised ==>
              SameEnd(RepairFrom(current, driverPath, output, candidate, oracles, 0, attempts, last),
                      Repair(0, attempts, Aborted(attempts + 1), next, [], []))
    ensures fixed && !raised ==>
              SameEnd(RepairFrom(current, driverPath, output, candidate, oracles, 0, attempts, last),
                      RepairFrom(next, driverPath, output, candidate, oracles, compileOk, attempts + 1, code))
  {
    var fix := FixAt(current, driverPath, output, candidate, attempts, oracles);
    FixAtSpec(current, driverPath, output, candidate, attempts, oracles);
    fixed := fix.fixed;
    if !fixed {
      return fixed, false, current, 0, "";
    }
    code := fix.files[driverPath];
    var run := oracles.compile(Round(candidate, attempts + 1), code);
    raised := run.raised;
    next := WriteLog(fix.files, output, run);
    compileOk := CheckCompile(run);
  }

  /** Two ends of the loop agree on everything the loop's caller sees. */
  lemma SameEndTrans(a: Repair, b: Repair, c: Repair)
    requires SameEnd(a, b) && SameEnd(a, c)
    ensures SameEnd(b, c)
  {
  }
  predicate SameEnd(a: Repair, b: Repair)
  {
    a.compileOk == b.compileOk && a.attempts == b.attempts && a.stop == b.stop && a.files == b.files
  }

  // ---------------------------------------------------------------------
  // driver_gen, generate_single_fuzz_driver

  /** The model name and language parts of a driver file name. */
  function FileSuffix(language: string): Option<string>
  {
    var l := Lower(language);
    if l == "c" then Some("c") else if l == "c++" then Some("cc") else None
  }

  function BoolName(b: bool): string
  {
    if b then "True" else "False"
  }

  /** The part of a driver file name before the candidate number. */
  function FuzzerPrefix(project: string, useMemory: bool, model: string): (r: string)
    ensures r != [] && r[0] != '/'
  {
    var safe := ReplaceChar(project, '/', '_');
    var rest := "_fuzz_driver_" + BoolName(useMemory) + "_" + ReplaceChar(model, ':', '_') + "_";
    assert rest[0] == '_';
    assert safe != [] ==> safe[0] != '/' by {
      if safe != [] {
        ReplaceCharAt(project, '/', '_', 0);
      }
    }
    safe + rest
  }

  /** The file name driver_gen gives its `i`-th candidate. */
  function FuzzerName(project: string, useMemory: bool, model: string, i: nat, suffix: string): string
  {
    FuzzerPrefix(project, useMemory, model) + (NatToString(i) + ("." + suffix))
  }

  /** Candidates of one call get different names, so no kept driver is overwritten by a later one. */
  lemma FuzzerNameInjective(project: string, useMemory: bool, model: string, i: nat, j: nat, suffix: string)
    requires FuzzerName(project, useMemory, model, i, suffix) == FuzzerName(project, useMemory, model, j, suffix)
    ensures i == j
  {
    var tail := "." + suffix;
    CancelPrefix(FuzzerPrefix(project, useMemory, model), NatToString(i) + tail, NatToString(j) + tail);
    CancelSuffix(NatToString(i), NatToString(j), tail);
    NatToStringInjective(i, j);
  }

  /** An API counts when some file's summary table has a non-empty summary for it. */
  predicate HasSummary(summaries: map<string, map<string, string>>, api: string)
  {
    exists file | file in summaries :: api in summaries[file] && summaries[file][api] != ""
  }

  /** The de-duplicated APIs of a combination that have a summary. */
  function Processed(apis: seq<string>, summaries: map<string, map<string, string>>): set<string>
  {
    set api | api in apis && HasSummary(summaries, api)
  }

  /** Some API in `processed` has no code (the `api_code[api]` lookup raises KeyError). */
  predicate MissingCode(processed: set<string>, apiCode: map<string, string>)
  {
    exists api | api in processed :: api !in apiCode
  }

  /** A combination driver_gen writes a driver for: some API has a summary, and every such API has code. */
  predicate Usable(apis: seq<string>, summaries: map<string, map<string, string>>, apiCode: map<string, string>)
  {
    Processed(apis, summaries) != {} && !MissingCode(Processed(apis, summaries), apiCode)
  }

  /**
   * How a call of driver_gen or generate_single_fuzz_driver ends.
   * `RaisedByCheck`: an exception other than SystemExit escaped a compile
   * check.
   */
  datatype GenOutcome = ReturnedFalse | ReturnedNone | RaisedKeyError | RaisedByCheck

  /**
   * The host files after one generated candidate: the extracted code is
   * written to `driverPath` and, when both project files exist, the
   * compile check and the repair loop run on it.
   */
  function CandidateFiles(files: map<string, string>, driverPath: string, response: string,
                          project: string, config: map<string, string>, cwd: string,
                          candidate: nat, oracles: Oracles): map<string, string>
  {
    var written := files[driverPath := ExtractCode(response)];
    if !ProjectReady(project, config, cwd, written.Keys) then written
    else RepairResult(written, driverPath, CompileOutputPath(project, config, cwd), candidate, oracles)
  }

  /** The candidate was checked and a check raised an exception other than SystemExit. */
  predicate CandidateAborts(files: map<string, string>, driverPath: string, response: string,
                            project: string, config: map<string, string>, cwd: string,
                            candidate: nat, oracles: Oracles)
  {
    var written := files[driverPath := ExtractCode(response)];
    ProjectReady(project, config, cwd, written.Keys) &&
    RepairRun(written, driverPath, CompileOutputPath(project, config, cwd), candidate, oracles).stop.Aborted?
  }

  /**
   * How a candidate ends, given the host files `result` after it: kept
   * unchecked, as written, when a project file is missing; otherwise the
   * loop made at most five fixes and the driver is kept exactly when its
   * last compile result is nonzero or a check raised. Unless the compile
   * output is the driver itself, a kept driver then holds the last source
   * compiled, which passed the check in that round, or the source whose
   * check raised.
   */
  predicate CandidateEnd(files: map<string, string>, driverPath: string, response: string,
                         project: string, config: map<string, string>, cwd: string,
                         candidate: nat, oracles: Oracles, result: map<string, string>)
  {
    var written := files[driverPath := ExtractCode(response)];
    var output := CompileOutputPath(project, config, cwd);
    var r := RepairRun(written, driverPath, output, candidate, oracles);
    (!ProjectReady(project, config, cwd, written.Keys) ==> result == written) &&
    (ProjectReady(project, config, cwd, written.Keys) ==>
       r.attempts <= MaxFixAttempts && (driverPath in result <==> r.compileOk != 0 || r.stop.Aborted?) &&
       (driverPath in result && driverPath != output && !r.stop.Aborted? ==>
          r.attempts < |r.compiled| && result[driverPath] == r.compiled[r.attempts] &&
          CheckCompile(oracles.compile(Round(candidate, r.attempts), result[driverPath])) != 0) &&
       (driverPath in result && driverPath != output && r.stop.Aborted? ==>
          oracles.compile(Round(candidate, r.stop.round), result[driverPath]).raised))
  }

  /**
   * A candidate ends as CandidateEnd says; in particular a first compile
   * that passes keeps the generated code.
   */
  lemma CandidateFate(files: map<string, string>, driverPath: string, response: string,
                      project: string, config: map<string, string>, cwd: string,
                      candidate: nat, oracles: Oracles)
    ensures CandidateEnd(files, driverPath, response, project, config, cwd, candidate, oracles,
                         CandidateFiles(files, driverPath, response, project, config, cwd, candidate, oracles))
    ensures var written := files[driverPath := ExtractCode(response)];
            var result := CandidateFiles(files, driverPath, response, project, config, cwd, candidate, oracles);
            ProjectReady(project, config, cwd, written.Keys) && driverPath != CompileOutputPath(project, config, cwd) &&
            CheckCompile(oracles.compile(Round(candidate, 0), ExtractCode(response))) != 0 ==>
              driverPath in result && result[driverPath] == ExtractCode(response)
  {
    var written := files[driverPath := ExtractCode(response)];
    var output := CompileOutputPath(project, config, cwd);
    if ProjectReady(project, config, cwd, written.Keys) {
      RepairRunEnd(written, driverPath, output, candidate, oracles);
      if driverPath != output {
        RepairRunLast(written, driverPath, output, candidate, oracles);
        var first := oracles.compile(Round(candidate, 0), written[driverPath]);
        if first.raised {
          assert RepairResult(written, driverPath, output, candidate, oracles) == WriteLog(written, output, first);
        }
      }
    }
  }

  /** A candidate changes no file but its driver and the compile output. */
  lemma CandidateFrame(files: map<string, string>, driverPath: string, response: string,
                       project: string, config: map<string, string>, cwd: string,
                       candidate: nat, oracles: Oracles)
    ensures var result := CandidateFiles(files, driverPath, response, project, config, cwd, candidate, oracles);
            forall p | p != driverPath && p != CompileOutputPath(project, config, cwd) ::
              (p in result <==> p in files) && (p in files ==> result[p] == files[p])
  {
    var written := files[driverPath := ExtractCode(response)];
    if ProjectReady(project, config, cwd, written.Keys) {
      RepairRunFrame(written, driverPath, CompileOutputPath(project, config, cwd), candidate, oracles);
    }
  }

  lemma CandidateFrameAt(files: map<string, string>, driverPath: string, response: string,
                         project: string, config: map<string, string>, cwd: string,
                         candidate: nat, oracles: Oracles, p: string)
    requires p != driverPath && p != CompileOutputPath(project, config, cwd)
    ensures var result := CandidateFiles(files, driverPath, response, project, config, cwd, candidate, oracles);
            (p in result <==> p in files) && (p in files ==> result[p] == files[p])
  {
    CandidateFrame(files, driverPath, response, project, config, cwd, candidate, oracles);
  }

  /**
   * One generated candidate: write the extracted code to `driverPath`,
   * build the compile arguments for `project` and, when they exist, run
   * the repair loop. `kept` says whether the file is still there;
   * `raised` that a compile check raised, which ends the caller too.
   */
  method ProcessCandidate(files: map<string, string>, driverPath: string, response: string,
                          project: string, config: map<string, string>, cwd: string,
                          candidate: nat, oracles: Oracles)
    returns (result: map<string, string>, kept: bool, raised: bool)
    ensures result == CandidateFiles(files, driverPath, response, project, config, cwd, candidate, oracles)
    ensures kept <==> driverPath in result
    ensures raised <==> CandidateAborts(files, driverPath, response, project, config, cwd, candidate, oracles)
    ensures raised ==> kept
    ensures CandidateEnd(files, driverPath, response, project, config, cwd, candidate, oracles, result)
  {
    var code := ExtractCode(response);
    var written := files[driverPath := code];
    var args := BuildCompileArgs(project, driverPath, config, cwd, written.Keys);
    BuildCompileArgsSpec(project, driverPath, config, cwd, written.Keys);
    if args.None? {
      result, raised := written, false;
    } else {
      var compileOk, attempts, stop;
      compileOk, attempts, stop, result := RepairLoop(written, driverPath, args.value.output, candidate, oracles);
      raised := stop.Aborted?;
    }
    kept := driverPath in result;
    CandidateFate(files, driverPath, response, project, config, cwd, candidate, oracles);
  }

  /** The files after `step` has been applied for candidates 1 to `n`, in turn. */
  function Iterate(files: map<string, string>, step: (map<string, string>, nat) -> map<string, string>,
                   n: nat): map<string, string>
    decreases n
  {
    if n == 0 then files else step(Iterate(files, step, n - 1), n)
  }

  /** `step` for candidate `j` changes no file but `path(j)` and `output`. */
  ghost predicate KeepsOthers(step: (map<string, string>, nat) -> map<string, string>, path: nat -> string,
                              output: string)
  {
    forall m: map<string, string>, j: nat, p: string | p != path(j) && p != output ::
      (p in step(m, j) <==> p in m) && (p in m ==> step(m, j)[p] == m[p])
  }

  /** Later steps leave the file of step `i` as step `i` left it, when no later step writes there. */
  lemma {:induction false} IterateKeep(files: map<string, string>, step: (map<string, string>, nat) -> map<string, string>,
                                       path: nat -> string, output: string, i: nat, n: nat)
    requires 1 <= i <= n && path(i) != output && KeepsOthers(step, path, output)
    requires forall j | i < j <= n :: path(j) != path(i)
    ensures var p, mid, end := path(i), Iterate(files, step, i), Iterate(files, step, n);
            (p in end <==> p in mid) && (p in mid ==> end[p] == mid[p])
    decreases n
  {
    if n > i {
      IterateKeep(files, step, path, output, i, n - 1);
      assert path(n) != path(i);
    }
  }

  /** A file no step writes, other than the output, is left as it was. */
  lemma {:induction false} IterateFrame(files: map<string, string>, step: (map<string, string>, nat) -> map<string, string>,
                                        path: nat -> string, output: string, n: nat, p: string)
    requires p != output && KeepsOthers(step, path, output)
    requires forall j | 1 <= j <= n :: path(j) != p
    ensures var end := Iterate(files, step, n);
            (p in end <==> p in files) && (p in files ==> end[p] == files[p])
    decreases n
  {
    if n > 0 {
      IterateFrame(files, step, path, output, n - 1, p);
      assert path(n) != p;
    }
  }

  /** driver_gen's step: candidate `i` written to its CandidatePath and checked. */
  function CandidateStep(outputDir: string, project: string, useMemory: bool, model: string, suffix: string,
                         config: map<string, string>, cwd: string, oracles: Oracles)
    : (map<string, string>, nat) -> map<string, string>
  {
    (m: map<string, string>, i: nat) =>
      CandidateFiles(m, CandidatePath(outputDir, project, useMemory, model, suffix, i), oracles.generate(i),
                     project, config, cwd, i, oracles)
  }

  /** driver_gen's candidate `i`, checked after the `i - 1` before it, had a compile check that raised. */
  predicate GenAborts(files: map<string, string>, outputDir: string, project: string, useMemory: bool,
                      model: string, suffix: string, config: map<string, string>, cwd: string,
                      oracles: Oracles, i: nat)
  {
    i >= 1 &&
    CandidateAborts(GenFiles(files, outputDir, project, useMemory, model, suffix, config, cwd, oracles, i - 1),
                    CandidatePath(outputDir, project, useMemory, model, suffix, i), oracles.generate(i),
                    project, config, cwd, i, oracles)
  }

  /**
   * driver_gen after its first `n` candidates, none of whose compile
   * checks raised: their drivers were written to DriverPaths, in order,
   * and the host files are those GenFiles gives.
   */
  predicate GenProgress(files: map<string, string>, outputDir: string, project: string, useMemory: bool,
                        model: string, suffix: string, config: map<string, string>, cwd: string,
                        oracles: Oracles, n: nat, paths: seq<string>, result: map<string, string>)
  {
    paths == DriverPaths(outputDir, project, useMemory, model, suffix, n) &&
    result == GenFiles(files, outputDir, project, useMemory, model, suffix, config, cwd, oracles, n) &&
    forall j | 1 <= j <= n :: !GenAborts(files, outputDir, project, useMemory, model, suffix, config, cwd, oracles, j)
  }

  /** driver_gen right after candidate `n`, the first whose compile check raised. */
  predicate GenRaised(files: map<string, string>, outputDir: string, project: string, useMemory: bool,
                      model: string, suffix: string, config: map<string, string>, cwd: string,
                      oracles: Oracles, n: nat, paths: seq<string>, result: map<string, string>)
  {
    n >= 1 &&
    paths == DriverPaths(outputDir, project, useMemory, model, suffix, n) &&
    result == GenFiles(files, outputDir, project, useMemory, model, suffix, config, cwd, oracles, n) &&
    (forall j | 1 <= j < n :: !GenAborts(files, outputDir, project, useMemory, model, suffix, config, cwd, oracles, j)) &&
    GenAborts(files, outputDir, project, useMemory, model, suffix, config, cwd, oracles, n)
  }

  lemma GenProgressStart(files: map<string, string>, outputDir: string, project: string, useMemory: bool,
                         model: string, suffix: string, config: map<string, string>, cwd: string, oracles: Oracles)
    ensures GenProgress(files, outputDir, project, useMemory, model, suffix, config, cwd, oracles, 0, [], files)
  {
    assert DriverPaths(outputDir, project, useMemory, model, suffix, 0) == [];
  }

  /** The host files after driver_gen's first `n` candidates. */
  function GenFiles(files: map<string, string>, outputDir: string, project: string, useMemory: bool,
                    model: string, suffix: string, config: map<string, string>, cwd: string,
                    oracles: Oracles, n: nat): map<string, string>
  {
    Iterate(files, CandidateStep(outputDir, project, useMemory, model, suffix, config, cwd, oracles), n)
  }

  lemma CandidateStepKeepsOthers(outputDir: string, project: string, useMemory: bool, model: string,
                                 suffix: string, config: map<string, string>, cwd: string, oracles: Oracles)
    ensures KeepsOthers(CandidateStep(outputDir, project, useMemory, model, suffix, config, cwd, oracles),
                        (j: nat) => CandidatePath(outputDir, project, useMemory, model, suffix, j),
                        CompileOutputPath(project, config, cwd))
  {
    var step := CandidateStep(outputDir, project, useMemory, model, suffix, config, cwd, oracles);
    forall m: map<string, string>, j: nat, p: string |
      p != CandidatePath(outputDir, project, useMemory, model, suffix, j) && p != CompileOutputPath(project, config, cwd)
      ensures (p in step(m, j) <==> p in m) && (p in m ==> step(m, j)[p] == m[p])
    {
      CandidateFrameAt(m, CandidatePath(outputDir, project, useMemory, model, suffix, j), oracles.generate(j),
                       project, config, cwd, j, oracles, p);
    }
  }

  /** driver_gen touches only its candidates' files and the compile output. */
  lemma DriverPathAt(outputDir: string, project: string, useMemory: bool, model: string,
                     suffix: string, n: nat, a: nat)
    requires a < n
    ensures DriverPaths(outputDir, project, useMemory, model, suffix, n)[a] ==
            CandidatePath(outputDir, project, useMemory, model, suffix, a + 1)
  {
  }
  /** A path missing from DriverPaths is none of the first `n` candidates' paths. */
  lemma DriverPathsOmit(outputDir: string, project: string, useMemory: bool, model: string,
                        suffix: string, n: nat, p: string)
    requires p !in DriverPaths(outputDir, project, useMemory, model, suffix, n)
    ensures forall j | 1 <= j <= n :: CandidatePath(outputDir, project, useMemory, model, suffix, j) != p
  {
    forall j | 1 <= j <= n
      ensures CandidatePath(outputDir, project, useMemory, model, suffix, j) != p
    {
      DriverPathAt(outputDir, project, useMemory, model, suffix, n, j - 1);
    }
  }
  lemma GenFilesFrame(files: map<string, string>, outputDir: string, project: string,
                      useMemory: bool, model: string, suffix: string,
                      config: map<string, string>, cwd: string, oracles: Oracles, n: nat, p: string)
    requires p != CompileOutputPath(project, config, cwd)
    requires p !in DriverPaths(outputDir, project, useMemory, model, suffix, n)
    ensures var end := GenFiles(files, outputDir, project, useMemory, model, suffix, config, cwd, oracles, n);
            (p in end <==> p in files) && (p in files ==> end[p] == files[p])
  {
    CandidateStepKeepsOthers(outputDir, project, useMemory, model, suffix, config, cwd, oracles);
    DriverPathsOmit(outputDir, project, useMemory, model, suffix, n, p);
    IterateFrame(files, CandidateStep(outputDir, project, useMemory, model, suffix, config, cwd, oracles),
                 (j: nat) => CandidatePath(outputDir, project, useMemory, model, suffix, j),
                 CompileOutputPath(project, config, cwd), n, p);

  }

  /**
   * The fate of driver_gen's `i`-th driver: at the end of the call it is
   * there exactly when its own candidate kept it: unchecked, with the
   * generated code, when a project file is missing, and otherwise exactly
   * when its repair loop ended with a nonzero compile result or a check
   * that raised.
   */
  lemma DriverFate(files: map<string, string>, outputDir: string, project: string, useMemory: bool,
                   model: string, suffix: string, config: map<string, string>, cwd: string,
                   oracles: Oracles, i: nat, n: nat)
    requires 1 <= i <= n
    requires CandidatePath(outputDir, project, useMemory, model, suffix, i) != CompileOutputPath(project, config, cwd)
    ensures var p := CandidatePath(outputDir, project, useMemory, model, suffix, i);
            var before := GenFiles(files, outputDir, project, useMemory, model, suffix, config, cwd, oracles, i - 1);
            var written := before[p := ExtractCode(oracles.generate(i))];
            var end := GenFiles(files, outputDir, project, useMemory, model, suffix, config, cwd, oracles, n);
            (!ProjectReady(project, config, cwd, written.Keys) ==> p in end && end[p] == ExtractCode(oracles.generate(i))) &&
            (ProjectReady(project, config, cwd, written.Keys) ==>
               var r := RepairRun(written, p, CompileOutputPath(project, config, cwd), i, oracles);
               (p in end <==> r.compileOk != 0 || r.stop.Aborted?))
  {
    var path := (j: nat) => CandidatePath(outputDir, project, useMemory, model, suffix, j);
    var step := CandidateStep(outputDir, project, useMemory, model, suffix, config, cwd, oracles);
    CandidateStepKeepsOthers(outputDir, project, useMemory, model, suffix, config, cwd, oracles);
    forall j | i < j <= n
      ensures path(j) != path(i)
    {
      if path(j) == path(i) {
        FuzzerPathInjective(outputDir, project, useMemory, model, suffix, j, i);
      }
    }
    IterateKeep(files, step, path, CompileOutputPath(project, config, cwd), i, n);
    var before := Iterate(files, step, i - 1);
    assert Iterate(files, step, i) ==
           CandidateFiles(before, path(i), oracles.generate(i), project, config, cwd, i, oracles);
    CandidateFate(before, path(i), oracles.generate(i), project, config, cwd, i, oracles);
  }

  /** One iteration of driver_gen's loop that writes a driver: candidate `i` after the `i - 1` before it. */
  method NextCandidate(files: map<string, string>, current: map<string, string>, outputDir: string,
                       project: string, useMemory: bool, model: string, suffix: string,
                       config: map<string, string>, cwd: string, oracles: Oracles, i: nat)
    returns (path: string, result: map<string, string>, raised: bool)
    requires i >= 1
    requires current == GenFiles(files, outputDir, project, useMemory, model, suffix, config, cwd, oracles, i - 1)
    ensures path == CandidatePath(outputDir, project, useMemory, model, suffix, i)
    ensures result == GenFiles(files, outputDir, project, useMemory, model, suffix, config, cwd, oracles, i)
    ensures raised <==> GenAborts(files, outputDir, project, useMemory, model, suffix, config, cwd, oracles, i)
  {
    var name := FuzzerName(project, useMemory, model, i, suffix);
    path := PathJoin(outputDir, name);
    var kept;
    result, kept, raised := ProcessCandidate(current, path, oracles.generate(i), project, config, cwd, i, oracles);
  }

  /** How driver_gen ends and how many drivers it has written by then. */
  datatype GenEnd = GenEnd(outcome: GenOutcome, written: nat)

  /**
   * The reference for driver_gen's control flow from combination `k` on:
   * KeyError at an API with a summary but no code, False at a combination
   * without summaries, KeyError at the file suffix of an unknown
   * language, and otherwise the next combination.
   */
  function GenStop(combinations: seq<seq<string>>, summaries: map<string, map<string, string>>,
                   apiCode: map<string, string>, language: string, k: nat): GenEnd
    requires k <= |combinations|
    decreases |combinations| - k
  {
    if k == |combinations| then GenEnd(ReturnedNone, k)
    else
      var processed := Processed(combinations[k], summaries);
      if MissingCode(processed, apiCode) then GenEnd(RaisedKeyError, k)
      else if processed == {} then GenEnd(ReturnedFalse, k)
      else if FileSuffix(language).None? then GenEnd(RaisedKeyError, k)
      else GenStop(combinations, summaries, apiCode, language, k + 1)
  }

  /**
   * driver_gen stopping with `outcome` at combination `n`: every
   * combination before it is Usable; None exactly when it got through all
   * of them, False exactly at a combination whose APIs have no summary,
   * and KeyError exactly at one with an API that has a summary but no
   * code, or with a summary when the language is unknown.
   */
  predicate StopsAt(combinations: seq<seq<string>>, summaries: map<string, map<string, string>>,
                    apiCode: map<string, string>, language: string, outcome: GenOutcome, n: nat)
  {
    n <= |combinations| &&
    (forall j | 0 <= j < n :: Usable(combinations[j], summaries, apiCode)) &&
    (outcome == ReturnedNone <==> n == |combinations|) &&
    (outcome == ReturnedFalse <==> n < |combinations| && Processed(combinations[n], summaries) == {}) &&
    (outcome == RaisedKeyError <==>
       n < |combinations| &&
       (MissingCode(Processed(combinations[n], summaries), apiCode) ||
        (Processed(combinations[n], summaries) != {} && FileSuffix(language).None?)))
  }

  /**
   * GenStop from combination `k` stops as StopsAt says, never before `k`
   * (and right at `k` for an unknown language, so nothing is written),
   * and never with an exception from the compile check.
   */
  lemma {:induction false} GenStopSpec(combinations: seq<seq<string>>, summaries: map<string, map<string, string>>,
                                       apiCode: map<string, string>, language: string, k: nat)
    requires k <= |combinations|
    requires forall j | 0 <= j < k :: Usable(combinations[j], summaries, apiCode)
    ensures var e := GenStop(combinations, summaries, apiCode, language, k);
            k <= e.written && StopsAt(combinations, summaries, apiCode, language, e.outcome, e.written) &&
            (FileSuffix(language).None? ==> e.written == k) &&
            e.outcome != RaisedByCheck
    decreases |combinations| - k
  {
    if k < |combinations| {
      var processed := Processed(combinations[k], summaries);
      if !MissingCode(processed, apiCode) && processed != {} && FileSuffix(language).Some? {
        assert Usable(combinations[k], summaries, apiCode);
        GenStopSpec(combinations, summaries, apiCode, language, k + 1);
      }
    }
  }

  /** GenStop never stops before the combination it starts from. */
  lemma {:induction false} GenStopFrom(combinations: seq<seq<string>>, summaries: map<string, map<string, string>>,
                                       apiCode: map<string, string>, language: string, k: nat)
    requires k <= |combinations|
    ensures k <= GenStop(combinations, summaries, apiCode, language, k).written
    decreases |combinations| - k
  {
    if k < |combinations| {
      GenStopFrom(combinations, summaries, apiCode, language, k + 1);
    }
  }

  /**
   * driver_gen: for each API combination (candidates numbered from 1),
   * generate a driver, save it under FuzzerName and check it; the call
   * ends as GenStop says (GenStopSpec) unless a candidate's compile check
   * raises, which ends it right after that candidate (GenAborts); `paths`
   * are the driver files written, in order, and the host files are those
   * GenFiles gives.
   */
  method DriverGen(combinations: seq<seq<string>>, summaries: map<string, map<string, string>>,
                   apiCode: map<string, string>, outputDir: string, project: string,
                   useMemory: bool, model: string, language: string,
                   config: map<string, string>, cwd: string,
                   files: map<string, string>, oracles: Oracles)
    returns (outcome: GenOutcome, result: map<string, string>, paths: seq<string>)
    ensures outcome != RaisedByCheck ==>
              GenStop(combinations, summaries, apiCode, language, 0) == GenEnd(outcome, |paths|) &&
              StopsAt(combinations, summaries, apiCode, language, outcome, |paths|)
    ensures outcome == RaisedByCheck ==>
              1 <= |paths| <= GenStop(combinations, summaries, apiCode, language, 0).written &&
              |paths| <= |combinations| &&
              forall j | 0 <= j < |paths| :: Usable(combinations[j], summaries, apiCode)
    ensures FileSuffix(language).Some? && outcome != RaisedByCheck ==>
              GenProgress(files, outputDir, project, useMemory, model, FileSuffix(language).value, config, cwd, oracles,
                          |paths|, paths, result)
    ensures FileSuffix(language).Some? && outcome == RaisedByCheck ==>
              GenRaised(files, outputDir, project, useMemory, model, FileSuffix(language).value, config, cwd, oracles,
                        |paths|, paths, result)
    ensures FileSuffix(language).None? ==> paths == [] && result == files && outcome != RaisedByCheck
  {
    outcome, result, paths := DriverLoop(combinations, summaries, apiCode, outputDir, project, useMemory, model,
                                         language, config, cwd, files, oracles);
    GenStopSpec(combinations, summaries, apiCode, language, 0);
  }

  /**
   * driver_gen's loop before combination `k`: `k` drivers written, the
   * same end ahead as from the start, and (for a known language) the
   * progress GenProgress describes.
   */
  predicate LoopAt(combinations: seq<seq<string>>, summaries: map<string, map<string, string>>,
                   apiCode: map<string, string>, outputDir: string, project: string,
                   useMemory: bool, model: string, language: string,
                   config: map<string, string>, cwd: string, files: map<string, string>, oracles: Oracles,
                   k: nat, paths: seq<string>, result: map<string, string>)
  {
    k <= |combinations| && |paths| == k &&
    GenStop(combinations, summaries, apiCode, language, k) == GenStop(combinations, summaries, apiCode, language, 0) &&
    (FileSuffix(language).Some? ==>
       GenProgress(files, outputDir, project, useMemory, model, FileSuffix(language).value, config, cwd, oracles,
                   k, paths, result)) &&
    (FileSuffix(language).None? ==> k == 0 && paths == [] && result == files)
  }

  /**
   * How driver_gen's loop ends: where GenStop ends, or right after the
   * first candidate whose compile check raised.
   */
  predicate LoopEnd(combinations: seq<seq<string>>, summaries: map<string, map<string, string>>,
                    apiCode: map<string, string>, outputDir: string, project: string,
                    useMemory: bool, model: string, language: string,
                    config: map<string, string>, cwd: string, files: map<string, string>, oracles: Oracles,
                    outcome: GenOutcome, paths: seq<string>, result: map<string, string>)
  {
    (outcome != RaisedByCheck ==> GenStop(combinations, summaries, apiCode, language, 0) == GenEnd(outcome, |paths|)) &&
    (outcome == RaisedByCheck ==> 1 <= |paths| <= GenStop(combinations, summaries, apiCode, language, 0).written) &&
    (FileSuffix(language).Some? && outcome != RaisedByCheck ==>
       GenProgress(files, outputDir, project, useMemory, model, FileSuffix(language).value, config, cwd, oracles,
                   |paths|, paths, result)) &&
    (FileSuffix(language).Some? && outcome == RaisedByCheck ==>
       GenRaised(files, outputDir, project, useMemory, model, FileSuffix(language).value, config, cwd, oracles,
                 |paths|, paths, result)) &&
    (FileSuffix(language).None? ==> paths == [] && result == files && outcome != RaisedByCheck)
  }

  lemma LoopStart(combinations: seq<seq<string>>, summaries: map<string, map<string, string>>,
                  apiCode: map<string, string>, outputDir: string, project: string,
                  useMemory: bool, model: string, language: string,
                  config: map<string, string>, cwd: string, files: map<string, string>, oracles: Oracles)
    ensures LoopAt(combinations, summaries, apiCode, outputDir, project, useMemory, model, language,
                   config, cwd, files, oracles, 0, [], files)
  {
    if FileSuffix(language).Some? {
      GenProgressStart(files, outputDir, project, useMemory, model, FileSuffix(language).value, config, cwd, oracles);
    }
  }

  /** Getting through every combination ends the loop with None. */
  lemma LoopDone(combinations: seq<seq<string>>, summaries: map<string, map<string, string>>,
                 apiCode: map<string, string>, outputDir: string, project: string,
                 useMemory: bool, model: string, language: string,
                 config: map<string, string>, cwd: string, files: map<string, string>, oracles: Oracles,
                 paths: seq<string>, result: map<string, string>)
    requires LoopAt(combinations, summaries, apiCode, outputDir, project, useMemory, model, language,
                    config, cwd, files, oracles, |combinations|, paths, result)
    ensures LoopEnd(combinations, summaries, apiCode, outputDir, project, useMemory, model, language,
                    config, cwd, files, oracles, ReturnedNone, paths, result)
  {
    assert GenStop(combinations, summaries, apiCode, language, |combinations|) == GenEnd(ReturnedNone, |combinations|);
  }

  /**
   * The for loop of driver_gen: it ends where GenStop ends, or right
   * after the first candidate whose compile check raised.
   */
  method DriverLoop(combinations: seq<seq<string>>, summaries: map<string, map<string, string>>,
                    apiCode: map<string, string>, outputDir: string, project: string,
                    useMemory: bool, model: string, language: string,
                    config: map<string, string>, cwd: string,
                    files: map<string, string>, oracles: Oracles)
    returns (outcome: GenOutcome, result: map<string, string>, paths: seq<string>)
    ensures LoopEnd(combinations, summaries, apiCode, outputDir, project, useMemory, model, language,
                    config, cwd, files, oracles, outcome, paths, result)
  {
    result := files;
    paths := [];
    LoopStart(combinations, summaries, apiCode, outputDir, project, useMemory, model, language,
              config, cwd, files, oracles);
    for k := 0 to |combinations|
      invariant LoopAt(combinations, summaries, apiCode, outputDir, project, useMemory, model, language,
                       config, cwd, files, oracles, k, paths, result)
    {
      var stop;
      stop, paths, result := DriverStep(combinations, summaries, apiCode, outputDir, project, useMemory, model,
                                        language, config, cwd, files, oracles, k, paths, result);
      if stop.Some? {
        return stop.value, result, paths;
      }
    }
    LoopDone(combinations, summaries, apiCode, outputDir, project, useMemory, model, language,
             config, cwd, files, oracles, paths, result);
    outcome := ReturnedNone;
  }

  /**
   * One combination of driver_gen's loop: stop with KeyError or False
   * before generating, or write and check candidate `k + 1`, stopping
   * when its compile check raised.
   */
  method DriverStep(combinations: seq<seq<string>>, summaries: map<string, map<string, string>>,
                    apiCode: map<string, string>, outputDir: string, project: string,
                    useMemory: bool, model: string, language: string,
                    config: map<string, string>, cwd: string,
                    files: map<string, string>, oracles: Oracles,
                    k: nat, paths: seq<string>, current: map<string, string>)
    returns (stop: Option<GenOutcome>, nextPaths: seq<string>, result: map<string, string>)
    requires k < |combinations|
    requires LoopAt(combinations, summaries, apiCode, outputDir, project, useMemory, model, language,
                    config, cwd, files, oracles, k, paths, current)
    ensures stop.None? ==>
              LoopAt(combinations, summaries, apiCode, outputDir, project, useMemory, model, language,
                     config, cwd, files, oracles, k + 1, nextPaths, result)
    ensures stop.Some? ==>
              LoopEnd(combinations, summaries, apiCode, outputDir, project, useMemory, model, language,
                      config, cwd, files, oracles, stop.value, nextPaths, result)
  {
    var verdict := CombinationVerdict(combinations, summaries, apiCode, language, k);
    if verdict.Some? {
      StepStops(combinations, summaries, apiCode, outputDir, project, useMemory, model, language,
                config, cwd, files, oracles, k, paths, current, verdict.value);
      return verdict, paths, current;
    }
    var raised;
    nextPaths, result, raised := NextDriver(files, current, paths, outputDir, project, useMemory, model,
                                            FileSuffix(language).value, config, cwd, oracles, k);
    if raised {
      StepRaises(combinations, summaries, apiCode, outputDir, project, useMemory, model, language,
                 config, cwd, files, oracles, k, nextPaths, result);
      stop := Some(RaisedByCheck);
    } else {
      StepGoesOn(combinations, summaries, apiCode, outputDir, project, useMemory, model, language,
                 config, cwd, files, oracles, k, nextPaths, result);
      stop := None;
    }
  }

  /** A combination driver_gen stops at before generating ends the loop there. */
  lemma StepStops(combinations: seq<seq<string>>, summaries: map<string, map<string, string>>,
                  apiCode: map<string, string>, outputDir: string, project: string,
                  useMemory: bool, model: string, language: string,
                  config: map<string, string>, cwd: string, files: map<string, string>, oracles: Oracles,
                  k: nat, paths: seq<string>, current: map<string, string>, outcome: GenOutcome)
    requires LoopAt(combinations, summaries, apiCode, outputDir, project, useMemory, model, language,
                    config, cwd, files, oracles, k, paths, current)
    requires k < |combinations|
    requires GenStop(combinations, summaries, apiCode, language, k) == GenEnd(outcome, k)
    requires outcome == RaisedKeyError || outcome == ReturnedFalse
    ensures LoopEnd(combinations, summaries, apiCode, outputDir, project, useMemory, model, language,
                    config, cwd, files, oracles, outcome, paths, current)
  {
  }

  /** A candidate whose compile check raised ends the loop right after it. */
  lemma StepRaises(combinations: seq<seq<string>>, summaries: map<string, map<string, string>>,
                   apiCode: map<string, string>, outputDir: string, project: string,
                   useMemory: bool, model: string, language: string,
                   config: map<string, string>, cwd: string, files: map<string, string>, oracles: Oracles,
                   k: nat, paths: seq<string>, result: map<string, string>)
    requires k < |combinations| && FileSuffix(language).Some?
    requires GenStop(combinations, summaries, apiCode, language, k) == GenStop(combinations, summaries, apiCode, language, 0)
    requires GenStop(combinations, summaries, apiCode, language, k) ==
             GenStop(combinations, summaries, apiCode, language, k + 1)
    requires GenRaised(files, outputDir, project, useMemory, model, FileSuffix(language).value, config, cwd, oracles,
                       k + 1, paths, result)
    ensures LoopEnd(combinations, summaries, apiCode, outputDir, project, useMemory, model, language,
                    config, cwd, files, oracles, RaisedByCheck, paths, result)
  {
    GenStopFrom(combinations, summaries, apiCode, language, k + 1);
  }

  /** A candidate whose compile check returned moves the loop on to the next combination. */
  lemma StepGoesOn(combinations: seq<seq<string>>, summaries: map<string, map<string, string>>,
                   apiCode: map<string, string>, outputDir: string, project: string,
                   useMemory: bool, model: string, language: string,
                   config: map<string, string>, cwd: string, files: map<string, string>, oracles: Oracles,
                   k: nat, paths: seq<string>, result: map<string, string>)
    requires k < |combinations| && FileSuffix(language).Some?
    requires GenStop(combinations, summaries, apiCode, language, k) == GenStop(combinations, summaries, apiCode, language, 0)
    requires GenStop(combinations, summaries, apiCode, language, k) ==
             GenStop(combinations, summaries, apiCode, language, k + 1)
    requires GenProgress(files, outputDir, project, useMemory, model, FileSuffix(language).value, config, cwd, oracles,
                         k + 1, paths, result)
    ensures LoopAt(combinations, summaries, apiCode, outputDir, project, useMemory, model, language,
                   config, cwd, files, oracles, k + 1, paths, result)
  {
  }

  /** The checks driver_gen makes on combination `k` before generating: the outcome it stops with, if any. */
  method CombinationVerdict(combinations: seq<seq<string>>, summaries: map<string, map<string, string>>,
                            apiCode: map<string, string>, language: string, k: nat)
    returns (verdict: Option<GenOutcome>)
    requires k < |combinations|
    ensures verdict.Some? ==> GenStop(combinations, summaries, apiCode, language, k) == GenEnd(verdict.value, k)
    ensures verdict.Some? ==> verdict.value == RaisedKeyError || verdict.value == ReturnedFalse
    ensures verdict.None? ==>
              FileSuffix(language).Some? &&
              GenStop(combinations, summaries, apiCode, language, k) ==
              GenStop(combinations, summaries, apiCode, language, k + 1)
  {
    var processed := Processed(combinations[k], summaries);
    if MissingCode(processed, apiCode) {
      return Some(RaisedKeyError);
    }
    if processed == {} {
      return Some(ReturnedFalse);
    }
    if FileSuffix(language).None? {
      return Some(RaisedKeyError);
    }
    return None;
  }

  /** Generate and check candidate `k + 1`, recording its path; `raised` when its compile check raised. */
  method NextDriver(files: map<string, string>, current: map<string, string>, paths: seq<string>,
                    outputDir: string, project: string, useMemory: bool, model: string, suffix: string,
                    config: map<string, string>, cwd: string, oracles: Oracles, k: nat)
    returns (nextPaths: seq<string>, result: map<string, string>, raised: bool)
    requires GenProgress(files, outputDir, project, useMemory, model, suffix, config, cwd, oracles, k, paths, current)
    ensures |nextPaths| == k + 1
    ensures !raised ==>
              GenProgress(files, outputDir, project, useMemory, model, suffix, config, cwd, oracles, k + 1, nextPaths, result)
    ensures raised ==>
              GenRaised(files, outputDir, project, useMemory, model, suffix, config, cwd, oracles, k + 1, nextPaths, result)
  {
    var path;
    path, result, raised := NextCandidate(files, current, outputDir, project, useMemory, model, suffix,
                                  config, cwd, oracles, k + 1);
    DriverPathsSnoc(outputDir, project, useMemory, model, suffix, k);
    nextPaths := paths + [path];
  }


  /** Where driver_gen writes candidate `i`. */
  function CandidatePath(outputDir: string, project: string, useMemory: bool, model: string,
                         suffix: string, i: nat): string
  {
    PathJoin(outputDir, FuzzerName(project, useMemory, model, i, suffix))
  }

  /** The paths driver_gen writes its first `n` candidates to, in order: the `k`-th is candidate `k + 1`'s. */
  function DriverPaths(outputDir: string, project: string, useMemory: bool, model: string,
                       suffix: string, n: nat): (r: seq<string>)
    ensures |r| == n
  {
    seq(n, (k: int) requires 0 <= k < n => CandidatePath(outputDir, project, useMemory, model, suffix, k + 1))
  }

  lemma DriverPathsSnoc(outputDir: string, project: string, useMemory: bool, model: string,
                        suffix: string, n: nat)
    ensures DriverPaths(outputDir, project, useMemory, model, suffix, n + 1) ==
            DriverPaths(outputDir, project, useMemory, model, suffix, n) +
            [CandidatePath(outputDir, project, useMemory, model, suffix, n + 1)]
  {
  }

  /** The names of two candidates of one call differ, and so do their paths. */
  lemma FuzzerPathInjective(outputDir: string, project: string, useMemory: bool, model: string,
                            suffix: string, i: nat, j: nat)
    requires CandidatePath(outputDir, project, useMemory, model, suffix, i) ==
             CandidatePath(outputDir, project, useMemory, model, suffix, j)
    ensures i == j
  {
    var ni, nj := FuzzerName(project, useMemory, model, i, suffix), FuzzerName(project, useMemory, model, j, suffix);
    assert ni[..1] == [ni[0]] && nj[..1] == [nj[0]];
    var sep := if outputDir == [] || EndsWith(outputDir, "/") then outputDir else outputDir + "/";
    assert PathJoin(outputDir, ni) == sep + ni && PathJoin(outputDir, nj) == sep + nj;
    CancelPrefix(sep, ni, nj);
    FuzzerNameInjective(project, useMemory, model, i, j, suffix);
  }

  /** No two candidates of one driver_gen call are written to the same path. */
  lemma {:induction false} DriverPathsDistinct(outputDir: string, project: string, useMemory: bool, model: string,
                            suffix: string, n: nat, a: nat, b: nat)
    requires a < n && b < n && a != b
    ensures DriverPaths(outputDir, project, useMemory, model, suffix, n)[a] !=
            DriverPaths(outputDir, project, useMemory, model, suffix, n)[b]
  {
    DriverPathAt(outputDir, project, useMemory, model, suffix, n, a);
    DriverPathAt(outputDir, project, useMemory, model, suffix, n, b);
    CandidatePathsDiffer(outputDir, project, useMemory, model, suffix, a + 1, b + 1);
  }

  lemma CandidatePathsDiffer(outputDir: string, project: string, useMemory: bool, model: string,
                             suffix: string, i: nat, j: nat)
    requires i != j
    ensures CandidatePath(outputDir, project, useMemory, model, suffix, i) !=
            CandidatePath(outputDir, project, useMemory, model, suffix, j)
  {
    if CandidatePath(outputDir, project, useMemory, model, suffix, i) ==
       CandidatePath(outputDir, project, useMemory, model, suffix, j) {
      FuzzerPathInjective(outputDir, project, useMemory, model, suffix, i, j);
    }
  }

  /**
   * generate_single_fuzz_driver: like one candidate of driver_gen, under
   * a given file name; the compile check is skipped when the
   * configuration has no (or an empty) project_name, and a check that
   * raises anything but SystemExit ends the call with the driver kept.
   */
  method GenerateSingleFuzzDriver(apis: seq<string>, fuzzerName: string,
                                  summaries: map<string, map<string, string>>, apiCode: map<string, string>,
                                  outputDir: string, config: map<string, string>, cwd: string,
                                  files: map<string, string>, oracles: Oracles)
    returns (outcome: GenOutcome, result: map<string, string>)
    ensures outcome == ReturnedFalse <==>
              Processed(apis, summaries) == {}
    ensures outcome == RaisedKeyError <==> MissingCode(Processed(apis, summaries), apiCode)
    ensures outcome == RaisedByCheck <==>
              Processed(apis, summaries) != {} && !MissingCode(Processed(apis, summaries), apiCode) &&
              Get(config, "project_name", "") != "" &&
              CandidateAborts(files, PathJoin(outputDir, fuzzerName), oracles.generate(0),
                              Get(config, "project_name", ""), config, cwd, 0, oracles)
    ensures outcome == ReturnedFalse || outcome == RaisedKeyError ==> result == files
    ensures outcome == ReturnedNone && Get(config, "project_name", "") == "" ==>
              result == files[PathJoin(outputDir, fuzzerName) := ExtractCode(oracles.generate(0))]
    ensures (outcome == ReturnedNone || outcome == RaisedByCheck) && Get(config, "project_name", "") != "" ==>
              result == CandidateFiles(files, PathJoin(outputDir, fuzzerName), oracles.generate(0),
                                       Get(config, "project_name", ""), config, cwd, 0, oracles)
    ensures (outcome == ReturnedNone || outcome == RaisedByCheck) && Get(config, "project_name", "") != "" ==>
              CandidateEnd(files, PathJoin(outputDir, fuzzerName), oracles.generate(0),
                           Get(config, "project_name", ""), config, cwd, 0, oracles, result)
  {
    var processed := Processed(apis, summaries);
    if MissingCode(processed, apiCode) {
      return RaisedKeyError, files;
    }
    if processed == {} {
      return ReturnedFalse, files;
    }
    var path := PathJoin(outputDir, fuzzerName);
    var projectName := Get(config, "project_name", "");
    if projectName == "" {
      result := files[path := ExtractCode(oracles.generate(0))];
    } else {
      var kept, raised;
      result, kept, raised := ProcessCandidate(files, path, oracles.generate(0), projectName, config, cwd, 0, oracles);
      if raised {
        return RaisedByCheck, result;
      }
    }
    outcome := ReturnedNone;
  }
}
