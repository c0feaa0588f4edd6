# RosFuzzer core in Dafny

RosFuzzer has a language model write libFuzzer drivers for ROS 2 packages
(here `rosidl_runtime_c`). It compiles each driver in a Docker container,
asks the model to repair it from the compiler's errors, and keeps only
drivers that end up compiling. This project models three parts of that
system:

- **The sandbox runner** (`fuzzing.py`), in module `Fuzzing`.
  - A `Host` object records, in order:
    - the docker processes the runner starts;
    - what the runner writes to its standard output;
    - the host's files and the directories it creates.
  - The proofs are about ordering. The preparation commands run in a
    fixed order and stop at the first failure. The container is removed
    exactly once, by the last command, whatever fails. The captured
    output is written to the host file whenever nothing raised.
- **The compile-verify-repair side of the driver generator**
  (`roles/fuzz_generator.py`), in module `FuzzGenerator`.
  - Covered operations:
    - the regex that extracts the code block (proved to be the leftmost match with a lazy body);
    - the container and path arguments of the compile check;
    - `fix_compilation`;
    - the bounded repair loop and `driver_gen` / `generate_single_fuzz_driver`.
  - The language model and the compile check are oracles: functions of
    the round in which they are asked.
  - A compile check that raises anything but SystemExit is not caught:
    the repair loop stops with `Aborted`, the driver stays in place, and
    the calling method ends with that exception (`RaisedByCheck`).
- **The `rosidl_runtime_c` string and sequence functions**, as the
  generated C drivers re-implement them. These are in modules
  `RosidlString` (drivers `_8` and `_15`) and `RosidlU16String` (driver
  `_19`).
  - Both modules use the `Memory` module:
    - `size_t` bounded by `SIZE_MAX`;
    - heap blocks that may be NULL;
    - an allocator whose every request may fail (`Memory.Allocate`);
    - `memcmp`.
  - A `String *` is a slot of an array of structs, and a null array is
    NULL.
  - Sequences are classes whose `data` field is an `array`.
  - Every function keeps the in-place updates and the rollback on a
    failed allocation. The `exit` and `assert` aborts are returned as
    flags.

Module `Text` holds the Python string and path operations the other
modules rely on: `rstrip`, `split('/')[-1]`, `replace`, `lower`,
`posixpath.join`, `PurePosixPath.name`/`.parent`, `"".join` and `str(n)`.

Three behaviours of the code are worth stating plainly, because a reader
might expect otherwise:

- `run_fuzzing` runs `docker rm -f` in its `finally` even when `docker image inspect` fails, so a removal is issued for a container that was never created.
- The driver is copied into the container under its own file name (`Path(fuzz_driver).name`); `fuzzer.c` appears only as `driver_dest_name` in the compile arguments.
- `os.remove` of a rejected driver would raise for a missing file, but the repair loop never meets one: `RepairLoop` keeps the driver file in place until the deletion.

## Model

| member | source | states |
|---|---|---|
| Fuzzing.Host.Run | fuzzing_llm_engine/fuzzing.py:8-19 | the command is appended to the trace; a nonzero code raises `CommandFailed(code, cmd, output)` unless errors are allowed, and otherwise the code and output come back (output only when captured); nothing else changes |
| Fuzzing.ExecScriptShape | fuzzing_llm_engine/fuzzing.py:24-31 | the `bash -lc` script is `cd <workdir> && ` (only for a non-empty workdir) followed by the command, piped into `tee <path>` |
| Fuzzing.Host.StreamDockerExec | fuzzing_llm_engine/fuzzing.py:22-39 | starts one `docker exec`, echoes exactly the lines before the first empty `readline` to the terminal, and returns the process's code, the concatenation of those lines and the tee path |
| Fuzzing.LinesBeforeEof | fuzzing_llm_engine/fuzzing.py:35 | counts the lines before the first empty result: all of them are non-empty, and the next one is empty (or there is none) |
| Fuzzing.LinesBeforeEofUnique | fuzzing_llm_engine/fuzzing.py:35-37 | any index with that property is the one the loop stops at |
| Fuzzing.TrailingSlashIrrelevant | fuzzing_llm_engine/fuzzing.py:50 | trailing slashes on the container path change neither the fuzz directory nor the CMakeLists.txt target |
| Fuzzing.CopyDestinations | fuzzing_llm_engine/fuzzing.py:54-59 | the driver goes to `<name>:<path>/fuzz/<file name of the driver>` (a name without `/`), and CMakeLists.txt to `<name>:<path>/CMakeLists.txt` |
| Fuzzing.PrepareCommands | fuzzing_llm_engine/fuzzing.py:45-59 | prepare_container issues exactly five commands |
| Fuzzing.Host.FirstFailureSpec | fuzzing_llm_engine/fuzzing.py:45-59 | every command before the first failure exits with 0, and the one at that position does not |
| Fuzzing.Host.FirstFailureStep | fuzzing_llm_engine/fuzzing.py:45-59 | once the first `i` commands have succeeded, the first failure lies beyond `i` exactly when command `i` succeeds |
| Fuzzing.Host.PrepareStep | fuzzing_llm_engine/fuzzing.py:45-59 | one `_run` of prepare_container: the trace grows by the command, and it fails exactly when the command is the first failure, with that command's `CommandFailed` |
| Fuzzing.Host.RunPrepareSteps | fuzzing_llm_engine/fuzzing.py:45-59 | the commands run in order up to and including the first failure, which is reported; when none fails, all five run |
| Fuzzing.Host.PrepareContainer | fuzzing_llm_engine/fuzzing.py:42-61 | raises exactly when one of the five commands fails, having run nothing after it; otherwise it has run all five and returns the fuzz directory |
| Fuzzing.RunTraceRemovesOnceAtEnd | fuzzing_llm_engine/fuzzing.py:73-83 | whichever step fails, the trace ends with the one `docker rm -f`, and no earlier command removes a container |
| Fuzzing.PrepareNeverRemoves | fuzzing_llm_engine/fuzzing.py:45-59 | no preparation command removes a container |
| Fuzzing.RunFuzzingRemovesOnceAtEnd | fuzzing_llm_engine/fuzzing.py:73-83 | a run of `run_fuzzing` ends with the removal of its container, whatever the outcome of preparation |
| Fuzzing.ContainerNameShape | fuzzing_llm_engine/fuzzing.py:65 | a non-empty given name is used; otherwise the name is `rosidl_runtime_c_fuzz_` followed by the first 8 hex digits of the UUID |
| Fuzzing.Host.FuzzAndCollect | fuzzing_llm_engine/fuzzing.py:75-87 | runs fuzzing.sh, the tolerated copy back and the removal, in that order; the host output file then holds the streamed output, even if the copy back failed |
| Fuzzing.Host.RunInContainer | fuzzing_llm_engine/fuzzing.py:73-89 | the trace is prepare-up-to-failure then removal, or all of preparation, fuzzing, copy back and removal; it raises exactly when preparation fails, leaving files and terminal untouched; otherwise it returns fuzzing.sh's code with the output written to the host file |
| Fuzzing.Host.RunFuzzing | fuzzing_llm_engine/fuzzing.py:64-89 | additionally creates the output's parent directory first and uses the named or generated container and the resolved output path |
| Fuzzing.Host.RunMain | fuzzing_llm_engine/fuzzing.py:119-129 | a missing driver (checked first) or CMakeLists.txt raises FileNotFoundError before anything runs and changes nothing; otherwise the trace and output directory are run_fuzzing's, the first failing preparation command's RuntimeError propagates with files and terminal untouched, and after a full run the terminal and output file hold the streamed output, a nonzero code becomes SystemExit(code) and 0 returns normally |
| FuzzGenerator.BodyStartSpec | fuzzing_llm_engine/roles/fuzz_generator.py:269 | `BodyStart` finds a body start exactly when one of the tags `c`, `cpp`, `c++` followed by whitespace opens at the position, and gives where its body begins |
| FuzzGenerator.OneTagAt | fuzzing_llm_engine/roles/fuzz_generator.py:269 | at most one alternative of the tag group can open at a position |
| FuzzGenerator.FindFenceSpec | fuzzing_llm_engine/roles/fuzz_generator.py:269 | `FindFence` gives the first closing fence at or after a position, with none in between, and none only when there is none |
| FuzzGenerator.BodyAtUnique | fuzzing_llm_engine/roles/fuzz_generator.py:269 | the lazy group is determined by where it starts |
| FuzzGenerator.MatchAtUnique | fuzzing_llm_engine/roles/fuzz_generator.py:269 | at most one group-1 value matches at a position |
| FuzzGenerator.MatchAtFound | fuzzing_llm_engine/roles/fuzz_generator.py:269 | a match at a position exists exactly when an opener and a later fence exist there |
| FuzzGenerator.MatchAtBound | fuzzing_llm_engine/roles/fuzz_generator.py:269 | a match starts inside the string |
| FuzzGenerator.SearchFromIsLeftmost | fuzzing_llm_engine/roles/fuzz_generator.py:270 | `re.search` from a position finds a match with no match before it, and finds nothing only when no match exists |
| FuzzGenerator.ExtractCodeFirstMatch | fuzzing_llm_engine/roles/fuzz_generator.py:269-272 | extract_code returns group 1 of the leftmost match |
| FuzzGenerator.ExtractCodeCases | fuzzing_llm_engine/roles/fuzz_generator.py:269-274 | without any match the result is `No code found`; with one, it is group 1 of a match |
| FuzzGenerator.ExtractedCodeHasNoFence | fuzzing_llm_engine/roles/fuzz_generator.py:269 | the extracted code never contains three backticks |
| FuzzGenerator.ExtractCodeExample | fuzzing_llm_engine/roles/fuzz_generator.py:269-272 | on a typical fenced reply the code between the fences is returned |
| FuzzGenerator.ExampleReplyMatches | fuzzing_llm_engine/roles/fuzz_generator.py:269 | the typical reply matches at its fence |
| FuzzGenerator.ExampleReplyNoEarlierMatch | fuzzing_llm_engine/roles/fuzz_generator.py:269 | and nowhere before it |
| FuzzGenerator.BuildCompileArgsSpec | fuzzing_llm_engine/roles/fuzz_generator.py:99-140 | None exactly when CMakeLists.txt or fuzzing.sh is missing; otherwise a project containing `/` gets `/ws/src/<project>` and workdir `/ws`, others `/src/<project>` and `/src`, the image is `<last component>_base_image:latest`, the driver destination is `fuzzer.c` and the log goes to the shared directory |
| FuzzGenerator.ContainerPrefixes | fuzzing_llm_engine/roles/fuzz_generator.py:104-105 | the nested container path is the workdir `/ws`, a `/` and `src/<project>` |
| FuzzGenerator.FixCompilationCases | fuzzing_llm_engine/roles/fuzz_generator.py:154-171 | declines exactly on an empty error, a missing driver or a reply without code, and then changes nothing; otherwise only the driver's contents change, to the extracted code |
| FuzzGenerator.FixAtIsFixCompilation | fuzzing_llm_engine/roles/fuzz_generator.py:316-317 | the loop's fix step is `fix_compilation` applied to the compile output and that round's model reply |
| FuzzGenerator.FixAtSpec | fuzzing_llm_engine/roles/fuzz_generator.py:154-171 | a declined fix changes nothing; an accepted one had a driver and a non-empty error, and replaces only the driver by the extracted code |
| FuzzGenerator.RepairLoop | fuzzing_llm_engine/roles/fuzz_generator.py:312-323 | ends as the reference `RepairRun` says (last result, fixes made, why it stopped) and leaves the files `RepairResult` gives; at most 5 fixes; it stops with `Compiled` exactly when the last result is nonzero; a check raising anything but SystemExit (which `_check_compile`, lines 142-146, lets through) stops it with `Aborted` (at round 0 exactly when the first check raised) and the driver kept; otherwise the driver is deleted exactly when the last result is 0 |
| FuzzGenerator.RepairRounds | fuzzing_llm_engine/roles/fuzz_generator.py:314-320 | the `while` loop: it ends with the result, fix count, stop reason and files of the reference `RepairFrom` from round 0, the driver still in place |
| FuzzGenerator.RepairRound | fuzzing_llm_engine/roles/fuzz_generator.py:316-320 | one iteration: a declined fix ends the loop where it is; an accepted one is compiled, and the rest of the loop from the new state ends as the loop from the old one |
| FuzzGenerator.RepairFromEnd | fuzzing_llm_engine/roles/fuzz_generator.py:315-320 | from any round the loop stops within five fixes: `Compiled` exactly for a nonzero result, `OutOfAttempts` only after five fixes, `Aborted` only with a result of 0, before the fifth fix, at the round after the last fix made |
| FuzzGenerator.RepairFromDeclined | fuzzing_llm_engine/roles/fuzz_generator.py:316-318 | `FixDeclined` only when the fix in the last state is declined, before the fifth fix; a loop that made no fix and did not abort keeps its result and files |
| FuzzGenerator.RepairFromFiles | fuzzing_llm_engine/roles/fuzz_generator.py:315-320 | the driver file stays in place through the loop, and no file but the driver and the compile output changes |
| FuzzGenerator.RepairFromLengths | fuzzing_llm_engine/roles/fuzz_generator.py:315-320 | one compiled source per round and one error text per accepted fix |
| FuzzGenerator.FailedRoundsCons | fuzzing_llm_engine/roles/fuzz_generator.py:315-320 | a failed and repaired round followed by failed and repaired rounds is a run of failed and repaired rounds |
| FuzzGenerator.FixedRoundFailed | fuzzing_llm_engine/roles/fuzz_generator.py:315-320 | a round whose fix was taken had a failing compile, a non-empty error (the log that compile wrote) and received code |
| FuzzGenerator.RepairFromLast | fuzzing_llm_engine/roles/fuzz_generator.py:315-320 | the last result is the check of the last source compiled in that round, and unless a check raised the driver ends holding that source |
| FuzzGenerator.RepairFromAborted | fuzzing_llm_engine/roles/fuzz_generator.py:315-319 | a loop stopped by a raising check holds, in the driver file, the source that check was given |
| FuzzGenerator.RepairFromFailed | fuzzing_llm_engine/roles/fuzz_generator.py:315-320 | every round before the last failed its compile and was followed by an accepted fix of its source from its error |
| FuzzGenerator.RepairRunEnd | fuzzing_llm_engine/roles/fuzz_generator.py:312-323 | at most 5 fixes; `Compiled` exactly for a nonzero last result; the first check raised exactly when the loop stops with `Aborted(0)`; the driver is kept exactly when the last result is nonzero or a check raised, and an aborted loop leaves the files as they were then; a first check raising SystemExit with no fix made deletes it |
| FuzzGenerator.RepairRunFrame | fuzzing_llm_engine/roles/fuzz_generator.py:312-323 | no file but the driver and the compile output changes |
| FuzzGenerator.RepairRunRounds | fuzzing_llm_engine/roles/fuzz_generator.py:312-323 | the first source compiled is the written driver; one compiled source per round and one error per fix; every round before the last failed and was repaired from its own error |
| FuzzGenerator.RepairRunLast | fuzzing_llm_engine/roles/fuzz_generator.py:312-323 | unless a check raised, the last result is the check of the last source, which a kept driver holds, and a last check raising SystemExit deletes the driver; after a raising check the driver is kept holding the source that check was given |
| FuzzGenerator.RepairFixedThenCompiled | fuzzing_llm_engine/roles/fuzz_generator.py:312-323 | a driver that fails, is repaired from its error and then compiles ends after one fix, kept, holding the fix |
| FuzzGenerator.RepairFromAllFail | fuzzing_llm_engine/roles/fuzz_generator.py:315-320 | when every compile fails with a log and every reply holds code, the loop runs to five fixes |
| FuzzGenerator.RepairAllFail | fuzzing_llm_engine/roles/fuzz_generator.py:312-323 | when every compile fails with a non-empty log and every reply holds code, the loop makes five fixes and the driver is deleted |
| FuzzGenerator.FuzzerPrefix | fuzzing_llm_engine/roles/fuzz_generator.py:305-307 | the driver's file name is never empty and never starts with `/`, so it is joined below the output directory |
| FuzzGenerator.FuzzerNameInjective | fuzzing_llm_engine/roles/fuzz_generator.py:307 | different candidate numbers give different file names |
| FuzzGenerator.FuzzerPathInjective | fuzzing_llm_engine/roles/fuzz_generator.py:307-308 | and different paths |
| FuzzGenerator.DriverPaths | fuzzing_llm_engine/roles/fuzz_generator.py:305-308 | one path per candidate written |
| FuzzGenerator.DriverPathsSnoc | fuzzing_llm_engine/roles/fuzz_generator.py:324 | the next candidate's path follows the earlier ones |
| FuzzGenerator.DriverPathsDistinct | fuzzing_llm_engine/roles/fuzz_generator.py:305-310 | no two candidates of one call are written to the same file |
| FuzzGenerator.ProcessCandidate | fuzzing_llm_engine/roles/fuzz_generator.py:303-323 | the extracted code is written and the files end as `CandidateFiles`; `kept` says whether the driver is still there and `raised` whether a compile check raised (`CandidateAborts`), which keeps it; `CandidateEnd` holds: kept unchecked without the project files, otherwise kept exactly when the last compile result is nonzero or a check raised, holding the last source compiled (which passed) or the source whose check raised |
| FuzzGenerator.CandidateFate | fuzzing_llm_engine/roles/fuzz_generator.py:309-323 | a candidate's files end as `CandidateEnd` says, and a first compile that passes keeps the generated code unchanged |
| FuzzGenerator.CandidateFrame | fuzzing_llm_engine/roles/fuzz_generator.py:309-323 | a candidate changes no file but its driver and the compile output |
| FuzzGenerator.IterateKeep | fuzzing_llm_engine/roles/fuzz_generator.py:283-324 | a later candidate leaves an earlier candidate's file as it was, when it writes elsewhere |
| FuzzGenerator.IterateFrame | fuzzing_llm_engine/roles/fuzz_generator.py:283-324 | a file no candidate writes, other than the compile output, is left as it was |
| FuzzGenerator.GenFilesFrame | fuzzing_llm_engine/roles/fuzz_generator.py:283-324 | driver_gen changes no file but its candidates' drivers and the compile output |
| FuzzGenerator.DriverFate | fuzzing_llm_engine/roles/fuzz_generator.py:283-324 | at the end of driver_gen, candidate `i`'s driver is there with the generated code when a project file was missing, and otherwise exactly when its own repair loop ended with a nonzero result |
| FuzzGenerator.NextCandidate | fuzzing_llm_engine/roles/fuzz_generator.py:305-323 | one written candidate: its path is `CandidatePath` for its number, the files move from `GenFiles` for `i - 1` to `GenFiles` for `i`, and `raised` says exactly whether its compile check raised (`GenAborts`) |
| FuzzGenerator.GenStopSpec | fuzzing_llm_engine/roles/fuzz_generator.py:283-326 | the reference for where driver_gen stops when no check raises (`StopsAt`): every earlier combination is usable; None, False and KeyError each exactly in their case; never before the start, and nothing written for an unknown language |
| FuzzGenerator.CombinationVerdict | fuzzing_llm_engine/roles/fuzz_generator.py:288-307 | the checks on one combination: KeyError or False exactly as `GenStop` stops there, and otherwise (the language known) go on to the next one |
| FuzzGenerator.NextDriver | fuzzing_llm_engine/roles/fuzz_generator.py:299-324 | generate candidate `k + 1` and record its path: `DriverPaths` and `GenFiles` advance by one; the progress holds on (`GenProgress`) or, when its check raised, the call stops there (`GenRaised`) |
| FuzzGenerator.DriverGen | fuzzing_llm_engine/roles/fuzz_generator.py:276-326 | unless a check raises, it ends as `GenStop` says: every combination before the one it stops at is usable and gets a driver at `DriverPaths`, the files ending as `GenFiles`; None exactly when all combinations are done; False exactly at a combination with no processed API; KeyError exactly at one with a processed API without code, or with a processed API when the language has no suffix; a check that raises ends it right after that candidate (`GenRaised`), no later than `GenStop` would |
| FuzzGenerator.DriverLoop | fuzzing_llm_engine/roles/fuzz_generator.py:283-326 | the `for` loop ends as `LoopEnd` says: where `GenStop` ends with the progress `GenProgress` describes, or right after the first candidate whose check raised |
| FuzzGenerator.GenerateSingleFuzzDriver | fuzzing_llm_engine/roles/fuzz_generator.py:328-370 | False exactly when no API is processed; KeyError exactly when a processed API has no code, and then nothing is written; without a project_name the driver is written and not checked; with one, the files end as `CandidateFiles` and `CandidateEnd` holds (kept exactly when the last compile result is nonzero or a check raised); it ends with the check's exception exactly when `CandidateAborts` holds |
| RosidlString.Contents | fuzzing_llm_engine/external_database/rosidl_runtime_c/fuzz_driver.bak/ros2_rosidl_runtime_c_fuzz_driver_False_deepseek-coder_8.c:150 | the characters a string holds are its first `size` bytes |
| RosidlString.Realloc | fuzzing_llm_engine/external_database/rosidl_runtime_c/fuzz_driver.bak/ros2_rosidl_runtime_c_fuzz_driver_False_deepseek-coder_8.c:139-140 | a reallocated block keeps the old prefix and has the requested length |
| RosidlString.StringInit | fuzzing_llm_engine/external_database/rosidl_runtime_c/fuzz_driver.bak/ros2_rosidl_runtime_c_fuzz_driver_False_deepseek-coder_8.c:68-84 | NULL gives false; success gives `"\0"`, size 0, capacity 1; an allocation failure leaves data NULL; no other slot changes |
| RosidlString.StringFini | fuzzing_llm_engine/external_database/rosidl_runtime_c/fuzz_driver.bak/ros2_rosidl_runtime_c_fuzz_driver_False_deepseek-coder_8.c:86-119 | exits exactly on an inconsistent struct (a buffer with capacity 0, or no buffer with a nonzero size or capacity); otherwise leaves NULL/0/0 |
| RosidlString.RequiredCapacityAsWritten | fuzzing_llm_engine/external_database/rosidl_runtime_c/fuzz_driver.bak/ros2_rosidl_runtime_c_fuzz_driver_False_deepseek-coder_8.c:136 | `input->size + 1` in `size_t`: the size plus one below SIZE_MAX |
| RosidlString.CopyTerminatorOutOfBoundsAsWritten | fuzzing_llm_engine/external_database/rosidl_runtime_c/fuzz_driver.bak/ros2_rosidl_runtime_c_fuzz_driver_False_deepseek-coder_8.c:136-152 | for size SIZE_MAX the capacity test never grows the output, yet the terminator index is at or beyond any capacity |
| RosidlString.CopiedTerminatorInBounds | fuzzing_llm_engine/external_database/rosidl_runtime_c/fuzz_driver.bak/ros2_rosidl_runtime_c_fuzz_driver_False_deepseek-coder_8.c:128-156 | a copy is NUL-terminated inside its capacity, has the input's size, and has capacity max(old capacity (1 after init), size + 1) |
| RosidlString.CopiedContents | fuzzing_llm_engine/external_database/rosidl_runtime_c/fuzz_driver.bak/ros2_rosidl_runtime_c_fuzz_driver_False_deepseek-coder_8.c:148-153 | a copy holds the input's characters |
| RosidlString.StringCopy | fuzzing_llm_engine/external_database/rosidl_runtime_c/fuzz_driver.bak/ros2_rosidl_runtime_c_fuzz_driver_False_deepseek-coder_8.c:121-156 | NULL gives false; success stores `CopyResult`; a failure leaves the output as it was or, when its buffer was NULL, initialised; the output stays writable and no other slot changes |
| RosidlString.Assigned | docker_shared/fuzz_driver/ros2/rosidl_runtime_c/ros2_rosidl_runtime_c_fuzz_driver_False_deepseek-coder_15.c:180-190 | what assignn stores: size `n`, capacity `n + 1`, the `n` bytes and a terminator |
| RosidlString.StringAssignn | docker_shared/fuzz_driver/ros2/rosidl_runtime_c/ros2_rosidl_runtime_c_fuzz_driver_False_deepseek-coder_15.c:166-191 | false for NULL str, NULL value or `n == SIZE_MAX`; success stores the first `n` bytes; a failure changes nothing |
| RosidlString.StrEqualIsSameContents | docker_shared/fuzz_driver/ros2/rosidl_runtime_c/ros2_rosidl_runtime_c_fuzz_driver_False_deepseek-coder_15.c:125-128 | equal sizes and `memcmp == 0` is equality of contents |
| RosidlString.StringAreEqualMeaning | docker_shared/fuzz_driver/ros2/rosidl_runtime_c/ros2_rosidl_runtime_c_fuzz_driver_False_deepseek-coder_15.c:118-129 | false on NULL; otherwise true exactly for equal sizes and equal characters |
| RosidlString.CopyResultEqualsSource | fuzzing_llm_engine/external_database/rosidl_runtime_c/fuzz_driver.bak/ros2_rosidl_runtime_c_fuzz_driver_False_deepseek-coder_8.c:121-156 | a successful copy compares equal to its source |
| RosidlString.AssignedAreEqual | docker_shared/fuzz_driver/ros2/rosidl_runtime_c/ros2_rosidl_runtime_c_fuzz_driver_False_deepseek-coder_15.c:166-191 | two strings assigned the same bytes compare equal |
| RosidlString.Elements | fuzzing_llm_engine/external_database/rosidl_runtime_c/fuzz_driver.bak/ros2_rosidl_runtime_c_fuzz_driver_False_deepseek-coder_8.c:250-252 | a sequence has `size` elements |
| RosidlString.SequenceInit | fuzzing_llm_engine/external_database/rosidl_runtime_c/fuzz_driver.bak/ros2_rosidl_runtime_c_fuzz_driver_False_deepseek-coder_8.c:158-190 | success gives size = capacity = n with every element initialised, and data NULL for 0; a failure leaves the sequence untouched, and all elements initialised so far are finalised |
| RosidlString.SequenceFini | fuzzing_llm_engine/external_database/rosidl_runtime_c/fuzz_driver.bak/ros2_rosidl_runtime_c_fuzz_driver_False_deepseek-coder_8.c:192-214 | accepts any sequence whose capacity fits its block, including NULL data with a nonzero capacity; aborts exactly when an assertion fails or an element fini exits; otherwise leaves NULL/0/0 |
| RosidlString.Reserve | fuzzing_llm_engine/external_database/rosidl_runtime_c/fuzz_driver.bak/ros2_rosidl_runtime_c_fuzz_driver_False_deepseek-coder_8.c:223-248 | growth keeps the old elements and initialises the new ones; a failure keeps size, capacity and the existing elements |
| RosidlString.CopyElements | fuzzing_llm_engine/external_database/rosidl_runtime_c/fuzz_driver.bak/ros2_rosidl_runtime_c_fuzz_driver_False_deepseek-coder_8.c:250-256 | when every element copy succeeds, each output element is the copy of its input element (also when the two arrays are one) |
| RosidlString.SequenceCopy | fuzzing_llm_engine/external_database/rosidl_runtime_c/fuzz_driver.bak/ros2_rosidl_runtime_c_fuzz_driver_False_deepseek-coder_8.c:216-258 | NULL gives false; success gives the input's size, capacity max(old, size), every element equal to its source, and the output's slots from the input size up to its old capacity untouched; failure leaves the output as it was, or with the new size and capacity when an element copy fails |
| RosidlString.SequenceAreEqual | docker_shared/fuzz_driver/ros2/rosidl_runtime_c/ros2_rosidl_runtime_c_fuzz_driver_False_deepseek-coder_15.c:82-100 | true exactly when both are non-NULL, the sizes agree and every pair of elements compares equal |
| RosidlString.SpanIsProduct | docker_shared/fuzz_driver/ros2/rosidl_runtime_c/ros2_rosidl_runtime_c_fuzz_driver_False_deepseek-coder_15.c:233 | `m` pieces of `per` bytes take `per * m` bytes |
| RosidlString.SplitBounds | docker_shared/fuzz_driver/ros2/rosidl_runtime_c/ros2_rosidl_runtime_c_fuzz_driver_False_deepseek-coder_15.c:197-233 | once `1 <= num_strings <= size`, every piece gets at least one byte and they all fit |
| RosidlString.Distribute | docker_shared/fuzz_driver/ros2/rosidl_runtime_c/ros2_rosidl_runtime_c_fuzz_driver_False_deepseek-coder_15.c:237-273 | one piece per string |
| RosidlString.DistributeCoversInput | docker_shared/fuzz_driver/ros2/rosidl_runtime_c/ros2_rosidl_runtime_c_fuzz_driver_False_deepseek-coder_15.c:233-273 | the pieces put back together are exactly the `size` input bytes |
| RosidlString.DistributeLengths | docker_shared/fuzz_driver/ros2/rosidl_runtime_c/ros2_rosidl_runtime_c_fuzz_driver_False_deepseek-coder_15.c:238 | every piece but the last has `size / num_strings` bytes, and the last has the remainder |
| RosidlString.DistributeStep | docker_shared/fuzz_driver/ros2/rosidl_runtime_c/ros2_rosidl_runtime_c_fuzz_driver_False_deepseek-coder_15.c:238-272 | the first piece is the next `len` bytes (non-empty), and the rest splits what follows |
| RosidlString.NextPiece | docker_shared/fuzz_driver/ros2/rosidl_runtime_c/ros2_rosidl_runtime_c_fuzz_driver_False_deepseek-coder_15.c:238-272 | piece `i` starts at `current_data` and the remaining bytes split into the remaining pieces |
| RosidlString.FiniAll | docker_shared/fuzz_driver/ros2/rosidl_runtime_c/ros2_rosidl_runtime_c_fuzz_driver_False_deepseek-coder_15.c:223-225 | the cleanup loop finalises every slot it visits without exiting |
| RosidlString.InitStrings | docker_shared/fuzz_driver/ros2/rosidl_runtime_c/ros2_rosidl_runtime_c_fuzz_driver_False_deepseek-coder_15.c:220-230 | success leaves every element initialised |
| RosidlString.AssignPiece | docker_shared/fuzz_driver/ros2/rosidl_runtime_c/ros2_rosidl_runtime_c_fuzz_driver_False_deepseek-coder_15.c:246-270 | success stores the piece in element `i` and changes no other element |
| RosidlString.FillStep | docker_shared/fuzz_driver/ros2/rosidl_runtime_c/ros2_rosidl_runtime_c_fuzz_driver_False_deepseek-coder_15.c:260 | assigning piece `i` extends the filled prefix and keeps every element finalisable |
| RosidlString.AssignNext | docker_shared/fuzz_driver/ros2/rosidl_runtime_c/ros2_rosidl_runtime_c_fuzz_driver_False_deepseek-coder_15.c:237-273 | one iteration: the length taken, element `i` assigned its piece, and the rest of the input still splitting into the rest of the pieces |
| RosidlString.AssignPieces | docker_shared/fuzz_driver/ros2/rosidl_runtime_c/ros2_rosidl_runtime_c_fuzz_driver_False_deepseek-coder_15.c:232-274 | success leaves element `k` holding piece `k` of `Distribute` |
| RosidlString.CreateStringSequenceFromFuzz | docker_shared/fuzz_driver/ros2/rosidl_runtime_c/ros2_rosidl_runtime_c_fuzz_driver_False_deepseek-coder_15.c:194-277 | NULL when `num_strings` is 0 or exceeds `size`; a result has `num_strings` elements holding the pieces of `Distribute` |
| RosidlU16String.Contents | fuzzing_llm_engine/external_database/rosidl_runtime_c/fuzz_driver.bak/ros2_rosidl_runtime_c_fuzz_driver_False_deepseek-coder_19.c:276 | the code units a string holds are its first `size` units |
| RosidlU16String.U16Init | fuzzing_llm_engine/external_database/rosidl_runtime_c/fuzz_driver.bak/ros2_rosidl_runtime_c_fuzz_driver_False_deepseek-coder_19.c:62-71 | false exactly for NULL; otherwise NULL/0/0 |
| RosidlU16String.U16Fini | fuzzing_llm_engine/external_database/rosidl_runtime_c/fuzz_driver.bak/ros2_rosidl_runtime_c_fuzz_driver_False_deepseek-coder_19.c:73-84 | leaves NULL/0/0 |
| RosidlU16String.Duplicate | fuzzing_llm_engine/external_database/rosidl_runtime_c/fuzz_driver.bak/ros2_rosidl_runtime_c_fuzz_driver_False_deepseek-coder_19.c:99-114 | a copy has the input's size and units; empty gives the cleared struct, otherwise capacity = size |
| RosidlU16String.U16Copy | fuzzing_llm_engine/external_database/rosidl_runtime_c/fuzz_driver.bak/ros2_rosidl_runtime_c_fuzz_driver_False_deepseek-coder_19.c:86-116 | NULL gives false; success stores `CopyResult`, which is empty for a copy onto itself; an allocation failure leaves the output cleared |
| RosidlU16String.U16EqualIsSameContents | fuzzing_llm_engine/external_database/rosidl_runtime_c/fuzz_driver.bak/ros2_rosidl_runtime_c_fuzz_driver_False_deepseek-coder_19.c:273-276 | equal sizes and `memcmp` over `size * 2` bytes is equality of the units |
| RosidlU16String.U16AreEqualMeaning | fuzzing_llm_engine/external_database/rosidl_runtime_c/fuzz_driver.bak/ros2_rosidl_runtime_c_fuzz_driver_False_deepseek-coder_19.c:265-277 | false on NULL; otherwise true exactly for equal sizes and units |
| RosidlU16String.CopyResultEquality | fuzzing_llm_engine/external_database/rosidl_runtime_c/fuzz_driver.bak/ros2_rosidl_runtime_c_fuzz_driver_False_deepseek-coder_19.c:86-116 | a copy onto another struct compares equal to its source; a copy onto itself does only for an empty string |
| RosidlU16String.Units | fuzzing_llm_engine/external_database/rosidl_runtime_c/fuzz_driver.bak/ros2_rosidl_runtime_c_fuzz_driver_False_deepseek-coder_19.c:312 | two bytes per code unit |
| RosidlU16String.UnitBytes | fuzzing_llm_engine/external_database/rosidl_runtime_c/fuzz_driver.bak/ros2_rosidl_runtime_c_fuzz_driver_False_deepseek-coder_19.c:312 | two bytes per code unit back |
| RosidlU16String.UnitsOfUnitBytes | fuzzing_llm_engine/external_database/rosidl_runtime_c/fuzz_driver.bak/ros2_rosidl_runtime_c_fuzz_driver_False_deepseek-coder_19.c:312 | reading written units gives back the units |
| RosidlU16String.UnitBytesOfUnits | fuzzing_llm_engine/external_database/rosidl_runtime_c/fuzz_driver.bak/ros2_rosidl_runtime_c_fuzz_driver_False_deepseek-coder_19.c:312 | writing read units gives back the bytes |
| RosidlU16String.FuzzUnits | fuzzing_llm_engine/external_database/rosidl_runtime_c/fuzz_driver.bak/ros2_rosidl_runtime_c_fuzz_driver_False_deepseek-coder_19.c:291-292 | `(size - offset) / 2` units |
| RosidlU16String.CreateU16StringFromFuzzData | fuzzing_llm_engine/external_database/rosidl_runtime_c/fuzz_driver.bak/ros2_rosidl_runtime_c_fuzz_driver_False_deepseek-coder_19.c:280-317 | false for NULL or `offset >= size`, leaving the string as it was; success holds the units after the offset (cleared when there are none); an allocation failure leaves it cleared |
| RosidlU16String.Elements | fuzzing_llm_engine/external_database/rosidl_runtime_c/fuzz_driver.bak/ros2_rosidl_runtime_c_fuzz_driver_False_deepseek-coder_19.c:199-201 | a sequence has `size` elements |
| RosidlU16String.U16SequenceInit | fuzzing_llm_engine/external_database/rosidl_runtime_c/fuzz_driver.bak/ros2_rosidl_runtime_c_fuzz_driver_False_deepseek-coder_19.c:209-242 | success gives size = capacity = n with all elements cleared, and data NULL for 0; failure leaves the sequence untouched |
| RosidlU16String.U16SequenceFini | fuzzing_llm_engine/external_database/rosidl_runtime_c/fuzz_driver.bak/ros2_rosidl_runtime_c_fuzz_driver_False_deepseek-coder_19.c:138-162 | accepts any sequence whose capacity fits its block, including NULL data with a nonzero capacity; aborts exactly when an assertion fails; otherwise every element is cleared and the sequence becomes NULL/0/0 |
| RosidlU16String.U16Reserve | fuzzing_llm_engine/external_database/rosidl_runtime_c/fuzz_driver.bak/ros2_rosidl_runtime_c_fuzz_driver_False_deepseek-coder_19.c:172-197 | growth keeps the old elements and clears the new ones; failure changes nothing |
| RosidlU16String.U16SequenceCopy | fuzzing_llm_engine/external_database/rosidl_runtime_c/fuzz_driver.bak/ros2_rosidl_runtime_c_fuzz_driver_False_deepseek-coder_19.c:164-207 | NULL gives false; success gives the input's size, capacity max(old, size), each element the `CopyResult` of its source, and the output's slots from the input size up to its old capacity untouched; failure leaves the output and its elements unchanged, or with the new size and capacity |
| RosidlU16String.U16SequenceAreEqual | fuzzing_llm_engine/external_database/rosidl_runtime_c/fuzz_driver.bak/ros2_rosidl_runtime_c_fuzz_driver_False_deepseek-coder_19.c:244-263 | true exactly for two non-NULL sequences of equal size whose elements pairwise compare equal |
| RosidlU16String.CopiedSequenceIsEqual | fuzzing_llm_engine/external_database/rosidl_runtime_c/fuzz_driver.bak/ros2_rosidl_runtime_c_fuzz_driver_False_deepseek-coder_19.c:164-207 | a sequence copied onto a separate block compares equal to its source, element by element |
| Memory.FirstDifference | docker_shared/fuzz_driver/ros2/rosidl_runtime_c/ros2_rosidl_runtime_c_fuzz_driver_False_deepseek-coder_15.c:128 | the scan `memcmp` performs: the elements agree below the index and differ at it |
| Memory.MemEqualIsPrefixEquality | docker_shared/fuzz_driver/ros2/rosidl_runtime_c/ros2_rosidl_runtime_c_fuzz_driver_False_deepseek-coder_15.c:128 | `memcmp(x, y, n) == 0` exactly when the first `n` elements are equal |
| Text.RStripSlash | fuzzing_llm_engine/fuzzing.py:50 | `rstrip('/')` is a prefix that does not end in `/`, and it drops only slashes |
| Text.LastIndexOf | fuzzing_llm_engine/roles/fuzz_generator.py:100 | the index of the last occurrence, or none when there is none |
| Text.LastComponent | fuzzing_llm_engine/roles/fuzz_generator.py:100 | `split('/')[-1]` is a suffix without `/`, preceded by a `/` when there is one, and the whole string otherwise |
| Text.ReplaceCharAt | fuzzing_llm_engine/roles/fuzz_generator.py:305-306 | `replace` of one character changes exactly the occurrences of that character |
| Text.Lower | fuzzing_llm_engine/roles/fuzz_generator.py:307 | `lower()` lowers every ASCII letter and keeps the length |
| Text.PathJoinShape | fuzzing_llm_engine/roles/fuzz_generator.py:308 | `os.path.join`: an absolute second part wins; otherwise the result is the first part, a `/` and the second |
| Text.PathName | fuzzing_llm_engine/fuzzing.py:54 | `Path(p).name` contains no `/` |
| Text.ParentShape | fuzzing_llm_engine/fuzzing.py:67 | the parent is `.` without a `/`; otherwise a proper prefix followed by `/` and a last component |
| Text.ConcatAppend | fuzzing_llm_engine/fuzzing.py:37-39 | appending a line appends its text to the joined output |
| Text.NatToString | fuzzing_llm_engine/roles/fuzz_generator.py:307 | `str(i)` is a non-empty string of decimal digits |
| Text.NatToStringInjective | fuzzing_llm_engine/roles/fuzz_generator.py:307 | different numbers are written differently |

## Left out

- The language model: prompts, `fuzz_driver_generation`, the llama_index memory and `complete`. The raw replies are oracles (`Oracles.generate`, indexed by the candidate number, and `Oracles.repair`).
- Processes and the terminal. Docker and subprocess execution are the oracle `Host.exec`: a return code and the successive `readline` results per started command.
- `Popen` and `mkdir` exceptions, and the effect of `docker cp` on the host, are not modelled.
- Output of an uncaptured `_run` goes straight to the terminal and is not recorded.
- The return code of the `... | tee` pipeline is whatever the oracle reports. Under bash this is tee's code; that is not modelled.
- `parse_args` and argparse. `RunArgs` is the parsed command line, and `Path.resolve` is the function `Host.resolve`.
- `check_compile_fuzz_driver` is imported by fuzz_generator.py but defined in none of the files at hand. It is the oracle `Oracles.compile`, which gives the result, a possible SystemExit, a possible other exception and the log it writes. The other exception is not caught by `_check_compile`, so it ends the repair loop and the calling method with the driver file left in place. Its type and message are not modelled. check_compilation.py is not part of this model, because its `fuzz_runner` and `compilation_fix_agent` dependencies are not part of it either.
- `_load_project_config`: the configuration is an argument, a map from key to value.
- The order of `list(set(api_list))` is not modelled. `Processed` is the set of processed APIs, because only whether it is empty and whether every member has code decide anything.
- `Text.Lower`: folds ASCII letters only; Python's `lower` also folds other Unicode letters.
- The text of the exceptions (`Command failed (...)`, `Missing ... file: ...`): `Failure` keeps their fields (code, argument vector, output; label, path), not the formatted message.
- `RosidlU16String.Units`: the `memcpy` of fuzz bytes into `uint16_t` units is read little-endian; the byte order depends on the platform and big-endian hosts are not modelled.
- `LLVMFuzzerTestOneInput`, the other generated drivers and string_fuzzer.c are not part of this model. They are harness code around the functions modelled here.
- `Memory.Allocate`: the allocator is a nondeterministic success flag. Byte counts such as `input->size * sizeof(...)` are not checked for overflow.
- Memory returned by `malloc`/`realloc` is modelled as zeroed structs, not as indeterminate memory.
- Character and code-unit buffers are values. Aliasing between two strings' buffers is not modelled, and NULL stands for every absent buffer.
- Freeing is not tracked as a separate event. `RosidlU16String.U16Copy` clears the output without freeing its old buffer (a leak in the source); the model shows this only as the cleared struct.
- `RosidlString.SequenceCopy`: the element postcondition is stated for elements whose source is readable (sized NUL-terminated data). Elements with a NULL buffer are described by `CopyResult` in `CopyElements`.
- `RosidlString.StringCopy`: the model guards against an input of size SIZE_MAX, which the source does not. The as-written behaviour is modelled by `RosidlString.RequiredCapacityAsWritten` (see Findings).
- The `exit(-1)` of String__fini and the `assert`s of Sequence__fini are returned flags (`exited`, `aborted`), not process termination.

## Findings

| source | as written | input that shows it | evidently intended | confidence | as-written member | corrected member |
|---|---|---|---|---|---|---|
| fuzzing_llm_engine/external_database/rosidl_runtime_c/fuzz_driver.bak/ros2_rosidl_runtime_c_fuzz_driver_False_deepseek-coder_8.c:136-152 | `required_capacity = input->size + 1` wraps to 0 in `size_t`. The capacity test then never grows the output, and `output->data[input->size] = '\0'` writes at index SIZE_MAX. | input `{data = NULL, size = SIZE_MAX, capacity = 0}`, which the `input->data` test at line 149 tolerates, copied to any output | refuse an input whose terminator cannot fit, as String__assignn does for `n == SIZE_MAX`, so the terminator always lies inside the capacity | low (a SIZE_MAX size can only come from a corrupted struct); not executed | RosidlString.CopyTerminatorOutOfBoundsAsWritten | RosidlString.CopiedTerminatorInBounds |
