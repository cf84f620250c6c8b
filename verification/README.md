# A model of cx_Freeze's `ci/build-test-json.py`

`ci/build-test-json.py` is the helper that cx_Freeze's CI runs before it builds and tests each
sample. It is called with a sample directory and either `req` or an index:

- It reads the sample's record from `build-test.json`.
- It ends at once, with status 0, when the record's `platform` field rules out the platform in use.
- In `req` mode it installs these, in order:
  - the basic requirements: `pip`, `setuptools` and `wheel` outside pipenv and conda,
    `c-compiler` and `libpython-static` under conda on macOS and Linux, and always
    `importlib-metadata`;
  - `cx_Logging` on Windows and MinGW;
  - the sample's own `requirements`.

  Then it prints what was installed.
- Otherwise it prints the `test_app` entry at the given index.

This project models the script's decision logic in Dafny:

- `Platform` — `is_supported_platform` as set algebra over the tags. Plain tags replace the four
  known platforms; `!`-tags remove one.
- `PythonVersion` — `is_supported_python`:
  - the regular expression `\s*(\d+)\.*(\d*)\.*(\d*)` as greedy runs;
  - `re.split` over it;
  - the tuple built from the non-empty groups;
  - Python's lexicographic tuple comparison under one of six explicit operators.
- `Requirement` — the token loop that reads one requirement string into its flags. It is a
  function together with the loop as a method.
- `Installer` — `install_requirements`. The requirement loop, the conda branch, the MSYS2 candidate
  probe, the flagged pip call with its `--pre` retry and the batched pip call at the end are
  methods. Each method is proved equal to a specification function: the requirement loop to the
  left fold `Steps` over the requirements, one iteration to `RequirementStep` (with `CondaStep`,
  `MingwStep` and `PipStep` for its branches), the candidate probe to `ProbeAll` and the batched
  call to `Finish`. `Installer` models the function as evidently intended, not as written at two
  places (see Findings): a failed flagged pip call always ends the script, and a successful
  batched call records every batched name. `InstallerAsWritten` models those two places as
  written, and `Script` is built on the corrected `Installer`.
- `InstallProperties` — what the loop guarantees across a whole list:
  - skipping;
  - batching order;
  - the first accepted MSYS2 candidate;
  - the argument order of pip calls;
  - the exit code it stops with.
- `InstallerAsWritten` — the two places where the code as written departs from what it evidently
  means (see Findings), each with a counterexample.
- `Script` and `ScriptProperties` — the top level: the platform exit, `req` mode, and the
  `test_app` selection.

Three things that are global in the script are parameters of the model instead:

- Subprocesses are a function `run: Command -> Reply`, from an argument list to an exit code and
  the captured standard output.
- The environment the script reads at start-up is a `Config` record.
- A manifest record is a `Sample`.

The model reports how the script ends as a `Halt`: `Exit(code)` for `sys.exit(code)`, or `Raised`
for an uncaught exception.

## Model

| member | source | states |
|---|---|---|
| Text.JoinSplit | ci/build-test-json.py:36-37 | joining the comma-split pieces with `,` gives back the string, so a string of tags is exactly its split list |
| Text.SecondPiece | ci/build-test-json.py:96 | `token.split("=")[1]` is the text between the first and the second `=` |
| Text.LowerChangesIffUpper | ci/build-test-json.py:142 | `package != package.lower()` exactly when the name holds an upper-case letter |
| Platform.ExcludedIff | ci/build-test-json.py:46-48 | a platform is removed from the allowed set exactly when its `!`-prefixed tag is present |
| Platform.OnlyNegations | ci/build-test-json.py:42-49 | with no plain tag, a platform is allowed iff it is one of darwin, linux, mingw, win32 and is not negated |
| Platform.NegatedPlatformRejected | ci/build-test-json.py:42-49 | a list of negations that negates the platform in use yields false |
| Platform.WithIncludedTags | ci/build-test-json.py:43-49 | once a plain tag is present, the platform in use is allowed iff it is among the plain tags and not negated |
| Platform.StringTagsAreCommaSplit | ci/build-test-json.py:35-37 | a string argument gives the same answer as its comma-split list |
| PythonVersion.RunIsGreedy | ci/build-test-json.py:20 | a `*`/`+` run takes every character of its class and stops at the first character outside it |
| PythonVersion.MatchAtIff | ci/build-test-json.py:20 | a match is anchored at a position exactly when a digit follows the run of whitespace there |
| PythonVersion.MatchAtGroups | ci/build-test-json.py:20 | the three groups of a match are digit strings and the first is never empty |
| PythonVersion.SearchAnchored | ci/build-test-json.py:54 | the match the search finds is the match anchored at its start |
| PythonVersion.SearchLeftmost | ci/build-test-json.py:54 | no match is anchored between the search position and the match found, so it is the leftmost |
| PythonVersion.SearchNone | ci/build-test-json.py:54 | the search finds nothing exactly when no position from the start on has a match |
| PythonVersion.ReSplitFinal | ci/build-test-json.py:54 | when a match starts right after a digit-free, space-free prefix and runs to the end, `re.split` gives that prefix, the three groups and an empty tail |
| PythonVersion.ReSplitMajor | ci/build-test-json.py:54 | `re.split` of an operator text and one number gives the operator, the number, two empty groups and an empty tail |
| PythonVersion.ReSplitMajorMinorMicro | ci/build-test-json.py:54 | `re.split` of an operator text and `<major>.<minor>.<micro>` gives the operator, the three numbers and an empty tail |
| PythonVersion.LexLessIffPrefix | ci/build-test-json.py:57 | tuple `<` holds iff, after a common prefix, the left tuple ends first or has the smaller element |
| PythonVersion.Trichotomy | ci/build-test-json.py:57 | exactly one of `<`, `==`, `>` holds between two version tuples |
| PythonVersion.OppositeOperators | ci/build-test-json.py:57 | `>=` is the negation of `<`, and `<=` the negation of `>` |
| PythonVersion.MatchMajorMinor | ci/build-test-json.py:54 | in `<op><major>.<minor>` the only match spans the numbers, with groups major, minor and "" |
| PythonVersion.RequiredMajorMinor | ci/build-test-json.py:56 | the empty groups are dropped and the rest become the integer tuple (major, minor) |
| PythonVersion.ParseMajorMinor | ci/build-test-json.py:52-56 | a spec `<op><major>.<minor>` parses to that operator and the tuple (major, minor) |
| PythonVersion.ReSplitLayout | ci/build-test-json.py:54 | `re.split` of an operator text followed by `<digits>.<digits>` yields the operator, the two numbers and the empty third group and tail |
| PythonVersion.ParseSpecFromParts | ci/build-test-json.py:55-57 | when the first split piece is an operator's text and the rest give a tuple, the spec parses to that operator and tuple |
| PythonVersion.ParseMajor | ci/build-test-json.py:52-56 | a spec `<op><major>` parses to that operator and the one-element tuple (major) |
| PythonVersion.ParseMajorMinorMicro | ci/build-test-json.py:52-56 | a spec `<op><major>.<minor>.<micro>` parses to that operator and the tuple of the three numbers |
| PythonVersion.SupportedMajorMinor | ci/build-test-json.py:52-57 | for such a spec the check is true iff the interpreter's version tuple compares with (major, minor) as the operator says |
| PythonVersion.AtLeastThreeEight | ci/build-test-json.py:52-57 | `>=3.8` holds iff the interpreter is 3.8 or later |
| Requirement.FlagValueIsBetweenEquals | ci/build-test-json.py:95-104 | a `--flag=` token carries the text after the flag up to the next `=` |
| Requirement.UndashedIsIdentifier | ci/build-test-json.py:94-110 | a token that does not start with `-` is never a flag: it is the identifier |
| Requirement.ParseRequirement | ci/build-test-json.py:85-110 | the token loop leaves exactly the flags of the left fold over the tokens |
| Requirement.ClassifyExact | ci/build-test-json.py:101-107 | `--no-deps` and `--prefer-binary` are recognised only by exact match |
| Requirement.FoldFacts | ci/build-test-json.py:94-111 | the identifier is the last non-flag token (None iff there is none); `--no-deps` and `--prefer-binary` are set iff such a token occurs |
| Requirement.LastValuedFlagWins | ci/build-test-json.py:94-106 | each of `--conda=`, `--mingw=`, `--find-links=`, `--platform=` and `--python-version` is set to the value of its last token, is "" without one, and a non-empty value always comes from that last token |
| Requirement.NoDepsIffToken | ci/build-test-json.py:101-102 | `no_deps` is set iff the requirement contains the token `--no-deps` |
| Requirement.VersionSpecKeepsRemainder | ci/build-test-json.py:105-106 | `--python-version` keeps the whole rest of the token, operator included |
| Requirement.ParseWithNoDeps | ci/build-test-json.py:94-110 | `"<name> --no-deps"` sets the identifier and `--no-deps`, nothing else |
| Requirement.ParseWithVersion | ci/build-test-json.py:94-110 | `"<name> --python-version<spec>"` sets the identifier and the version condition, nothing else |
| Requirement.ParseBare | ci/build-test-json.py:94-110 | a requirement that is a single identifier sets only the identifier |
| Requirement.ParseFlagsOnlyExample | ci/build-test-json.py:94-111 | the requirement `--no-deps` alone has no identifier |
| Installer.PipOptions | ci/build-test-json.py:167-174 | a requirement gets its own pip call iff it has `--find-links`, `--no-deps` or `--prefer-binary` |
| Installer.HostPrefix | ci/build-test-json.py:63-71 | the MSYS2 prefix is undefined (IndexError) iff HOST_GNU_TYPE has no `-` |
| Installer.BaseNameIsCut | ci/build-test-json.py:140 | the MSYS2 base name is the requirement up to its first `;`, `<` or `=` |
| Installer.MingwNamesShape | ci/build-test-json.py:141-144 | the names are `python-<pkg>` and `<pkg>`, followed by their lower-case forms iff the name has an upper-case letter |
| Installer.MingwCandidatesShape | ci/build-test-json.py:141-147 | each candidate is such a name behind the host prefix and a `-`, in the same order |
| Installer.ProbeFindsFirstAccepted | ci/build-test-json.py:146-163 | the probe settles on the first candidate that is installed or installs, and on none iff no candidate does |
| Installer.ProbeMingw | ci/build-test-json.py:145-163 | the candidate loop issues the probe's commands and stops at the candidate the probe settles on |
| Installer.FlaggedFailureIsFatal | ci/build-test-json.py:182-195 | a flagged pip call installs its requirement or exits with its last attempt's non-zero code; the `--pre` retry happens iff the first attempt fails on a pre-release interpreter |
| Installer.InstallRequirement | ci/build-test-json.py:86-197 | one loop iteration does what the specification step of its parsed requirement does: skip, raise, conda, MSYS2 or pip |
| Installer.UseConda | ci/build-test-json.py:118-126 | conda installs the identifier or its conda alias; on failure the same name goes to pip |
| Installer.UseMingw | ci/build-test-json.py:127-165 | MSYS2 installs the first accepted candidate of the identifier or its MinGW alias; otherwise that name goes to pip |
| Installer.UsePip | ci/build-test-json.py:166-197 | the argument list built step by step is the specified flagged command; a requirement without pip options is left for the batch |
| Installer.StepsStopAtHalt | ci/build-test-json.py:195 | once a requirement ends the script, the requirements after it change nothing |
| Installer.InstallEach | ci/build-test-json.py:85-197 | the loop produces the fold of the iteration steps, stopping at the first halt |
| Installer.InstallBatch | ci/build-test-json.py:198-209 | the batched call is issued iff names were batched and nothing halted; its failure exits with its code |
| Installer.InstallRequirements | ci/build-test-json.py:60-210 | the commands, installed names and halt of `install_requirements` are those of the specification `Install`, which is the corrected reading of lines 194 and 207 |
| InstallerAsWritten.StaleInstalledHidesFailure | ci/build-test-json.py:187-195 | as written, a failing flagged call is ignored when `installed` is already true and raises when it is unassigned; it equals the corrected call only when `installed` is false |
| InstallerAsWritten.AgreesWhenInstalledFalse | ci/build-test-json.py:111-197 | with `installed` false on entry, an iteration as written equals the corrected one |
| InstallerAsWritten.StaleInstalledCounterexample | ci/build-test-json.py:183-195 | two `--no-deps` requirements, the second failing with code 3: as written no halt and only the first installed; corrected, exit 3 |
| InstallerAsWritten.StaleInstalledAfterInstall | ci/build-test-json.py:183-195 | any two requirements that parse to `--no-deps` identifiers, the second failing: as written only the first is installed and nothing halts; corrected, the second failure exits |
| InstallerAsWritten.FirstInstalls | ci/build-test-json.py:183-194 | a successful first `--no-deps` requirement issues one pip call, installs its identifier and, as written, leaves `installed` true |
| InstallerAsWritten.NoDepsStep | ci/build-test-json.py:167-195 | outside conda and MinGW a `--no-deps` identifier gets its own flagged pip call, as written and corrected |
| InstallerAsWritten.BatchRecordsLastRequire | ci/build-test-json.py:205-207 | two batched names installed by one successful call: corrected records both, as written only the last |
| InstallerAsWritten.BareIsBatched | ci/build-test-json.py:196-197 | outside conda and MinGW, a bare identifier only joins the batch, as written and corrected |
| InstallerAsWritten.PlainNamesBatchedAsWritten | ci/build-test-json.py:196-197 | as written, single-token requirements not starting with `-`, outside conda and MinGW, issue no command in the loop, are batched in order and leave `installed` unset |
| InstallProperties.ProbeStartsWithQuery | ci/build-test-json.py:146-151 | the probe starts by querying the first candidate with `-Ss` |
| InstallProperties.SkippedIffNothing | ci/build-test-json.py:111-117 | an iteration issues no command and records nothing iff it has no identifier or its platform or version condition fails |
| InstallProperties.PipOnlyStep | ci/build-test-json.py:166-197 | outside conda and MinGW, an iteration that goes on batches the bare identifier or installs the flagged one |
| InstallProperties.UnflaggedAreBatched | ci/build-test-json.py:166-197 | outside conda and MinGW, the loop batches the kept bare identifiers in input order and installs the flagged ones one by one |
| InstallProperties.OneCombinedInstall | ci/build-test-json.py:198-209 | the bare identifiers are installed by exactly one final pip call, whose failure ends the script with its code |
| InstallProperties.StepExitIsLastFailure | ci/build-test-json.py:182-195 | an iteration exits only with the non-zero code of its last command |
| InstallProperties.PipStepExit | ci/build-test-json.py:182-195 | a pip step exits only with the non-zero code of its last command |
| InstallProperties.CondaStepExit | ci/build-test-json.py:118-126 | a conda step, with its pip fallback, exits only with the non-zero code of its last command |
| InstallProperties.MingwStepExit | ci/build-test-json.py:138-165 | a MinGW step, with its pip fallback, exits only with the non-zero code of its last command |
| InstallProperties.StepsExitIsLastFailure | ci/build-test-json.py:85-197 | the loop exits only with the non-zero code of its last command |
| InstallProperties.FinishExitIsLastFailure | ci/build-test-json.py:205-209 | the batched call keeps that guarantee |
| InstallProperties.ExitIsLastFailure | ci/build-test-json.py:60-210 | `install_requirements` calls `sys.exit(code)` only with the non-zero code of the last command it ran |
| InstallProperties.MingwInstallsFirstAccepted | ci/build-test-json.py:138-165 | under MinGW a kept requirement records exactly the first accepted candidate, and falls back to pip only when none is accepted |
| InstallProperties.FlagsOnlyDoNothing | ci/build-test-json.py:94-113 | a requirement string without a bare token issues no command and installs nothing |
| InstallProperties.FlaggedCommandOrder | ci/build-test-json.py:167-181 | a flagged call lists `--find-links <v>`, `--no-deps`, `--prefer-binary`, `--upgrade` when set, and the identifier last |
| InstallProperties.BatchCommandOrder | ci/build-test-json.py:198-204 | the batched call lists the names in order, then `--upgrade` when set |
| InstallProperties.PlainNameStep | ci/build-test-json.py:196-197 | outside conda and MinGW, a requirement that is a single token not starting with `-` only joins the batch |
| InstallProperties.PlainNamesBatched | ci/build-test-json.py:196-197 | outside conda and MinGW, a list of single-token requirements not starting with `-` issues no command in the loop and batches them all in order |
| Script.BasicRequirements | ci/build-test-json.py:220-227 | the basic list is pip, setuptools and wheel outside pipenv and conda, then c-compiler and libpython under conda on macOS and Linux, and importlib-metadata last |
| Script.RunScript | ci/build-test-json.py:213-245 | the script body produces the specified outcome for the sample and the mode |
| Script.RunReq | ci/build-test-json.py:219-235 | `req` mode installs the basic, cx_Logging and sample requirements in order, stops at a halt, and prints the installed names, as the corrected installer records them |
| Script.PrintTestApp | ci/build-test-json.py:240-245 | the index mode prints the entry at a non-negative index below the length, the entry counted from the end for a negative index not below minus the length, nothing at an index at or past the length, and raises below minus the length |
| ScriptProperties.NegatedSampleExits | ci/build-test-json.py:213-216 | a sample whose only tags are negations, one of them of the platform in use, exits with status 0 before anything runs |
| ScriptProperties.ReqExitIsNonZero | ci/build-test-json.py:219-233 | the installs of `req` mode only ever exit with a non-zero code |
| ScriptProperties.ExitZeroOnlyWhenRuledOut | ci/build-test-json.py:213-245 | the script calls `sys.exit` with status 0 iff the sample's platform field rules out the platform in use; every other `sys.exit` it makes carries a non-zero code (a run that ends normally is not a `sys.exit`) |
| ScriptProperties.DefaultTestApp | ci/build-test-json.py:237-245 | without `test_app`, index 0 prints `test_<sample>` and a larger index prints nothing |
| ScriptProperties.SingleStringTestApp | ci/build-test-json.py:238-245 | a string `test_app` prints at index 0 and nothing at index 1 |
| ScriptProperties.SecondTestApp | ci/build-test-json.py:244-245 | `["a", "b"]` at index 1 prints `b` |
| ScriptProperties.SelectTestAppFacts | ci/build-test-json.py:240-245 | at most one line, always an entry; `apps[line]` for every index in range; nothing iff the index is past the end; a raise iff it is below minus the length |
| ScriptProperties.PlainBasicNames | ci/build-test-json.py:220-227 | outside pipenv and conda the basic list is four plain identifiers |
| ScriptProperties.BasicRunsFirst | ci/build-test-json.py:227-233 | outside MinGW and Windows, the basic install's commands come first, and its halt ends `req` mode |
| ScriptProperties.BasicInstallFirst | ci/build-test-json.py:227-233 | with plain basic requirements, `req` mode starts with one combined pip call for them, and its failure ends the script at once |
| ScriptProperties.PlainBasicRequirements | ci/build-test-json.py:220-233 | outside pipenv, conda, MinGW and Windows, the first command is the combined pip call for pip, setuptools, wheel and importlib-metadata |
| ScriptProperties.LibpythonNeedsThreeEight | ci/build-test-json.py:224-226 | under conda, the libpython requirement issues no command iff the interpreter is older than 3.8 |
| ScriptProperties.LibpythonParses | ci/build-test-json.py:226 | that requirement is the identifier `libpython-static` with the condition `>=3.8` |
| ScriptProperties.VersionGate | ci/build-test-json.py:116-117 | under conda, a requirement whose only condition is a well-formed version condition (no platform tags) issues no command iff the condition is false |

## Left out

- Subprocesses are a total, stateless function from the argument list to an exit code and standard output: the same argument list always gets the same reply, so an install cannot change the answer of a later `pacman` query or pip call in the same run. No property proved here depends on that. The working directory, the output streams and timing are not modelled.
- Start-up is not modelled. `Config` stands for lines 10-32: the platform names, the interpreter version and release level, `HOST_GNU_TYPE`, the Pipfile and `conda-meta` checks, and `$CONDA_EXE` and `$PIP_UPGRADE`.
- The manifest record and the command-line argument are inputs (`Sample`, `Mode`). Reading the JSON file, the argument-count check at line 22 and `print` are not modelled; printed lines are returned as strings.
- The JSON fields are modelled as a string or a list of strings. Other JSON types are not modelled.
- A mode argument that `int` rejects raises in the script. The model has no such mode.
- `eval` at line 57 is modelled only for the six comparison operators. Any other operator text is `Raised`, even where Python would evaluate it to something.
- `\s`, `\d` and `str.lower` are modelled for ASCII only.
- When `sysconfig` has no `HOST_GNU_TYPE`, line 64 calls `split` on `None`. That case is not modelled. A value without a `-` is modelled (`Raised`).
- `sys.exit()` with no argument is `Exit(0)`. `sys.exit(code)` is `Exit(code)`.
- InstallerAsWritten.FinishAsWritten: appends nothing when the last requirement has no identifier. The script appends `None` there, and the later `" ".join` raises.
- InstallProperties.OneCombinedInstall: states batching only outside conda and MinGW. There, conda or MSYS2 can install a bare identifier before it reaches the batch.
- InstallProperties.UnflaggedAreBatched: outside conda and MinGW only, for the same reason.
- The commented-out loop at lines 241-243 is not modelled, because it never runs.
- Script.RunReq: prints what the corrected installer records. As written, the script can record fewer names after a batched call, and it can go on past a failed flagged call. `InstallerAsWritten` models those two differences, but `Script` is not built a second time on top of it.

## Findings

| source | as written | input that shows it | evidently intended | confidence | as-written member | corrected member |
|---|---|---|---|---|---|---|
| ci/build-test-json.py:187-195 | after a failed flagged pip call the script tests `installed`, a variable shared by all iterations. Only the MinGW branch resets it (to `False`, line 145) in the same iteration; elsewhere it holds what an earlier conda or pip success set. A stale `True` skips `sys.exit`, and on a final interpreter with nothing installed yet the name is unbound and raises | two requirements `a --no-deps` and `b --no-deps` outside conda and MinGW on a final interpreter, where the first pip call succeeds and the second exits with code 3 | the failed call ends the script with its exit code | not executed | InstallerAsWritten.StaleInstalledCounterexample | Installer.FlaggedFailureIsFatal |
| ci/build-test-json.py:205-207 | after the batched pip call succeeds, the script records `require`, which is the last requirement's identifier, not the batched names | two bare requirements `a` and `b` installed by one successful batched call: as written only `b` is recorded | every batched name is recorded as installed | not executed | InstallerAsWritten.BatchRecordsLastRequire | InstallProperties.OneCombinedInstall |
