/**
  The top level of `ci/build-test-json.py`: a sample whose `platform` field
  rules out the platform in use ends the script successfully at once; in
  "req" mode the basic requirements, cx_Logging on Windows and MinGW, and the
  sample's own requirements are installed in that order and the installed
  names are printed; otherwise the argument is an index into the sample's
  `test_app` list and the name at that index is printed.
 */
module Script {
  import opened Wrappers
  import opened Text
  import Platform
  import opened Installer

  /** A sample's record in the manifest; a missing field is `None`. */
  datatype Sample = Sample(platform: Option<StringOrList>, requirements: Option<StringOrList>,
                           testApp: Option<StringOrList>)

  /** The script's second argument: the literal `req`, or (through `int`) an index into `test_app`. */
  datatype Mode = InstallMode | AppIndex(line: int)

  /** What a run of the script does: the commands it runs, the lines it prints, and how it ends early. */
  datatype Outcome = Outcome(commands: seq<Command>, output: seq<string>, halt: Option<Halt>)

  const CxLogging := "cx_Logging>=3.0"
  const LibpythonName := "libpython-static"
  const AtLeast38 := ">=3.8"
  /** The conda requirement for a static libpython, kept only from Python 3.8 on. */
  const Libpython := LibpythonName + " --python-version" + AtLeast38

  /** A sample runs unless its `platform` field is present, non-empty, and rules the platform out. */
  predicate SampleRuns(cfg: Config, sample: Sample) {
    match sample.platform
    case None => true
    case Some(p) => !p.NonEmpty() || Platform.IsSupportedField(p, cfg.PlatformInUse())
  }

  /** The requirements installed before any of the sample's own. */
  function BasicRequirements(cfg: Config): (r: seq<string>)
    ensures |r| == 1 + (if !cfg.isPipenv && !cfg.isConda then 3 else 0) +
                       (if cfg.isConda && (cfg.IsMacos() || cfg.IsLinux()) then 2 else 0)
    ensures r[|r| - 1] == "importlib-metadata"
    ensures !cfg.isPipenv && !cfg.isConda ==> r[..3] == ["pip", "setuptools", "wheel"]
    ensures cfg.isConda && (cfg.IsMacos() || cfg.IsLinux()) ==>
      r[|r| - 3] == "c-compiler" && r[|r| - 2] == Libpython
  {
    (if cfg.isPipenv || cfg.isConda then [] else ["pip", "setuptools", "wheel"])
    + (if cfg.isConda && (cfg.IsMacos() || cfg.IsLinux()) then ["c-compiler", Libpython] else [])
    + ["importlib-metadata"]
  }

  /** The installs of "req" mode, in order, stopping at the first that halts. */
  function ReqSteps(cfg: Config, sample: Sample, run: Command -> Reply): Step {
    var basic := Install(cfg, StringList(BasicRequirements(cfg)), run);
    var withCx :=
      if basic.halt.None? && (cfg.IsWindows() || cfg.IsMingw()) then Then(basic, Install(cfg, OneString(CxLogging), run))
      else basic;
    if withCx.halt.None? && sample.requirements.Some? && sample.requirements.value.NonEmpty() then
      Then(withCx, Install(cfg, sample.requirements.value, run))
    else withCx
  }

  /** The line "req" mode prints. */
  function InstalledLine(installed: seq<string>): string {
    "Requirements installed: " + Join(installed, " ")
  }

  function ReqOutcome(cfg: Config, sample: Sample, run: Command -> Reply): Outcome {
    var all := ReqSteps(cfg, sample, run);
    Outcome(all.commands, if all.halt.None? && all.installed != [] then [InstalledLine(all.installed)] else [], all.halt)
  }

  /** The sample's `test_app` entries: `test_<sample>` when absent, a string as a one-entry list. */
  function TestApps(name: string, sample: Sample): seq<string> {
    match sample.testApp
    case None => ["test_" + name]
    case Some(OneString(s)) => [s]
    case Some(StringList(items)) => items
  }

  /** `if line < len(apps): print(apps[line])`, with Python's indexing from the end for a negative index. */
  function SelectTestApp(apps: seq<string>, line: int): Outcome {
    if line >= |apps| then Outcome([], [], None)
    else if line >= 0 then Outcome([], [apps[line]], None)
    else if line >= -|apps| then Outcome([], [apps[|apps| + line]], None)
    else Outcome([], [], Some(Raised))
  }

  /** The whole script for one sample and one mode. */
  function RunOutcome(cfg: Config, name: string, sample: Sample, mode: Mode, run: Command -> Reply): Outcome {
    if !SampleRuns(cfg, sample) then Outcome([], [], Some(Exit(0)))
    else
      match mode
      case InstallMode => ReqOutcome(cfg, sample, run)
      case AppIndex(line) => SelectTestApp(TestApps(name, sample), line)
  }

  /** The script body after start-up. */
  method RunScript(cfg: Config, name: string, sample: Sample, mode: Mode, run: Command -> Reply)
    returns (out: Outcome)
    ensures out == RunOutcome(cfg, name, sample, mode, run)
  {
    // verify if platform to run is in use
    if sample.platform.Some? && sample.platform.value.NonEmpty() &&
       !Platform.IsSupportedField(sample.platform.value, cfg.PlatformInUse()) {
      return Outcome([], [], Some(Exit(0)));
    }
    match mode
    case InstallMode =>
      out := RunReq(cfg, sample, run);
    case AppIndex(line) =>
      out := PrintTestApp(TestApps(name, sample), line);
  }

  /** "req" mode: the basic requirements, cx_Logging where needed, then the sample's own. */
  method RunReq(cfg: Config, sample: Sample, run: Command -> Reply) returns (out: Outcome)
    ensures out == ReqOutcome(cfg, sample, run)
  {
    var basic: seq<string>;
    if cfg.isPipenv || cfg.isConda {
      basic := [];
    } else {
      basic := ["pip", "setuptools", "wheel"];
    }
    if cfg.isConda && (cfg.IsMacos() || cfg.IsLinux()) {
      basic := basic + ["c-compiler"];
      basic := basic + [Libpython];
    }
    basic := basic + ["importlib-metadata"];
    assert basic == BasicRequirements(cfg);
    var commands, installed, halt := InstallRequirements(cfg, StringList(basic), run);
    if halt.None? && (cfg.IsWindows() || cfg.IsMingw()) {
      var more, added, stop := InstallRequirements(cfg, OneString(CxLogging), run);
      commands, installed, halt := commands + more, installed + added, stop;
    }
    if halt.None? && sample.requirements.Some? && sample.requirements.value.NonEmpty() {
      var more, added, stop := InstallRequirements(cfg, sample.requirements.value, run);
      commands, installed, halt := commands + more, installed + added, stop;
    }
    var output := if halt.None? && installed != [] then [InstalledLine(installed)] else [];
    out := Outcome(commands, output, halt);
  }

  /**
    The app-index mode: print the entry at `line` when it is below the list's
    length, counting from the end for a negative `line`; an index below minus
    the length raises `IndexError`.
   */
  method PrintTestApp(apps: seq<string>, line: int) returns (out: Outcome)
    ensures out == SelectTestApp(apps, line)
  {
    if line < |apps| {
      if line >= 0 {
        return Outcome([], [apps[line]], None);
      } else if line >= -|apps| {
        return Outcome([], [apps[|apps| + line]], None);
      }
      // Python raises IndexError
      return Outcome([], [], Some(Raised));
    }
    return Outcome([], [], None);
  }
}
