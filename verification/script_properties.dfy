/** What the top level of the script guarantees. */
module ScriptProperties {
  import opened Wrappers
  import opened Text
  import Platform
  import PythonVersion
  import opened Requirement
  import opened Installer
  import InstallProperties
  import opened Script

  /**
    A sample whose `platform` list only negates platforms, the one in use
    among them, ends the script with status 0 before anything runs, in either
    mode.
   */
  lemma NegatedSampleExits(cfg: Config, name: string, tags: seq<string>, sample: Sample, mode: Mode,
                           run: Command -> Reply)
    requires sample.platform == Some(StringList(tags))
    requires forall t :: t in tags ==> StartsWith(t, "!")
    requires "!" + cfg.PlatformInUse() in tags
    ensures RunOutcome(cfg, name, sample, mode, run) == Outcome([], [], Some(Exit(0)))
  {
    Platform.NegatedPlatformRejected(tags, cfg.PlatformInUse());
  }

  /** In "req" mode the installs only ever end the script with a non-zero exit code. */
  lemma ReqExitIsNonZero(cfg: Config, sample: Sample, run: Command -> Reply)
    ensures ReqSteps(cfg, sample, run).halt.Some? && ReqSteps(cfg, sample, run).halt.value.Exit? ==>
      ReqSteps(cfg, sample, run).halt.value.code != 0
  {
    var basic := Install(cfg, StringList(BasicRequirements(cfg)), run);
    var cx := Install(cfg, OneString(CxLogging), run);
    InstallProperties.ExitIsLastFailure(cfg, StringList(BasicRequirements(cfg)), run);
    InstallProperties.ExitIsLastFailure(cfg, OneString(CxLogging), run);
    if sample.requirements.Some? {
      InstallProperties.ExitIsLastFailure(cfg, sample.requirements.value, run);
    }
  }

  /**
    The script calls `sys.exit` with status 0 exactly when the sample's
    `platform` field rules it out; every other `sys.exit` carries the failing
    command's non-zero code. A run that ends normally is not a `sys.exit`.
   */
  lemma ExitZeroOnlyWhenRuledOut(cfg: Config, name: string, sample: Sample, mode: Mode, run: Command -> Reply)
    ensures RunOutcome(cfg, name, sample, mode, run).halt == Some(Exit(0)) <==> !SampleRuns(cfg, sample)
  {
    if SampleRuns(cfg, sample) && mode.InstallMode? {
      ReqExitIsNonZero(cfg, sample, run);
    }
  }

  /** Without a `test_app` field, index 0 (or -1) prints `test_<sample>` and any larger index prints nothing. */
  lemma DefaultTestApp(cfg: Config, name: string, sample: Sample, line: int, run: Command -> Reply)
    requires SampleRuns(cfg, sample) && sample.testApp.None?
    ensures line == 0 || line == -1 ==> RunOutcome(cfg, name, sample, AppIndex(line), run).output == ["test_" + name]
    ensures line >= 1 ==> RunOutcome(cfg, name, sample, AppIndex(line), run) == Outcome([], [], None)
  {
  }

  /** A `test_app` string is a one-entry list: index 0 prints it. */
  lemma SingleStringTestApp(cfg: Config, name: string, sample: Sample, app: string, run: Command -> Reply)
    requires SampleRuns(cfg, sample) && sample.testApp == Some(OneString(app))
    ensures RunOutcome(cfg, name, sample, AppIndex(0), run).output == [app]
    ensures RunOutcome(cfg, name, sample, AppIndex(1), run).output == []
  {
  }

  /** `test_app: ["a", "b"]` with index 1 prints `b`. */
  lemma SecondTestApp(cfg: Config, name: string, sample: Sample, run: Command -> Reply)
    requires SampleRuns(cfg, sample) && sample.testApp == Some(StringList(["a", "b"]))
    ensures RunOutcome(cfg, name, sample, AppIndex(1), run) == Outcome([], ["b"], None)
  {
  }

  /**
    The selector prints at most one line, always an entry of the list; it
    prints `apps[line]` for every index in range, nothing for an index past
    the end, and raises only for a negative index beyond the start.
   */
  lemma SelectTestAppFacts(apps: seq<string>, line: int)
    ensures var o := SelectTestApp(apps, line);
      o.commands == [] && |o.output| <= 1 &&
      (o.output != [] ==> o.output[0] in apps) &&
      (0 <= line < |apps| ==> o.output == [apps[line]] && o.halt.None?) &&
      (o.output == [] && o.halt.None? <==> line >= |apps|) &&
      (o.halt == Some(Raised) <==> line < -|apps|)
  {
  }

  /** Outside pipenv and conda the basic requirements are four plain identifiers. */
  lemma PlainBasicNames(cfg: Config)
    requires !cfg.isPipenv && !cfg.isConda
    ensures BasicRequirements(cfg) == ["pip", "setuptools", "wheel", "importlib-metadata"]
    ensures forall i :: 0 <= i < |BasicRequirements(cfg)| ==> PlainName(BasicRequirements(cfg)[i])
  {
    var names := BasicRequirements(cfg);
    assert names == ["pip", "setuptools", "wheel", "importlib-metadata"];
  }

  /**
    Outside MinGW and Windows, "req" mode runs the basic install first, and
    when that install halts nothing else runs.
   */
  lemma BasicRunsFirst(cfg: Config, sample: Sample, run: Command -> Reply)
    requires !cfg.IsMingw() && !cfg.IsWindows()
    ensures var basic := Install(cfg, StringList(BasicRequirements(cfg)), run);
      var all := ReqSteps(cfg, sample, run);
      |basic.commands| <= |all.commands| && all.commands[..|basic.commands|] == basic.commands &&
      (basic.halt.Some? ==> all == basic)
  {
    var basic := Install(cfg, StringList(BasicRequirements(cfg)), run);
    var all := ReqSteps(cfg, sample, run);
    if basic.halt.None? && sample.requirements.Some? && sample.requirements.value.NonEmpty() {
      var own := Install(cfg, sample.requirements.value, run);
      assert all == Then(basic, own);
      assert all.commands[..|basic.commands|] == basic.commands;
    }
  }

  /**
    Outside conda, MinGW and Windows, when the basic requirements are all
    plain identifiers, "req" mode starts with one combined pip call for them,
    and a failure of that call ends the script with its exit code before
    anything else runs.
   */
  lemma BasicInstallFirst(cfg: Config, sample: Sample, run: Command -> Reply)
    requires !cfg.isConda && !cfg.IsMingw() && !cfg.IsWindows()
    requires forall i :: 0 <= i < |BasicRequirements(cfg)| ==> PlainName(BasicRequirements(cfg)[i])
    ensures var batch := BatchCommand(cfg, BasicRequirements(cfg));
      var r := ReqOutcome(cfg, sample, run);
      r.commands != [] && r.commands[0] == batch &&
      (run(batch).code != 0 ==> r == Outcome([batch], [], Some(Exit(run(batch).code))))
  {
    var names := BasicRequirements(cfg);
    var batch := BatchCommand(cfg, names);
    var basic := Install(cfg, StringList(names), run);
    assert basic.commands == [batch] && (run(batch).code != 0 ==> basic.halt == Some(Exit(run(batch).code))) by {
      InstallProperties.PlainNamesBatched(cfg, names, run);
      assert basic == Finish(cfg, Step([], [], names, None), run);
    }
    BasicRunsFirst(cfg, sample, run);
  }

  /**
    Outside pipenv, conda, MinGW and Windows, "req" mode starts with one
    combined pip call for `pip`, `setuptools`, `wheel` and
    `importlib-metadata`, and a failure of that call ends the script with its
    exit code before anything else runs.
   */
  lemma PlainBasicRequirements(cfg: Config, sample: Sample, run: Command -> Reply)
    requires !cfg.isPipenv && !cfg.isConda && !cfg.IsMingw() && !cfg.IsWindows()
    ensures var batch := BatchCommand(cfg, ["pip", "setuptools", "wheel", "importlib-metadata"]);
      var r := ReqOutcome(cfg, sample, run);
      r.commands != [] && r.commands[0] == batch &&
      (run(batch).code != 0 ==> r == Outcome([batch], [], Some(Exit(run(batch).code))))
  {
    PlainBasicNames(cfg);
    BasicInstallFirst(cfg, sample, run);
  }

  /**
    Inside conda, the basic requirement `libpython-static --python-version>=3.8`
    issues no command exactly when the interpreter is older than 3.8.
   */
  lemma LibpythonNeedsThreeEight(cfg: Config, host: string, run: Command -> Reply)
    requires cfg.isConda
    ensures RequirementStep(cfg, host, Parse(Libpython), run) == Skip <==>
      !(cfg.major > 3 || (cfg.major == 3 && cfg.minor >= 8))
  {
    var f := Unset.(pythonVersion := AtLeast38, require := Some(LibpythonName));
    LibpythonParses();
    PythonVersion.AtLeastThreeEight(cfg.Version());
    VersionGate(cfg, host, f, run);
  }

  /** The libpython requirement is the identifier `libpython-static` with the condition `>=3.8`. */
  lemma LibpythonParses()
    ensures Parse(Libpython) == Unset.(pythonVersion := AtLeast38, require := Some(LibpythonName))
  {
    ParseWithVersion(LibpythonName, AtLeast38);
  }

  /**
    Inside conda, a requirement whose only condition is a well-formed
    `--python-version` issues no command exactly when the condition is false.
   */
  lemma VersionGate(cfg: Config, host: string, f: Flags, run: Command -> Reply)
    requires cfg.isConda && f.require.Some? && f.platform == "" && f.pythonVersion != ""
    requires PythonVersion.IsSupportedPython(f.pythonVersion, cfg.Version()).Some?
    ensures RequirementStep(cfg, host, f, run) == Skip <==>
      PythonVersion.IsSupportedPython(f.pythonVersion, cfg.Version()) == Some(false)
  {
    InstallProperties.SkippedIffNothing(cfg, host, f, run);
  }
}
