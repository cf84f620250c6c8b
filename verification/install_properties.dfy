/**
  What `install_requirements` guarantees across a whole list of
  requirements: which requirements are skipped, which end up in the one
  combined pip call, which candidate MSYS2 settles on, and which exit code a
  failure ends the script with.
 */
module InstallProperties {
  import opened Wrappers
  import opened Text
  import PythonVersion
  import opened Requirement
  import opened Installer

  function Last<T>(s: seq<T>): T
    requires s != []
  {
    s[|s| - 1]
  }

  lemma DropLast<T>(s: seq<T>)
    requires s != []
    ensures s[..|s| - 1] + [Last(s)] == s
  {
  }

  /** Every probe starts by querying the first candidate. */
  lemma ProbeStartsWithQuery(cands: seq<string>, run: Command -> Reply)
    requires cands != []
    ensures ProbeAll(cands, run).commands != [] && ProbeAll(cands, run).commands[0] == QueryCommand(cands[0])
  {
  }

  /** An iteration issues no command and records nothing exactly when its requirement is skipped. */
  lemma SkippedIffNothing(cfg: Config, host: string, f: Flags, run: Command -> Reply)
    ensures RequirementStep(cfg, host, f, run) == Skip <==> Skipped(cfg, f)
  {
    if !Skipped(cfg, f) && !cfg.isConda && cfg.IsMingw() {
      var n := if f.mingwAlias != "" then f.mingwAlias else f.require.value;
      MingwCandidatesShape(host, n);
      ProbeStartsWithQuery(MingwCandidates(host, n), run);
    }
    if !Skipped(cfg, f) && PipOptions(f) != [] {
      var n := if cfg.isConda && f.condaAlias != "" then f.condaAlias
        else if !cfg.isConda && cfg.IsMingw() && f.mingwAlias != "" then f.mingwAlias
        else f.require.value;
      FlaggedFailureIsFatal(cfg, FlaggedCommand(cfg, PipOptions(f), n), n, run);
    }
  }

  /** Outside conda and MinGW: the names a requirement leaves for the combined pip call. */
  function BareName(cfg: Config, f: Flags): seq<string> {
    if !Skipped(cfg, f) && PipOptions(f) == [] then [f.require.value] else []
  }

  /** Outside conda and MinGW: the names a requirement installs with a pip call of its own. */
  function FlaggedName(cfg: Config, f: Flags): seq<string> {
    if !Skipped(cfg, f) && PipOptions(f) != [] then [f.require.value] else []
  }

  /** The identifiers of the kept requirements without pip flags, in order. */
  function Unflagged(cfg: Config, reqs: seq<string>): seq<string>
    decreases |reqs|
  {
    if reqs == [] then [] else Unflagged(cfg, reqs[..|reqs| - 1]) + BareName(cfg, Parse(Last(reqs)))
  }

  /** The identifiers of the kept requirements with pip flags, in order. */
  function Flagged(cfg: Config, reqs: seq<string>): seq<string>
    decreases |reqs|
  {
    if reqs == [] then [] else Flagged(cfg, reqs[..|reqs| - 1]) + FlaggedName(cfg, Parse(Last(reqs)))
  }

  /** One iteration of a pip-only run that does not halt. */
  lemma PipOnlyStep(cfg: Config, f: Flags, run: Command -> Reply)
    requires !cfg.isConda && !cfg.IsMingw()
    requires RequirementStep(cfg, "", f, run).halt.None?
    ensures RequirementStep(cfg, "", f, run).batched == BareName(cfg, f)
    ensures RequirementStep(cfg, "", f, run).installed == FlaggedName(cfg, f)
  {
    if !Skipped(cfg, f) && PipOptions(f) != [] {
      var n := f.require.value;
      FlaggedFailureIsFatal(cfg, FlaggedCommand(cfg, PipOptions(f), n), n, run);
    }
  }

  /**
    Outside conda and MinGW, as long as the loop does not halt, every kept
    requirement without pip flags is left, in order, for the combined call,
    and every kept requirement with pip flags is installed by its own call.
   */
  lemma {:induction false} UnflaggedAreBatched(cfg: Config, reqs: seq<string>, run: Command -> Reply)
    requires !cfg.isConda && !cfg.IsMingw()
    requires Steps(cfg, "", reqs, run).halt.None?
    ensures Steps(cfg, "", reqs, run).batched == Unflagged(cfg, reqs)
    ensures Steps(cfg, "", reqs, run).installed == Flagged(cfg, reqs)
    decreases |reqs|
  {
    if reqs != [] {
      var init := reqs[..|reqs| - 1];
      UnflaggedAreBatched(cfg, init, run);
      PipOnlyStep(cfg, Parse(Last(reqs)), run);
    }
  }

  /**
    Outside conda and MinGW, when the loop does not halt, the requirements
    without pip flags are installed by exactly one pip call at the end, and
    its failure ends the script with its exit code.
   */
  lemma OneCombinedInstall(cfg: Config, reqs: seq<string>, run: Command -> Reply)
    requires !cfg.isConda && !cfg.IsMingw()
    requires Steps(cfg, "", reqs, run).halt.None?
    ensures var done := Steps(cfg, "", reqs, run);
      var r := Install(cfg, StringList(reqs), run);
      var batch := BatchCommand(cfg, Unflagged(cfg, reqs));
      if Unflagged(cfg, reqs) == [] then
        r == done && r.installed == Flagged(cfg, reqs)
      else
        r.commands == done.commands + [batch] &&
        (run(batch).code == 0 ==> r.halt == None && r.installed == Flagged(cfg, reqs) + Unflagged(cfg, reqs)) &&
        (run(batch).code != 0 ==> r.halt == Some(Exit(run(batch).code)))
  {
    UnflaggedAreBatched(cfg, reqs, run);
  }

  /** `s` ends the script with an exit code only after a last command that failed with that code. */
  predicate ExitsAfterFailure(s: Step, run: Command -> Reply) {
    s.halt.Some? && s.halt.value.Exit? ==>
      s.commands != [] && s.halt.value.code == run(Last(s.commands)).code && s.halt.value.code != 0
  }

  /** An iteration that ends the script with an exit code got it from its last, failing command. */
  lemma StepExitIsLastFailure(cfg: Config, host: string, f: Flags, run: Command -> Reply)
    ensures ExitsAfterFailure(RequirementStep(cfg, host, f, run), run)
  {
    if f.require.Some? {
      var name := f.require.value;
      CondaStepExit(cfg, f, name, run);
      MingwStepExit(cfg, host, f, name, run);
      PipStepExit(cfg, f, name, run);
    }
  }

  /** The pip stage exits only with the code of its last, failing attempt. */
  lemma PipStepExit(cfg: Config, f: Flags, name: string, run: Command -> Reply)
    ensures ExitsAfterFailure(PipStep(cfg, f, name, run), run)
  {
    FlaggedFailureIsFatal(cfg, FlaggedCommand(cfg, PipOptions(f), name), name, run);
  }

  /** The conda branch exits only through its pip stage. */
  lemma CondaStepExit(cfg: Config, f: Flags, name: string, run: Command -> Reply)
    ensures ExitsAfterFailure(CondaStep(cfg, f, name, run), run)
  {
    var n := if f.condaAlias != "" then f.condaAlias else name;
    PipStepExit(cfg, f, n, run);
    ThenExit(Step([CondaCommand(cfg, n)], [], [], None), PipStep(cfg, f, n, run), run);
  }

  /** The MinGW branch exits only through its pip stage. */
  lemma MingwStepExit(cfg: Config, host: string, f: Flags, name: string, run: Command -> Reply)
    ensures ExitsAfterFailure(MingwStep(cfg, host, f, name, run), run)
  {
    var n := if f.mingwAlias != "" then f.mingwAlias else name;
    PipStepExit(cfg, f, n, run);
    var probe := ProbeAll(MingwCandidates(host, n), run);
    ThenExit(Step(probe.commands, [], [], None), PipStep(cfg, f, n, run), run);
  }

  /** Running a step after another keeps the guarantee of the second. */
  lemma ThenExit(s: Step, t: Step, run: Command -> Reply)
    requires ExitsAfterFailure(t, run)
    ensures ExitsAfterFailure(Then(s, t), run)
  {
    if t.halt.Some? && t.halt.value.Exit? {
      assert Last(s.commands + t.commands) == Last(t.commands);
    }
  }

  /** The loop ends the script with an exit code only after a command that failed with it. */
  lemma {:induction false} StepsExitIsLastFailure(cfg: Config, host: string, reqs: seq<string>, run: Command -> Reply)
    ensures ExitsAfterFailure(Steps(cfg, host, reqs, run), run)
    decreases |reqs|
  {
    if reqs != [] {
      var init := reqs[..|reqs| - 1];
      StepsExitIsLastFailure(cfg, host, init, run);
      var done := Steps(cfg, host, init, run);
      if done.halt.None? {
        var step := RequirementStep(cfg, host, Parse(Last(reqs)), run);
        StepExitIsLastFailure(cfg, host, Parse(Last(reqs)), run);
        if step.halt.Some? && step.halt.value.Exit? {
          assert Last(done.commands + step.commands) == Last(step.commands);
        }
      }
    }
  }

  /** The combined pip call keeps that guarantee: its own failure exits with its own code. */
  lemma FinishExitIsLastFailure(cfg: Config, done: Step, run: Command -> Reply)
    requires ExitsAfterFailure(done, run)
    ensures ExitsAfterFailure(Finish(cfg, done, run), run)
  {
  }

  /**
    `install_requirements` stops the script with `sys.exit(code)` only where
    `code` is the non-zero exit code of the last command it ran.
   */
  lemma ExitIsLastFailure(cfg: Config, reqList: StringOrList, run: Command -> Reply)
    ensures ExitsAfterFailure(Install(cfg, reqList, run), run)
  {
    var reqs := reqList.CommaList();
    var host := if cfg.IsMingw() && HostPrefix(cfg).Some? then HostPrefix(cfg).value else "";
    StepsExitIsLastFailure(cfg, host, reqs, run);
    FinishExitIsLastFailure(cfg, Steps(cfg, host, reqs, run), run);
  }

  /**
    Under MinGW (outside conda), a kept requirement is installed as the first
    MSYS2 candidate that is already installed or installs, and falls back to
    pip only when no candidate does.
   */
  lemma MingwInstallsFirstAccepted(cfg: Config, host: string, f: Flags, run: Command -> Reply)
    requires !cfg.isConda && cfg.IsMingw()
    requires !Skipped(cfg, f)
    requires f.pythonVersion == "" || PythonVersion.IsSupportedPython(f.pythonVersion, cfg.Version()).Some?
    ensures var n := if f.mingwAlias != "" then f.mingwAlias else f.require.value;
      var c := MingwCandidates(host, n);
      var s := RequirementStep(cfg, host, f, run);
      ((exists i :: 0 <= i < |c| && Accepts(c[i], run)) ==>
        exists k :: 0 <= k < |c| && Accepts(c[k], run) && (forall j :: 0 <= j < k ==> !Accepts(c[j], run)) &&
          s == Step(ProbeAll(c, run).commands, [c[k]], [], None)) &&
      ((forall i :: 0 <= i < |c| ==> !Accepts(c[i], run)) ==>
        s == Then(Step(ProbeAll(c, run).commands, [], [], None), PipStep(cfg, f, n, run)))
  {
    var n := if f.mingwAlias != "" then f.mingwAlias else f.require.value;
    ProbeFindsFirstAccepted(MingwCandidates(host, n), run);
  }

  /** A requirement string without a bare token issues no command and installs nothing. */
  lemma FlagsOnlyDoNothing(cfg: Config, host: string, req: string, run: Command -> Reply)
    requires forall i :: 0 <= i < |Split(req, ' ')| ==> !Classify(Split(req, ' ')[i]).Identifier?
    ensures RequirementStep(cfg, host, Parse(req), run) == Skip
  {
    FoldFacts(Tokens(req));
  }

  /**
    A flagged pip call lists `--find-links <v>`, `--no-deps` and
    `--prefer-binary` in that order after the install command, then
    `--upgrade` when PIP_UPGRADE is set, and the identifier last.
   */
  lemma FlaggedCommandOrder(cfg: Config, f: Flags, name: string)
    ensures var cmd := FlaggedCommand(cfg, PipOptions(f), name);
      var k := if f.findLinks != "" then 6 else 4;
      var u := if cfg.pipUpgrade then 1 else 0;
      |cmd| == k + (if f.noDeps then 1 else 0) + (if f.preferBinary then 1 else 0) + u + 1 &&
      cmd[..4] == (if cfg.isPipenv then ["pipenv", "run", "pip", "install"] else PipBase(cfg)) &&
      (f.findLinks != "" ==> cmd[4] == "--find-links" && cmd[5] == f.findLinks) &&
      (f.noDeps ==> cmd[k] == "--no-deps") &&
      (f.preferBinary ==> cmd[|cmd| - 2 - u] == "--prefer-binary") &&
      (cfg.pipUpgrade ==> cmd[|cmd| - 2] == "--upgrade") &&
      Last(cmd) == name
  {
  }

  /** The combined call lists the batched names in order, then `--upgrade` when PIP_UPGRADE is set. */
  lemma BatchCommandOrder(cfg: Config, names: seq<string>)
    ensures var cmd := BatchCommand(cfg, names);
      var k := if cfg.isPipenv then 2 else 4;
      |cmd| == k + |names| + (if cfg.pipUpgrade then 1 else 0) &&
      cmd[k..k + |names|] == names &&
      (cfg.pipUpgrade ==> Last(cmd) == "--upgrade")
  {
  }

  /** Outside conda and MinGW, a list of plain identifiers issues no command until the combined call. */
  lemma {:induction false} PlainNamesBatched(cfg: Config, names: seq<string>, run: Command -> Reply)
    requires !cfg.isConda && !cfg.IsMingw()
    requires forall i :: 0 <= i < |names| ==> PlainName(names[i])
    ensures Steps(cfg, "", names, run) == Step([], [], names, None)
    decreases |names|
  {
    if names != [] {
      var init := names[..|names| - 1];
      PlainNamesBatched(cfg, init, run);
      var last := Last(names);
      PlainNameStep(cfg, last, run);
      assert Steps(cfg, "", names, run) == Then(Step([], [], init, None), Step([], [], [last], None));
      DropLast(names);
    }
  }

  /** Outside conda and MinGW, a plain identifier only joins the batch. */
  lemma PlainNameStep(cfg: Config, req: string, run: Command -> Reply)
    requires !cfg.isConda && !cfg.IsMingw()
    requires PlainName(req)
    ensures RequirementStep(cfg, "", Parse(req), run) == Step([], [], [req], None)
  {
    ParseBare(req);
    assert PipOptions(Parse(req)) == [];
  }
}
