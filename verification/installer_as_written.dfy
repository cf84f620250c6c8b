/**
  `install_requirements` as the script is written, where it differs from the
  model in `Installer`:
  - after a failing flagged pip call the script tests its `installed`
    variable, which lives across iterations: the MinGW branch resets it to
    `False` in the same iteration, but elsewhere it holds what an earlier
    conda or pip success set, so a stale `True` hides the failure and an
    unassigned one raises;
  - after a successful batched pip call it records the loop's last `require`
    instead of the batched names.
 */
module InstallerAsWritten {
  import opened Wrappers
  import opened Text
  import Platform
  import PythonVersion
  import opened Requirement
  import opened Installer
  import InstallProperties

  /**
    The flagged pip call as written: on failure the script tests `installed`,
    which still holds what an earlier requirement left in it (`None` when no
    earlier branch assigned it, so the test raises).
   */
  function FlaggedInstallAsWritten(cfg: Config, cmd: Command, name: string, run: Command -> Reply,
                                   installedBefore: Option<bool>): Step {
    var first := run(cmd).code;
    if first == 0 then Step([cmd], [name], [], None)
    else
      var retry := cmd + ["--pre"];
      var commands := if cfg.isFinal then [cmd] else [cmd, retry];
      var code := if cfg.isFinal then first else run(retry).code;
      if !cfg.isFinal && code == 0 then Step(commands, [name], [], None)
      else
        match installedBefore
        case None => Step(commands, [], [], Some(Raised))
        case Some(true) => Step(commands, [], [], None)
        case Some(false) => Step(commands, [], [], Some(Exit(code)))
  }

  /**
    A failing flagged call is ignored when `installed` is already true, raises
    when it was never assigned, and ends the script with the call's exit code
    only when it is false, which is the corrected `FlaggedInstall`.
   */
  lemma StaleInstalledHidesFailure(cfg: Config, cmd: Command, name: string, run: Command -> Reply)
    ensures FlaggedInstallAsWritten(cfg, cmd, name, run, Some(false)) == FlaggedInstall(cfg, cmd, name, run)
    ensures FlaggedInstall(cfg, cmd, name, run).halt.Some? ==>
      FlaggedInstallAsWritten(cfg, cmd, name, run, Some(true)) == FlaggedInstall(cfg, cmd, name, run).(halt := None) &&
      FlaggedInstallAsWritten(cfg, cmd, name, run, None) == FlaggedInstall(cfg, cmd, name, run).(halt := Some(Raised))
    ensures FlaggedInstall(cfg, cmd, name, run).halt.None? ==>
      forall before: Option<bool> ::
        FlaggedInstallAsWritten(cfg, cmd, name, run, before) == FlaggedInstall(cfg, cmd, name, run)
  {
  }

  /** One loop iteration together with the value it leaves in `installed`. */
  datatype Written = Written(step: Step, installedFlag: Option<bool>)

  function PipStepAsWritten(cfg: Config, f: Flags, name: string, run: Command -> Reply, flag: Option<bool>): Written {
    var options := PipOptions(f);
    if options == [] then Written(Step([], [], [name], None), flag)
    else
      var s := FlaggedInstallAsWritten(cfg, FlaggedCommand(cfg, options, name), name, run, flag);
      Written(s, if s.installed != [] then Some(true) else flag)
  }

  function RequirementStepAsWritten(cfg: Config, host: string, f: Flags, run: Command -> Reply,
                                    flag: Option<bool>): Written {
    match f.require
    case None => Written(Skip, flag)
    case Some(name) =>
      if f.platform != "" && !Platform.IsSupportedPlatform(Split(f.platform, ','), cfg.PlatformInUse()) then
        Written(Skip, flag)
      else if f.pythonVersion != "" && PythonVersion.IsSupportedPython(f.pythonVersion, cfg.Version()).None? then
        Written(Step([], [], [], Some(Raised)), flag)
      else if f.pythonVersion != "" && PythonVersion.IsSupportedPython(f.pythonVersion, cfg.Version()) == Some(false) then
        Written(Skip, flag)
      else if cfg.isConda then
        var n := if f.condaAlias != "" then f.condaAlias else name;
        var cmd := CondaCommand(cfg, n);
        if run(cmd).code == 0 then Written(Step([cmd], [n], [], None), Some(true))
        else
          var pip := PipStepAsWritten(cfg, f, n, run, flag);
          Written(Then(Step([cmd], [], [], None), pip.step), pip.installedFlag)
      else if cfg.IsMingw() then
        var n := if f.mingwAlias != "" then f.mingwAlias else name;
        var probe := ProbeAll(MingwCandidates(host, n), run);
        if probe.found.Some? then Written(Step(probe.commands, [probe.found.value], [], None), Some(true))
        else
          var pip := PipStepAsWritten(cfg, f, n, run, Some(false));
          Written(Then(Step(probe.commands, [], [], None), pip.step), pip.installedFlag)
      else PipStepAsWritten(cfg, f, name, run, flag)
  }

  /** The loop as written, from an unassigned `installed`, stopping at the first halt. */
  function StepsAsWritten(cfg: Config, host: string, reqs: seq<string>, run: Command -> Reply): Written
    decreases |reqs|
  {
    if reqs == [] then Written(Skip, None)
    else
      var done := StepsAsWritten(cfg, host, reqs[..|reqs| - 1], run);
      if done.step.halt.Some? then done
      else
        var w := RequirementStepAsWritten(cfg, host, Parse(reqs[|reqs| - 1]), run, done.installedFlag);
        Written(Then(done.step, w.step), w.installedFlag)
  }

  /** The value `require` holds at the end of an iteration that did not halt. */
  function RequireAfter(cfg: Config, f: Flags): Option<string> {
    match f.require
    case None => None
    case Some(name) =>
      if Skipped(cfg, f) then Some(name)
      else if cfg.isConda && f.condaAlias != "" then Some(f.condaAlias)
      else if !cfg.isConda && cfg.IsMingw() && f.mingwAlias != "" then Some(f.mingwAlias)
      else Some(name)
  }

  /** The value `require` holds once the loop is over. */
  function LastRequire(cfg: Config, reqs: seq<string>): Option<string> {
    if reqs == [] then None else RequireAfter(cfg, Parse(reqs[|reqs| - 1]))
  }

  /** The batched pip call as written: on success it records `require`, not the batch. */
  function FinishAsWritten(cfg: Config, done: Step, last: Option<string>, run: Command -> Reply): Step {
    if done.halt.Some? || done.batched == [] then done
    else
      var cmd := BatchCommand(cfg, done.batched);
      var code := run(cmd).code;
      if code == 0 then
        done.(commands := done.commands + [cmd], installed := done.installed + (if last.Some? then [last.value] else []))
      else done.(commands := done.commands + [cmd], halt := Some(Exit(code)))
  }

  /** `install_requirements` as written. */
  function InstallAsWritten(cfg: Config, reqList: StringOrList, run: Command -> Reply): Step {
    var reqs := reqList.CommaList();
    var host := if cfg.IsMingw() then HostPrefix(cfg) else Some("");
    match host
    case None => Step([], [], [], Some(Raised))
    case Some(h) => FinishAsWritten(cfg, StepsAsWritten(cfg, h, reqs, run).step, LastRequire(cfg, reqs), run)
  }

  /** With `installed` false on entry, an iteration as written is the corrected one. */
  lemma AgreesWhenInstalledFalse(cfg: Config, host: string, f: Flags, run: Command -> Reply)
    ensures RequirementStepAsWritten(cfg, host, f, run, Some(false)).step == RequirementStep(cfg, host, f, run)
  {
    var name := if cfg.isConda && f.condaAlias != "" then f.condaAlias
      else if !cfg.isConda && cfg.IsMingw() && f.mingwAlias != "" then f.mingwAlias
      else if f.require.Some? then f.require.value else "";
    if PipOptions(f) != [] {
      StaleInstalledHidesFailure(cfg, FlaggedCommand(cfg, PipOptions(f), name), name, run);
    }
  }

  /**
    Two requirements with `--no-deps` on a final interpreter, where the first
    installs and the second fails with exit code 3: as written the script goes
    on with the second requirement missing, while the corrected loop ends with
    exit code 3.
   */
  lemma StaleInstalledCounterexample(cfg: Config, a: string, b: string, run: Command -> Reply)
    requires !cfg.isConda && !cfg.IsMingw() && cfg.isFinal
    requires PlainName(a)
    requires PlainName(b)
    requires run(FlaggedCommand(cfg, ["--no-deps"], a)).code == 0
    requires run(FlaggedCommand(cfg, ["--no-deps"], b)).code == 3
    ensures StepsAsWritten(cfg, "", [a + " --no-deps", b + " --no-deps"], run).step.halt == None
    ensures StepsAsWritten(cfg, "", [a + " --no-deps", b + " --no-deps"], run).step.installed == [a]
    ensures Steps(cfg, "", [a + " --no-deps", b + " --no-deps"], run).halt == Some(Exit(3))
  {
    ParseWithNoDeps(a);
    ParseWithNoDeps(b);
    StaleInstalledAfterInstall(cfg, a + " --no-deps", b + " --no-deps", a, b, run);
  }

  /** The counterexample for any two requirements that each parse to an identifier with `--no-deps`. */
  lemma StaleInstalledAfterInstall(cfg: Config, ra: string, rb: string, a: string, b: string, run: Command -> Reply)
    requires !cfg.isConda && !cfg.IsMingw() && cfg.isFinal
    requires Parse(ra) == Unset.(noDeps := true, require := Some(a))
    requires Parse(rb) == Unset.(noDeps := true, require := Some(b))
    requires run(FlaggedCommand(cfg, ["--no-deps"], a)).code == 0
    requires run(FlaggedCommand(cfg, ["--no-deps"], b)).code == 3
    ensures StepsAsWritten(cfg, "", [ra, rb], run).step.halt == None
    ensures StepsAsWritten(cfg, "", [ra, rb], run).step.installed == [a]
    ensures Steps(cfg, "", [ra, rb], run).halt == Some(Exit(3))
  {
    var reqs := [ra, rb];
    var first := Step([FlaggedCommand(cfg, ["--no-deps"], a)], [a], [], None);
    assert reqs[..1] == [ra];
    FirstInstalls(cfg, ra, a, run);
    NoDepsStep(cfg, b, run, Some(true));
  }

  /** The first requirement installs with its own pip call and leaves `installed` true. */
  lemma FirstInstalls(cfg: Config, ra: string, a: string, run: Command -> Reply)
    requires !cfg.isConda && !cfg.IsMingw()
    requires Parse(ra) == Unset.(noDeps := true, require := Some(a))
    requires run(FlaggedCommand(cfg, ["--no-deps"], a)).code == 0
    ensures var first := Step([FlaggedCommand(cfg, ["--no-deps"], a)], [a], [], None);
      Steps(cfg, "", [ra], run) == first && StepsAsWritten(cfg, "", [ra], run) == Written(first, Some(true))
  {
    var first := Step([FlaggedCommand(cfg, ["--no-deps"], a)], [a], [], None);
    assert [ra][..0] == [];
    NoDepsStep(cfg, a, run, None);
    ThenSkip(first);
  }

  /** Outside conda and MinGW, an identifier with `--no-deps` gets a flagged pip call of its own. */
  lemma NoDepsStep(cfg: Config, name: string, run: Command -> Reply, flag: Option<bool>)
    requires !cfg.isConda && !cfg.IsMingw()
    ensures var f := Unset.(noDeps := true, require := Some(name));
      var cmd := FlaggedCommand(cfg, ["--no-deps"], name);
      var s := FlaggedInstallAsWritten(cfg, cmd, name, run, flag);
      RequirementStep(cfg, "", f, run) == FlaggedInstall(cfg, cmd, name, run) &&
      RequirementStepAsWritten(cfg, "", f, run, flag) == Written(s, if s.installed != [] then Some(true) else flag)
  {
    assert PipOptions(Unset.(noDeps := true, require := Some(name))) == ["--no-deps"];
  }

  lemma ThenSkip(s: Step)
    ensures Then(Skip, s) == s
  {
    assert [] + s.commands == s.commands;
    assert [] + s.installed == s.installed;
    assert [] + s.batched == s.batched;
  }

  /**
    Two plain identifiers batched into one successful pip call: the corrected
    model records both names, the script as written only the second.
   */
  lemma BatchRecordsLastRequire(cfg: Config, a: string, b: string, run: Command -> Reply)
    requires !cfg.isConda && !cfg.IsMingw()
    requires PlainName(a)
    requires PlainName(b)
    requires run(BatchCommand(cfg, [a, b])).code == 0
    ensures Install(cfg, StringList([a, b]), run).installed == [a, b]
    ensures InstallAsWritten(cfg, StringList([a, b]), run).installed == [b]
  {
    var reqs := [a, b];
    assert forall i :: 0 <= i < |reqs| ==> PlainName(reqs[i]);
    InstallProperties.PlainNamesBatched(cfg, reqs, run);
    PlainNamesBatchedAsWritten(cfg, reqs, run);
    assert LastRequire(cfg, reqs) == Some(b) by {
      ParseBare(b);
    }
  }

  /** As written too, a list of plain names issues no command in the loop and batches them all. */
  lemma {:induction false} PlainNamesBatchedAsWritten(cfg: Config, names: seq<string>, run: Command -> Reply)
    requires !cfg.isConda && !cfg.IsMingw()
    requires forall i :: 0 <= i < |names| ==> PlainName(names[i])
    ensures StepsAsWritten(cfg, "", names, run) == Written(Step([], [], names, None), None)
    decreases |names|
  {
    if names != [] {
      var init := names[..|names| - 1];
      var last := names[|names| - 1];
      PlainNamesBatchedAsWritten(cfg, init, run);
      ParseBare(last);
      BareIsBatched(cfg, last, run);
      assert StepsAsWritten(cfg, "", names, run) ==
        Written(Then(Step([], [], init, None), Step([], [], [last], None)), None);
      InstallProperties.DropLast(names);
    }
  }

  /** Outside conda and MinGW, a plain identifier only joins the batch. */
  lemma BareIsBatched(cfg: Config, name: string, run: Command -> Reply)
    requires !cfg.isConda && !cfg.IsMingw()
    ensures RequirementStep(cfg, "", Unset.(require := Some(name)), run) == Step([], [], [name], None)
    ensures forall flag: Option<bool> ::
      RequirementStepAsWritten(cfg, "", Unset.(require := Some(name)), run, flag) == Written(Step([], [], [name], None), flag)
  {
    assert PipOptions(Unset.(require := Some(name))) == [];
  }
}
