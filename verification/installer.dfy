/**
  `install_requirements`: for each requirement string, in order, parse it,
  skip it when its platform or Python-version condition fails, then try
  conda (inside a conda environment) or the MSYS2 package manager (under
  MinGW), and fall back to pip. A requirement with pip flags gets a pip call
  of its own; the identifiers of the others are collected and installed by
  one pip call at the end. A failing pip call ends the script with its exit
  code. Subprocesses are a function from the argument list to an exit code
  and captured output.
 */
module Installer {
  import opened Wrappers
  import opened Text
  import Platform
  import PythonVersion
  import opened Requirement

  /** What the script reads from its environment at start-up. */
  datatype Config = Config(
    platform: string,     // sysconfig.get_platform(), e.g. "mingw_x86_64_ucrt"
    sysPlatform: string,  // sys.platform
    hostGnuType: string,  // the HOST_GNU_TYPE build variable, e.g. "x86_64-w64-mingw32"
    executable: string,   // sys.executable
    prefix: string,       // sys.prefix
    major: nat,           // sys.version_info[:3]
    minor: nat,
    micro: nat,
    isFinal: bool,        // the interpreter's release level is "final"
    isPipenv: bool,       // the sample directory holds a Pipfile
    isConda: bool,        // sys.prefix holds a conda-meta directory
    condaExe: string,     // $CONDA_EXE, "conda" when unset
    pipUpgrade: bool)     // $PIP_UPGRADE is set and not empty
  {
    predicate IsMingw() { StartsWith(platform, "mingw") }
    predicate IsLinux() { StartsWith(platform, "linux") }
    predicate IsMacos() { StartsWith(platform, "macos") }
    predicate IsWindows() { sysPlatform == "win32" && !IsMingw() }

    /** The platform name that platform tags are matched against. */
    function PlatformInUse(): string { if IsMingw() then "mingw" else sysPlatform }

    function Version(): seq<nat> { [major, minor, micro] }
  }

  type Command = seq<string>

  /** What a subprocess returns: its exit code and, when captured, its standard output. */
  datatype Reply = Reply(code: int, stdout: string)

  /** How the script ends early: `sys.exit(code)`, or an uncaught exception. */
  datatype Halt = Exit(code: int) | Raised

  function PipBase(cfg: Config): Command {
    [cfg.executable, "-m", "pip", "install"]
  }

  function CondaCommand(cfg: Config, name: string): Command {
    [cfg.condaExe, "install", "-p", cfg.prefix, "-c", "conda-forge", "-y", name]
  }

  function QueryCommand(pkg: string): Command {
    ["pacman", "--noconfirm", "-Ss", pkg]
  }

  function PacmanCommand(pkg: string): Command {
    ["pacman", "--noconfirm", "-S", pkg]
  }

  function Upgrade(cfg: Config): seq<string> {
    if cfg.pipUpgrade then ["--upgrade"] else []
  }

  /** The pip options a requirement's flags ask for, in the order the script adds them. */
  function PipOptions(f: Flags): (options: seq<string>)
    ensures options == [] <==> f.findLinks == "" && !f.noDeps && !f.preferBinary
  {
    (if f.findLinks != "" then ["--find-links", f.findLinks] else [])
    + (if f.noDeps then ["--no-deps"] else [])
    + (if f.preferBinary then ["--prefer-binary"] else [])
  }

  /** The pip call for one flagged requirement: options, `--upgrade`, then the identifier. */
  function FlaggedCommand(cfg: Config, options: seq<string>, name: string): Command {
    var args := options + Upgrade(cfg) + [name];
    if cfg.isPipenv then ["pipenv", "run", "pip", "install"] + args else PipBase(cfg) + args
  }

  /** The one pip call that installs every collected identifier. */
  function BatchCommand(cfg: Config, names: seq<string>): Command {
    (if cfg.isPipenv then ["pipenv", "install"] + names else PipBase(cfg) + names) + Upgrade(cfg)
  }

  /**
    The MSYS2 package prefix `mingw-w64-[variant-]arch`, or None where
    HOST_GNU_TYPE has no `-` and the script raises IndexError.
   */
  function HostPrefix(cfg: Config): (r: Option<string>)
    ensures r.None? <==> '-' !in cfg.hostGnuType
  {
    var parts := Split(cfg.hostGnuType, '-');
    if |parts| < 2 then None
    else
      var hostType := parts[0];
      var basic := "mingw_" + hostType;
      var variant := if |cfg.platform| > |basic| then cfg.platform[|basic| + 1..] + "-" else "";
      Some("mingw-" + parts[1] + "-" + variant + hostType)
  }

  /** The package name MSYS2 is asked for: the requirement cut at `;`, then `<`, then `=`. */
  function BaseName(require: string): string {
    CutAt(CutAt(CutAt(require, ';'), '<'), '=')
  }

  /** The base name is the requirement up to its first `;`, `<` or `=`. */
  lemma BaseNameIsCut(require: string)
    ensures var b := BaseName(require);
      StartsWith(require, b) && ';' !in b && '<' !in b && '=' !in b &&
      (|b| < |require| ==> require[|b|] in {';', '<', '='})
  {
    var x := CutAt(require, ';');
    var y := CutAt(x, '<');
    var b := CutAt(y, '=');
    assert forall i :: 0 <= i < |y| ==> y[i] == x[i];
    assert forall i :: 0 <= i < |b| ==> b[i] == y[i];
    if |b| < |require| {
      if |b| < |y| {
        assert require[|b|] == y[|b|];
      } else if |y| < |x| {
        assert require[|b|] == x[|y|];
      }
    }
  }

  function MingwNames(pkg: string): seq<string> {
    ["python-" + pkg, pkg] + (if pkg != Lower(pkg) then ["python-" + Lower(pkg), Lower(pkg)] else [])
  }

  /** The MSYS2 package names tried for a requirement, in order. */
  function MingwCandidates(host: string, require: string): seq<string> {
    var names := MingwNames(BaseName(require));
    seq(|names|, i requires 0 <= i < |names| => host + "-" + names[i])
  }

  /**
    The names tried are `python-<pkg>` and `<pkg>`, followed by the same two
    in lower case exactly when the base name has an upper-case letter.
   */
  lemma MingwNamesShape(pkg: string)
    ensures var n := MingwNames(pkg);
      (|n| == 2 || |n| == 4) &&
      (|n| == 4 <==> exists i :: 0 <= i < |pkg| && IsUpper(pkg[i])) &&
      n[0] == "python-" + pkg && n[1] == pkg &&
      (|n| == 4 ==> n[2] == "python-" + Lower(pkg) && n[3] == Lower(pkg))
  {
    LowerChangesIffUpper(pkg);
  }

  /** Each candidate is a name of `MingwNames` behind the host prefix and a `-`, in the same order. */
  lemma MingwCandidatesShape(host: string, require: string)
    ensures var pkg := BaseName(require); var c := MingwCandidates(host, require);
      (|c| == 2 || |c| == 4) &&
      (|c| == 4 <==> exists i :: 0 <= i < |pkg| && IsUpper(pkg[i])) &&
      c[0] == host + "-" + ("python-" + pkg) && c[1] == host + "-" + pkg &&
      (|c| == 4 ==> c[2] == host + "-" + ("python-" + Lower(pkg)) && c[3] == host + "-" + Lower(pkg))
  {
    MingwNamesShape(BaseName(require));
  }

  /** Whether probing `pkg` ends the search: pacman finds it installed, or installs it. */
  predicate Accepts(pkg: string, run: Command -> Reply) {
    var q := run(QueryCommand(pkg));
    q.code != 1 && ((q.code == 0 && Contains(q.stdout, "installed")) || run(PacmanCommand(pkg)).code == 0)
  }

  /** The commands a probe issues and the candidate it settles on, if any. */
  datatype Probe = Probe(commands: seq<Command>, found: Option<string>)

  function ProbeAll(cands: seq<string>, run: Command -> Reply): Probe
    decreases |cands|
  {
    if cands == [] then Probe([], None)
    else
      var pkg := cands[0];
      var q := run(QueryCommand(pkg));
      if q.code == 1 then
        var rest := ProbeAll(cands[1..], run);
        Probe([QueryCommand(pkg)] + rest.commands, rest.found)
      else if q.code == 0 && Contains(q.stdout, "installed") then
        Probe([QueryCommand(pkg)], Some(pkg))
      else if run(PacmanCommand(pkg)).code == 0 then
        Probe([QueryCommand(pkg), PacmanCommand(pkg)], Some(pkg))
      else
        var rest := ProbeAll(cands[1..], run);
        Probe([QueryCommand(pkg), PacmanCommand(pkg)] + rest.commands, rest.found)
  }

  /**
    The probe settles on the first candidate that is already installed or
    installs successfully, and on none when no candidate does.
   */
  lemma {:induction false} ProbeFindsFirstAccepted(cands: seq<string>, run: Command -> Reply)
    ensures ProbeAll(cands, run).found.None? <==> forall i :: 0 <= i < |cands| ==> !Accepts(cands[i], run)
    ensures ProbeAll(cands, run).found.Some? ==>
      exists k :: 0 <= k < |cands| && ProbeAll(cands, run).found == Some(cands[k]) &&
        Accepts(cands[k], run) && forall j :: 0 <= j < k ==> !Accepts(cands[j], run)
    decreases |cands|
  {
    if cands != [] {
      ProbeFindsFirstAccepted(cands[1..], run);
      if !Accepts(cands[0], run) {
        var rest := ProbeAll(cands[1..], run);
        if rest.found.Some? {
          var k :| 0 <= k < |cands[1..]| && rest.found == Some(cands[1..][k]) &&
            Accepts(cands[1..][k], run) && forall j :: 0 <= j < k ==> !Accepts(cands[1..][j], run);
          assert forall j :: 0 < j < k + 1 ==> cands[j] == cands[1..][j - 1];
        }
        assert forall i :: 0 < i < |cands| ==> cands[i] == cands[1..][i - 1];
      }
    }
  }

  lemma Associative<T>(a: seq<T>, b: seq<T>, c: seq<T>)
    ensures a + b + c == a + (b + c)
  {
  }

  /** The MinGW candidate loop; it stops at the first candidate found or installed. */
  method ProbeMingw(cands: seq<string>, run: Command -> Reply) returns (commands: seq<Command>, found: Option<string>)
    ensures Probe(commands, found) == ProbeAll(cands, run)
  {
    commands, found := [], None;
    var i := 0;
    while i < |cands|
      invariant 0 <= i <= |cands|
      invariant found.None?
      invariant ProbeAll(cands, run) ==
        Probe(commands + ProbeAll(cands[i..], run).commands, ProbeAll(cands[i..], run).found)
    {
      var pkg := cands[i];
      ghost var before := commands;
      ghost var here := ProbeAll(cands[i..], run);
      ghost var rest := ProbeAll(cands[i + 1..], run);
      assert cands[i..][0] == pkg && cands[i..][1..] == cands[i + 1..];
      var query := QueryCommand(pkg);
      var reply := run(query);
      if reply.code == 1 {
        // no package of that name
        commands := commands + [query];
        assert here == Probe([query] + rest.commands, rest.found);
        Associative(before, [query], rest.commands);
      } else if reply.code == 0 && Contains(reply.stdout, "installed") {
        commands, found := commands + [query], Some(pkg);
        assert here == Probe([query], Some(pkg));
        return;
      } else {
        var install := PacmanCommand(pkg);
        commands := commands + [query, install];
        if run(install).code == 0 {
          found := Some(pkg);
          assert here == Probe([query, install], Some(pkg));
          return;
        }
        assert here == Probe([query, install] + rest.commands, rest.found);
        Associative(before, [query, install], rest.commands);
      }
      i := i + 1;
    }
  }

  /** What one requirement contributes: commands, installed names, names left for the batch. */
  datatype Step = Step(commands: seq<Command>, installed: seq<string>, batched: seq<string>, halt: Option<Halt>)

  const Skip := Step([], [], [], None)

  /** Runs `s`, then `t` (which `s` did not halt). */
  function Then(s: Step, t: Step): Step {
    Step(s.commands + t.commands, s.installed + t.installed, s.batched + t.batched, t.halt)
  }

  /**
    A flagged pip call: installed on success; otherwise, on a pre-release
    interpreter, retried once with `--pre`; a call that still fails ends the
    script with its exit code. This is the call with the script's `installed`
    flag false on entry (see `InstallerAsWritten.FlaggedInstallAsWritten`).
   */
  function FlaggedInstall(cfg: Config, cmd: Command, name: string, run: Command -> Reply): Step {
    var first := run(cmd).code;
    if first == 0 then Step([cmd], [name], [], None)
    else if cfg.isFinal then Step([cmd], [], [], Some(Exit(first)))
    else
      var retry := cmd + ["--pre"];
      var second := run(retry).code;
      if second == 0 then Step([cmd, retry], [name], [], None)
      else Step([cmd, retry], [], [], Some(Exit(second)))
  }

  /**
    A flagged pip call installs its requirement or ends the script with the
    exit code of its last attempt, and it retries with `--pre` exactly when the
    first attempt fails on a pre-release interpreter.
   */
  lemma FlaggedFailureIsFatal(cfg: Config, cmd: Command, name: string, run: Command -> Reply)
    ensures var s := FlaggedInstall(cfg, cmd, name, run);
      (s.halt.None? <==> run(cmd).code == 0 || (!cfg.isFinal && run(cmd + ["--pre"]).code == 0)) &&
      (s.halt.None? ==> s.installed == [name]) &&
      (s.halt.Some? ==> s.installed == [] && s.halt == Some(Exit(run(s.commands[|s.commands| - 1]).code)) &&
                        run(s.commands[|s.commands| - 1]).code != 0) &&
      s.batched == [] &&
      s.commands[0] == cmd && (|s.commands| == 1 || |s.commands| == 2) &&
      (|s.commands| == 2 <==> !cfg.isFinal && run(cmd).code != 0) &&
      (|s.commands| == 2 ==> s.commands[1] == cmd + ["--pre"])
  {
  }

  /** The pip stage: a flagged requirement gets its own call, a bare one joins the batch. */
  function PipStep(cfg: Config, f: Flags, name: string, run: Command -> Reply): Step {
    var options := PipOptions(f);
    if options == [] then Step([], [], [name], None)
    else FlaggedInstall(cfg, FlaggedCommand(cfg, options, name), name, run)
  }

  /** A requirement is skipped without any command when it has no identifier or its condition fails. */
  predicate Skipped(cfg: Config, f: Flags) {
    || f.require.None?
    || (f.platform != "" && !Platform.IsSupportedPlatform(Split(f.platform, ','), cfg.PlatformInUse()))
    || (f.pythonVersion != "" && PythonVersion.IsSupportedPython(f.pythonVersion, cfg.Version()) == Some(false))
  }

  /** One iteration of the requirement loop. */
  function RequirementStep(cfg: Config, host: string, f: Flags, run: Command -> Reply): Step {
    match f.require
    case None => Skip
    case Some(name) =>
      if f.platform != "" && !Platform.IsSupportedPlatform(Split(f.platform, ','), cfg.PlatformInUse()) then Skip
      else if f.pythonVersion != "" && PythonVersion.IsSupportedPython(f.pythonVersion, cfg.Version()).None? then
        Step([], [], [], Some(Raised))
      else if f.pythonVersion != "" && PythonVersion.IsSupportedPython(f.pythonVersion, cfg.Version()) == Some(false) then
        Skip
      else if cfg.isConda then CondaStep(cfg, f, name, run)
      else if cfg.IsMingw() then MingwStep(cfg, host, f, name, run)
      else PipStep(cfg, f, name, run)
  }

  /** Inside conda: `conda install` of the identifier (or its conda alias), then pip if that fails. */
  function CondaStep(cfg: Config, f: Flags, name: string, run: Command -> Reply): Step {
    var n := if f.condaAlias != "" then f.condaAlias else name;
    var cmd := CondaCommand(cfg, n);
    if run(cmd).code == 0 then Step([cmd], [n], [], None)
    else Then(Step([cmd], [], [], None), PipStep(cfg, f, n, run))
  }

  /** Under MinGW: probe the MSYS2 candidates for the identifier (or its MinGW alias), then pip. */
  function MingwStep(cfg: Config, host: string, f: Flags, name: string, run: Command -> Reply): Step {
    var n := if f.mingwAlias != "" then f.mingwAlias else name;
    var probe := ProbeAll(MingwCandidates(host, n), run);
    if probe.found.Some? then Step(probe.commands, [probe.found.value], [], None)
    else Then(Step(probe.commands, [], [], None), PipStep(cfg, f, n, run))
  }

  /** The requirement loop over `reqs`, stopping at the first halt. */
  function Steps(cfg: Config, host: string, reqs: seq<string>, run: Command -> Reply): Step
    decreases |reqs|
  {
    if reqs == [] then Skip
    else
      var done := Steps(cfg, host, reqs[..|reqs| - 1], run);
      if done.halt.Some? then done
      else Then(done, RequirementStep(cfg, host, Parse(reqs[|reqs| - 1]), run))
  }

  /** After the loop: one pip call for the batch; a failure ends the script. */
  function Finish(cfg: Config, done: Step, run: Command -> Reply): Step {
    if done.halt.Some? || done.batched == [] then done
    else
      var cmd := BatchCommand(cfg, done.batched);
      var code := run(cmd).code;
      if code == 0 then done.(commands := done.commands + [cmd], installed := done.installed + done.batched)
      else done.(commands := done.commands + [cmd], halt := Some(Exit(code)))
  }

  /**
    `install_requirements(requires)`: a string is first split at commas; the
    result is the commands issued, the names installed, and how the script ends.
   */
  function Install(cfg: Config, reqList: StringOrList, run: Command -> Reply): Step {
    var reqs := reqList.CommaList();
    if !cfg.IsMingw() then Finish(cfg, Steps(cfg, "", reqs, run), run)
    else
      match HostPrefix(cfg)
      case None => Step([], [], [], Some(Raised))
      case Some(host) => Finish(cfg, Steps(cfg, host, reqs, run), run)
  }

  /** One iteration of the loop of `install_requirements`. */
  method InstallRequirement(cfg: Config, host: string, req: string, run: Command -> Reply) returns (step: Step)
    ensures step == RequirementStep(cfg, host, Parse(req), run)
  {
    var f := ParseRequirement(req);
    if f.require.None? {
      return Skip;
    }
    var name := f.require.value;
    if f.platform != "" && !Platform.IsSupportedPlatform(Split(f.platform, ','), cfg.PlatformInUse()) {
      return Skip;
    }
    if f.pythonVersion != "" {
      var supported := PythonVersion.IsSupportedPython(f.pythonVersion, cfg.Version());
      if supported.None? {
        return Step([], [], [], Some(Raised));
      }
      if !supported.value {
        return Skip;
      }
    }
    if cfg.isConda {
      step := UseConda(cfg, f, name, run);
    } else if cfg.IsMingw() {
      step := UseMingw(cfg, host, f, name, run);
    } else {
      step := UsePip(cfg, f, name, run);
    }
  }

  /** The conda branch of one iteration. */
  method UseConda(cfg: Config, f: Flags, name: string, run: Command -> Reply) returns (step: Step)
    ensures step == CondaStep(cfg, f, name, run)
  {
    var require := name;
    if f.condaAlias != "" {
      require := f.condaAlias;
    }
    var cmd := CondaCommand(cfg, require);
    if run(cmd).code == 0 {
      return Step([cmd], [require], [], None);
    }
    var pip := UsePip(cfg, f, require, run);
    step := Then(Step([cmd], [], [], None), pip);
  }

  /** The MinGW branch of one iteration. */
  method UseMingw(cfg: Config, host: string, f: Flags, name: string, run: Command -> Reply) returns (step: Step)
    ensures step == MingwStep(cfg, host, f, name, run)
  {
    var require := name;
    if f.mingwAlias != "" {
      require := f.mingwAlias;
    }
    var probed, found := ProbeMingw(MingwCandidates(host, require), run);
    if found.Some? {
      return Step(probed, [found.value], [], None);
    }
    var pip := UsePip(cfg, f, require, run);
    step := Then(Step(probed, [], [], None), pip);
  }

  /** The pip stage of one iteration, building the argument list as the script does. */
  method UsePip(cfg: Config, f: Flags, name: string, run: Command -> Reply) returns (step: Step)
    ensures step == PipStep(cfg, f, name, run)
  {
    var args: seq<string> := [];
    if f.findLinks != "" {
      args := args + ["--find-links", f.findLinks];
    }
    if f.noDeps {
      args := args + ["--no-deps"];
    }
    if f.preferBinary {
      args := args + ["--prefer-binary"];
    }
    assert args == PipOptions(f);
    if args == [] {
      return Step([], [], [name], None);
    }
    if cfg.pipUpgrade {
      args := args + ["--upgrade"];
    }
    args := args + [name];
    if cfg.isPipenv {
      args := ["pipenv", "run", "pip", "install"] + args;
    } else {
      args := PipBase(cfg) + args;
    }
    assert args == FlaggedCommand(cfg, PipOptions(f), name);
    var issued := [args];
    var code := run(args).code;
    var installed := false;
    if code == 0 {
      installed := true;
    } else if !cfg.isFinal {
      args := args + ["--pre"];
      issued := issued + [args];
      code := run(args).code;
      if code == 0 {
        installed := true;
      }
    }
    if installed {
      return Step(issued, [name], [], None);
    }
    return Step(issued, [], [], Some(Exit(code)));
  }

  /** Once a prefix of the requirements halts the loop, the rest change nothing. */
  lemma {:induction false} StepsStopAtHalt(cfg: Config, host: string, reqs: seq<string>, k: nat, run: Command -> Reply)
    requires k <= |reqs|
    requires Steps(cfg, host, reqs[..k], run).halt.Some?
    ensures Steps(cfg, host, reqs, run) == Steps(cfg, host, reqs[..k], run)
    decreases |reqs|
  {
    if k < |reqs| {
      var init := reqs[..|reqs| - 1];
      assert init[..k] == reqs[..k];
      StepsStopAtHalt(cfg, host, init, k, run);
    } else {
      assert reqs[..k] == reqs;
    }
  }

  /** The loop of `install_requirements`, which stops at the first requirement that halts. */
  method InstallEach(cfg: Config, host: string, reqs: seq<string>, run: Command -> Reply) returns (done: Step)
    ensures done == Steps(cfg, host, reqs, run)
  {
    done := Skip;
    var i := 0;
    while i < |reqs| && done.halt.None?
      invariant 0 <= i <= |reqs|
      invariant done == Steps(cfg, host, reqs[..i], run)
    {
      var step := InstallRequirement(cfg, host, reqs[i], run);
      assert reqs[..i + 1][..i] == reqs[..i];
      done := Then(done, step);
      i := i + 1;
    }
    if i < |reqs| {
      StepsStopAtHalt(cfg, host, reqs, i, run);
    } else {
      assert reqs[..i] == reqs;
    }
  }

  /** The batched pip call that closes `install_requirements`. */
  method InstallBatch(cfg: Config, done: Step, run: Command -> Reply) returns (result: Step)
    ensures result == Finish(cfg, done, run)
  {
    result := done;
    if done.halt.None? && done.batched != [] {
      var args := if cfg.isPipenv then ["pipenv", "install"] + done.batched else PipBase(cfg) + done.batched;
      if cfg.pipUpgrade {
        args := args + ["--upgrade"];
      }
      assert args == BatchCommand(cfg, done.batched);
      result := result.(commands := result.commands + [args]);
      var code := run(args).code;
      if code == 0 {
        result := result.(installed := result.installed + done.batched);
      } else {
        result := result.(halt := Some(Exit(code)));
      }
    }
  }

  /** `install_requirements`: the loop over the requirements, then the batched pip call. */
  method InstallRequirements(cfg: Config, reqList: StringOrList, run: Command -> Reply)
    returns (commands: seq<Command>, installed: seq<string>, halt: Option<Halt>)
    ensures commands == Install(cfg, reqList, run).commands
    ensures installed == Install(cfg, reqList, run).installed
    ensures halt == Install(cfg, reqList, run).halt
  {
    var reqs := match reqList
      case OneString(s) => Split(s, ',')
      case StringList(items) => items;
    assert reqs == reqList.CommaList();
    var host := "";
    if cfg.IsMingw() {
      var prefix := HostPrefix(cfg);
      if prefix.None? {
        return [], [], Some(Raised);
      }
      host := prefix.value;
    }
    var done := InstallEach(cfg, host, reqs, run);
    var result := InstallBatch(cfg, done, run);
    commands, installed, halt := result.commands, result.installed, result.halt;
  }
}
