/**
 * An end-to-end example: a configuration with one command,
 * `deploy`, whose single widget picks from the output of
 * `printf 'x\ny\n'`, preselected with `--command deploy`, with the skim
 * picker answering `y`, runs `echo y`.
 */
module WorkedExample {
  import opened Wrappers
  import opened Strings
  import opened Actions
  import opened Shell
  import opened Template
  import opened Pickers
  import opened Engine
  import opened DispatchFacts
  import StrReplace
  import SkimOptions
  import Utf8

  const CaptureCommand := "printf 'x\\ny\\n'"
  const Deploy := Command(None, "echo {0}", Some([FromCommand(CaptureCommand, None)]))
  const DeployConfig := Config([("deploy", Deploy)], None, None)

  /** The live engine with `--command deploy`, the skim library as picker,
      no `SKIM_DEFAULT_OPTIONS`, a capture that prints `x` and `y` and a
      picker that always answers `y`.  Line reads and the final launch are
      left open. */
  function DeployEnv(cacheDirectory: string, shellVariable: Option<string>,
                     readLine: nat -> ReadLine, launch: (nat, Process) -> LaunchRun): Env
  {
    Env(Live, cacheDirectory, DeployConfig, Handler(Some("deploy"), false, false), shellVariable, [], None,
      World(readLine,
        (i: nat, p: Process) => CaptureOutput(Utf8.Encode("x\ny\n")),
        (i: nat, argv: seq<string>, text: string) => Finished(false, []),
        (i: nat, o: SkimOptions.Options, input: PickerInput) => Some(SkimOutput(false, ["y"])),
        launch))
  }

  lemma EchoY()
    ensures SubstituteFirst("echo {0}", ["y"], 1) == "echo y"
  {
    assert Placeholder(0) == "{0}";
    StrReplace.AbsentChar("", "{0}", 0);
    assert "echo {0}" == "echo " + "{0}" + "";
    ReplacePrefixFree("echo ", "{0}", "y", "");
    assert "echo " + "y" + "" == "echo y";
  }

  /** Step one: the widget's command runs once and its output is text. */
  lemma DeployCapture(env: Env)
    requires env == DeployEnv(env.cacheDirectory, env.shellVariable, env.world.readLine, env.world.launch)
    ensures CaptureStep(env, CaptureCommand, State(1, [])) ==
      (Continue(Text("x\ny\n")),
       State(1, [OutputCaptured(ShellProcess(ShellOf(env), CaptureCommand, env.cacheDirectory),
                                CaptureOutput(Utf8.Encode("x\ny\n")))]))
  {
    var capture := ShellProcess(ShellOf(env), CaptureCommand, env.cacheDirectory);
    assert env.world.capture(0, capture) == CaptureOutput(Utf8.Encode("x\ny\n"));
    Utf8.DecodeEncode("x\ny\n");
    assert env.variant == Live;
    var s1 := State(1, []);
    assert CaptureStep(env, CaptureCommand, s1).1 == s1.(log := [OutputCaptured(capture, CaptureOutput(Utf8.Encode("x\ny\n")))]);
    assert CaptureStep(env, CaptureCommand, s1).0 == Continue(Text("x\ny\n"));
  }

  /** Step two: the skim library, with default options, answers `y`. */
  lemma DeployPick(env: Env, s: State)
    requires env == DeployEnv(env.cacheDirectory, env.shellVariable, env.world.readLine, env.world.launch)
    ensures PickStep(env, Text("x\ny\n"), None, s) ==
      (Picked(Some("y")),
       s.(log := s.log + [SkimPicked(SkimOptions.Build([], None).value, Text("x\ny\n"), Some(SkimOutput(false, ["y"])))]))
  {
    SkimOptions.BuildDefaults(None);
  }

  /** The widget captures once and then picks `y`. */
  lemma {:induction false} DeployGather(env: Env)
    requires env == DeployEnv(env.cacheDirectory, env.shellVariable, env.world.readLine, env.world.launch)
    ensures var (g, s) := Gather(env, FromCommand(CaptureCommand, None), [], State(1, []));
      g == Got("y") && s.numRuns == 1 && |s.log| == 2 && s.log[0].OutputCaptured? && s.log[1].SkimPicked?
  {
    var s1 := State(1, []);
    assert SubstituteFirst(CaptureCommand, [], 0) == CaptureCommand;
    DeployCapture(env);
    var s2 := CaptureStep(env, CaptureCommand, s1).1;
    DeployPick(env, s2);
  }

  /** The widget loop collects the one argument `y`. */
  lemma {:induction false} DeployCollect(env: Env)
    requires env == DeployEnv(env.cacheDirectory, env.shellVariable, env.world.readLine, env.world.launch)
    ensures var (c, s) := Collect(env, Deploy.widgets.value, [], State(1, []));
      c == Collected(["y"]) && s.numRuns == 1 && |s.log| == 2 && s.log[0].OutputCaptured? && s.log[1].SkimPicked?
  {
    var widgets := Deploy.widgets.value;
    assert widgets == [FromCommand(CaptureCommand, None)];
    DeployGather(env);
    var (g, s3) := Gather(env, widgets[0], [], State(1, []));
    assert [] + [g.arg] == ["y"];
    assert Collect(env, widgets, [], State(1, [])) == Collect(env, widgets, ["y"], s3);
    assert Collect(env, widgets, ["y"], s3) == (Collected(["y"]), s3);
  }

  /** The run descends into `deploy` without asking, captures once, picks
      once, and launches `echo y` through the chosen shell as its third and
      last event. */
  lemma {:induction false} DeployRunsEchoY(cacheDirectory: string, shellVariable: Option<string>,
                                           readLine: nat -> ReadLine, launch: (nat, Process) -> LaunchRun)
    ensures var env := DeployEnv(cacheDirectory, shellVariable, readLine, launch);
      var process := ShellProcess(ShellOf(env), "echo y", cacheDirectory);
      var (outcome, s) := Run(env, IntoAction(DeployConfig), State(0, []));
      && s.numRuns == 1
      && |s.log| == 3
      && s.log[0].OutputCaptured? && s.log[1].SkimPicked?
      && s.log[2] == Launched(process, launch(2, process))
      && (launch(2, process).LaunchExited? ==> outcome == Done)
  {
    var env := DeployEnv(cacheDirectory, shellVariable, readLine, launch);
    PreselectedKeyDescends(env, None, DeployConfig.options, State(0, []), 0);
    var s1 := State(1, []);
    assert Run(env, IntoAction(DeployConfig), State(0, [])) == RunCommand(env, "echo {0}", Deploy.widgets.value, s1);
    DeployCollect(env);
    var s3 := Collect(env, Deploy.widgets.value, [], s1).1;
    EchoY();
    assert RunCommand(env, "echo {0}", Deploy.widgets.value, s1) == LaunchStep(env, "echo y", s3);
  }
}
