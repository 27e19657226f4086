/**
 * What `Action::run` guarantees, proved about the `Engine` functions (and
 * so, through `Runner.Session`'s contracts, about the imperative walk).
 */
module EngineFacts {
  import opened Wrappers
  import opened Strings
  import opened Actions
  import opened Shell
  import opened Template
  import opened Menu
  import opened TextLines
  import opened Pickers
  import opened SkimChannel
  import opened Engine
  import SkimOptions
  import Utf8

  /** The log of `after` continues the log of `before`. */
  predicate Extends(before: State, after: State) {
    |before.log| <= |after.log| && after.log[..|before.log|] == before.log
  }

  function NewEvents(before: State, after: State): seq<Event>
    requires Extends(before, after)
  {
    after.log[|before.log|..]
  }

  predicate LaunchFree(events: seq<Event>) {
    forall k :: 0 <= k < |events| ==> !events[k].Launched?
  }

  predicate ReportFree(events: seq<Event>) {
    forall k :: 0 <= k < |events| ==> !events[k].Reported?
  }

  /** Only reads, captures and picks happened, and the counter is unchanged. */
  predicate Quiet(before: State, after: State) {
    Extends(before, after) && after.numRuns == before.numRuns
    && LaunchFree(NewEvents(before, after)) && ReportFree(NewEvents(before, after))
  }

  /** At most one launch or report, and only as the very last event: a
      launch ends the run with its own outcome (`Done`, or `Failed` when the
      shell cannot be spawned), a report ends it with exit status 1. */
  predicate EndsCleanly(events: seq<Event>, outcome: Outcome) {
    var body := if |events| == 0 then [] else events[..|events| - 1];
    && LaunchFree(body) && ReportFree(body)
    && (|events| > 0 && events[|events| - 1].Launched? ==> outcome.Done? || outcome.Failed?)
    && (|events| > 0 && events[|events| - 1].Reported? ==> outcome == Exited(1))
  }

  /** The guarantees of a whole walk started in state `s` that ended with
      outcome `r.0` in state `r.1`: the log only grows; the descent counter
      never goes down and only the live engine moves it; at most one command
      is launched or one error reported, as the last event; and no report is
      made once the preselection gate is closed. */
  predicate WalkFacts(env: Env, s: State, r: (Outcome, State)) {
    && Extends(s, r.1)
    && s.numRuns <= r.1.numRuns
    && (env.variant != Live ==> r.1.numRuns == s.numRuns)
    && EndsCleanly(NewEvents(s, r.1), r.0)
    && (!PreselectionOpen(env, s) ==> ReportFree(NewEvents(s, r.1)))
  }

  lemma {:induction false} QuietTrans(s0: State, s1: State, s2: State)
    requires Quiet(s0, s1) && Quiet(s1, s2)
    ensures Quiet(s0, s2)
  {
    assert s2.log[..|s1.log|][..|s0.log|] == s2.log[..|s0.log|];
    assert NewEvents(s0, s2) == NewEvents(s0, s1) + NewEvents(s1, s2);
  }

  lemma {:induction false} QuietThenEnds(s0: State, s1: State, s2: State, outcome: Outcome)
    requires Quiet(s0, s1) && Extends(s1, s2) && EndsCleanly(NewEvents(s1, s2), outcome)
    ensures Extends(s0, s2) && EndsCleanly(NewEvents(s0, s2), outcome)
    ensures ReportFree(NewEvents(s1, s2)) ==> ReportFree(NewEvents(s0, s2))
  {
    assert s2.log[..|s1.log|][..|s0.log|] == s2.log[..|s0.log|];
    var q := NewEvents(s0, s1);
    var e := NewEvents(s1, s2);
    assert NewEvents(s0, s2) == q + e;
    if |e| > 0 {
      assert (q + e)[..|q + e| - 1] == q + e[..|e| - 1];
      assert (q + e)[|q + e| - 1] == e[|e| - 1];
    }
  }

  lemma {:induction false} QuietEndsCleanly(s0: State, s1: State, outcome: Outcome)
    requires Quiet(s0, s1)
    ensures EndsCleanly(NewEvents(s0, s1), outcome)
  {
    var e := NewEvents(s0, s1);
    if |e| > 0 {
      assert forall k :: 0 <= k < |e| - 1 ==> e[..|e| - 1][k] == e[k];
    }
  }

  /** Appending one event that is neither a launch nor a report is quiet. */
  lemma {:induction false} QuietAppend(s: State, e: Event)
    requires !e.Launched? && !e.Reported?
    ensures Quiet(s, s.(log := s.log + [e]))
  {
    var s1 := s.(log := s.log + [e]);
    assert s1.log[..|s.log|] == s.log;
    assert NewEvents(s, s1) == [e];
  }

  lemma {:induction false} QuietRefl(s: State)
    ensures Quiet(s, s)
  {
    assert s.log[..|s.log|] == s.log;
  }

  lemma {:induction false} PickStepQuiet(env: Env, input: PickerInput, preview: Option<string>, s: State)
    ensures Quiet(s, PickStep(env, input, preview, s).1)
  {
    QuietRefl(s);
    if env.variant == Live && (env.handler.fzf || env.handler.skim) {
      var program := if env.handler.fzf then FzfProgram else SkimProgram;
      var argv := [program] + PreviewArgs(preview);
      var text := InputText(input);
      QuietAppend(s, BinaryPicked(argv, text, env.world.binary(|s.log|, argv, text)));
    } else {
      var options := SkimOptions.Build(env.skimTokens, preview);
      if options.Some? && env.buildError.None? {
        QuietAppend(s, SkimPicked(options.value, input, env.world.skim(|s.log|, options.value, input)));
      }
    }
  }

  lemma {:induction false} CaptureStepQuiet(env: Env, command: string, s: State)
    ensures Quiet(s, CaptureStep(env, command, s).1)
  {
    var process := ShellProcess(ShellOf(env), command, env.cacheDirectory);
    QuietAppend(s, OutputCaptured(process, env.world.capture(|s.log|, process)));
  }

  lemma {:induction false} ReadStepQuiet(env: Env, s: State)
    ensures Quiet(s, ReadStep(env, s).1)
  {
    QuietAppend(s, LineRead(env.world.readLine(|s.log|)));
  }

  /** One widget's step reads, captures and picks but never launches or
      reports, and it ends the run only with a failure, an exit or a panic. */
  lemma {:induction false} GatherFacts(env: Env, widget: Widget, args: seq<string>, s: State)
    ensures var (g, s1) := Gather(env, widget, args, s);
      Quiet(s, s1) && (g.Halt? ==> !g.outcome.Done?)
  {
    match widget
    case FreeText =>
      ReadStepQuiet(env, s);
    case FromCommand(command, preview) =>
      var (captured, s1) := CaptureStep(env, SubstituteFirst(command, args, |args|), s);
      CaptureStepQuiet(env, SubstituteFirst(command, args, |args|), s);
      if captured.Continue? {
        var (pick, s2) := PickStep(env, captured.value, preview, s1);
        PickStepQuiet(env, captured.value, preview, s1);
        QuietTrans(s, s1, s2);
        PickStepHalts(env, captured.value, preview, s1);
      }
  }

  /** A pick ends the run only by exiting, panicking or (for a builder
      error in the older copies) failing, never with `Done`. */
  lemma PickStepHalts(env: Env, input: PickerInput, preview: Option<string>, s: State)
    ensures PickStep(env, input, preview, s).0.Halted? ==> !PickStep(env, input, preview, s).0.outcome.Done?
  {
    if env.variant == Live && (env.handler.fzf || env.handler.skim) {
      var program := if env.handler.fzf then FzfProgram else SkimProgram;
      var argv := [program] + PreviewArgs(preview);
      var text := InputText(input);
      var run := env.world.binary(|s.log|, argv, text);
      assert PickStep(env, input, preview, s).0 == BinaryPick(program, run);
      PicksHaltByExitOrPanic(env.variant, program, run, None);
    } else {
      assert PickStep(env, input, preview, s) == LibraryStep(env, input, preview, s);
      LibraryStepHalts(env, input, preview, s);
    }
  }

  lemma LibraryStepHalts(env: Env, input: PickerInput, preview: Option<string>, s: State)
    ensures LibraryStep(env, input, preview, s).0.Halted? ==> !LibraryStep(env, input, preview, s).0.outcome.Done?
  {
    var options := SkimOptions.Build(env.skimTokens, preview);
    if options.Some? && env.buildError.None? {
      var result := env.world.skim(|s.log|, options.value, input);
      assert LibraryStep(env, input, preview, s).0 == SkimPick(env.variant, result);
      PicksHaltByExitOrPanic(env.variant, "", BinaryRun.SpawnError, result);
    }
  }

  /** Argument collection never launches or reports; when it completes it
      holds one argument per widget, extending the arguments it started
      from; it stops only with a failure, an exit or a panic, never with a
      quiet `Done`. */
  lemma {:induction false} CollectFacts(env: Env, widgets: seq<Widget>, args: seq<string>, s: State)
    requires |args| <= |widgets|
    ensures var (c, s1) := Collect(env, widgets, args, s);
      && Quiet(s, s1)
      && (c.Collected? ==> |c.args| == |widgets| && c.args[..|args|] == args)
      && (c.Stopped? ==> !c.outcome.Done?)
    decreases |widgets| - |args|
  {
    if |args| == |widgets| {
      QuietRefl(s);
    } else {
      var (g, s1) := Gather(env, widgets[|args|], args, s);
      GatherFacts(env, widgets[|args|], args, s);
      if g.Got? {
        var next := args + [g.arg];
        CollectFacts(env, widgets, next, s1);
        QuietTrans(s, s1, Collect(env, widgets, next, s1).1);
        assert next[..|args|] == args;
      }
    }
  }

  /** Every walk keeps the guarantees of `WalkFacts`. */
  lemma {:induction false} RunFacts(env: Env, action: Action, s: State)
    ensures WalkFacts(env, s, Run(env, action, s))
    decreases action
  {
    match action
    case Command(_, template, widgets) =>
      var ws := WidgetList(widgets);
      var (c, s1) := Collect(env, ws, [], s);
      CollectFacts(env, ws, [], s);
      if c.Collected? {
        var command := SubstituteFirst(template, c.args, |c.args|);
        var process := ShellProcess(ShellOf(env), command, env.cacheDirectory);
        var e := Launched(process, env.world.launch(|s1.log|, process));
        var s2 := s1.(log := s1.log + [e]);
        assert Run(env, action, s) == LaunchStep(env, command, s1);
        assert LaunchStep(env, command, s1).1 == s2;
        assert s2.log[..|s1.log|] == s1.log;
        assert NewEvents(s1, s2) == [e];
        assert EndsCleanly([e], LaunchStep(env, command, s1).0);
        QuietThenEnds(s, s1, s2, LaunchStep(env, command, s1).0);
      } else {
        QuietEndsCleanly(s, s1, Run(env, action, s).0);
      }
    case Select(description, options) =>
      SelectFacts(env, description, options, s);
  }

  /** A preselection that names no key is reported once, with every key,
      and the run exits with status 1 without calling the picker. */
  lemma {:induction false} InvalidPreselection(env: Env, description: Option<string>, options: seq<(string, Action)>, s: State)
    requires PreselectionOpen(env, s) && FindIndex(options, env.handler.command.value).None?
    ensures Choose(env, description, options, s).0 == Halted(Exited(1))
    ensures Choose(env, description, options, s).1 ==
      s.(log := s.log + [Reported(InvalidSelectionMessage(env.handler.command.value, Keys(options)))])
    ensures Extends(s, Choose(env, description, options, s).1)
  {
    var selection := env.handler.command.value;
    assert Choose(env, description, options, s) == Preselect(selection, options, s);
    var s1 := Preselect(selection, options, s).1;
    assert s1 == s.(log := s.log + [Reported(InvalidSelectionMessage(selection, Keys(options)))]);
    assert s1.log[..|s.log|] == s.log;
  }

  /** Otherwise the choice at a Select only picks (or takes the
      preselection) and changes nothing else. */
  lemma {:induction false} ChooseQuiet(env: Env, description: Option<string>, options: seq<(string, Action)>, s: State)
    requires !(PreselectionOpen(env, s) && FindIndex(options, env.handler.command.value).None?)
    ensures Quiet(s, Choose(env, description, options, s).1)
  {
    if PreselectionOpen(env, s) {
      QuietRefl(s);
    } else {
      PickStepQuiet(env, SelectInput(env, description, options), None, s);
    }
  }

  lemma {:induction false} SelectFacts(env: Env, description: Option<string>, options: seq<(string, Action)>, s: State)
    ensures WalkFacts(env, s, RunSelect(env, description, options, s))
    decreases Select(description, options), 1
  {
    if PreselectionOpen(env, s) && FindIndex(options, env.handler.command.value).None? {
      RejectFacts(env, description, options, s);
    } else {
      var chosen := Choose(env, description, options, s);
      ChooseQuiet(env, description, options, s);
      assert RunSelect(env, description, options, s) == Descend(env, description, options, chosen);
      assert !PreselectionOpen(env, s) ==> !PreselectionOpen(env, chosen.1);
      var choice := chosen.0;
      if choice.Picked? && choice.choice.Some? && FindIndex(options, KeyOf(choice.choice.value)).Some? {
        DescentFacts(env, description, options, s, chosen, FindIndex(options, KeyOf(choice.choice.value)).value);
      } else {
        StopFacts(env, description, options, s, chosen);
      }
    }
  }

  /** An invalid preselection ends the walk with its one report. */
  lemma {:induction false} RejectFacts(env: Env, description: Option<string>, options: seq<(string, Action)>, s: State)
    requires PreselectionOpen(env, s) && FindIndex(options, env.handler.command.value).None?
    ensures WalkFacts(env, s, RunSelect(env, description, options, s))
  {
    var s1 := Choose(env, description, options, s).1;
    InvalidPreselection(env, description, options, s);
    var e := Reported(InvalidSelectionMessage(env.handler.command.value, Keys(options)));
    assert RunSelect(env, description, options, s) == (Exited(1), s1);
    assert NewEvents(s, s1) == [e];
    assert [e][..0] == [];
    assert EndsCleanly([e], Exited(1));
  }

  /** A halted pick, no pick, or an unknown key ends the walk quietly. */
  lemma {:induction false} StopFacts(env: Env, description: Option<string>, options: seq<(string, Action)>, s: State, chosen: (Pick, State))
    requires Quiet(s, chosen.1)
    requires var choice := chosen.0;
      !(choice.Picked? && choice.choice.Some? && FindIndex(options, KeyOf(choice.choice.value)).Some?)
    ensures WalkFacts(env, s, Descend(env, description, options, chosen))
  {
    var (choice, s1) := chosen;
    var o := if choice.Halted? then choice.outcome else Done;
    assert Descend(env, description, options, chosen) == (o, s1);
    QuietEndsCleanly(s, s1, o);
  }

  /** The descent into the picked child. */
  lemma {:induction false} DescentFacts(env: Env, description: Option<string>, options: seq<(string, Action)>, s: State, chosen: (Pick, State), i: nat)
    requires Quiet(s, chosen.1)
    requires !PreselectionOpen(env, s) ==> !PreselectionOpen(env, chosen.1)
    requires var choice := chosen.0;
      choice.Picked? && choice.choice.Some? && FindIndex(options, KeyOf(choice.choice.value)) == Some(i)
    ensures WalkFacts(env, s, Descend(env, description, options, chosen))
    decreases Select(description, options), 0
  {
    var (choice, s1) := chosen;
    var s2 := if env.variant == Live then s1.(numRuns := s1.numRuns + 1) else s1;
    var result := Run(env, options[i].1, s2);
    assert Descend(env, description, options, chosen) == result;
    RunFacts(env, options[i].1, s2);
    assert s1.log == s2.log;
    assert !PreselectionOpen(env, s1) ==> !PreselectionOpen(env, s2);
    QuietThenEnds(s, s1, result.1, result.0);
  }
}
