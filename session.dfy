/**
 * `Action::run` as the source writes it: a recursive walk that pushes the
 * collected arguments onto a vector, rewrites each command by repeated
 * replacement, bumps the global descent counter and talks to the outside
 * world.  Each method is proved to compute exactly what the matching
 * function of `Engine` specifies, on the session's counter and log.
 */
module Runner {
  import opened Wrappers
  import opened Strings
  import opened Actions
  import opened Shell
  import opened Template
  import opened Menu
  import opened TextLines
  import opened Pickers
  import opened SkimChannel
  import opened Engine
  import SkimOptions
  import Utf8

  class Session {
    const env: Env
    /** `NUM_RUNS`: how many times a Select has descended into a child. */
    var numRuns: nat
    /** Every interaction with the outside world, in order. */
    var log: seq<Event>

    function Current(): State
      reads this
    {
      State(numRuns, log)
    }

    constructor (env: Env)
      ensures this.env == env && Current() == State(0, [])
    {
      this.env := env;
      numRuns := 0;
      log := [];
    }

    /** `readline()`. */
    method ReadLine() returns (step: Step<string>)
      modifies this
      ensures (step, Current()) == ReadStep(env, old(Current()))
    {
      var result := env.world.readLine(|log|);
      log := log + [LineRead(result)];
      match result
      case Line(text) => step := Continue(text);
      case ReadFailed(e) => step := Stop(Failed(ReadlineMessage(e)));
    }

    /** `run_shell_command_for_output`, and in the channel experiment the
        items it sends through `skim_items`. */
    method Capture(command: string) returns (step: Step<PickerInput>)
      modifies this
      ensures (step, Current()) == CaptureStep(env, command, old(Current()))
    {
      var process := ShellProcess(ShellOf(env), command, env.cacheDirectory);
      var result := env.world.capture(|log|, process);
      log := log + [OutputCaptured(process, result)];
      match result
      case CaptureSpawnError(m) =>
        step := Stop(Failed(m));
      case CaptureOutput(bytes) =>
        var text := Utf8.Decode(bytes);
        if text.None? {
          step := Stop(Failed(InvalidUtf8Message));
        } else if env.variant == ArcSend {
          var rx := SkimItems(Wrap(Lines(text.value)));
          var items := rx.ReceiveAll();
          step := Continue(Items(items));
        } else {
          step := Continue(Text(text.value));
        }
    }

    /** `display_selector_fzf` and `display_selector_skim`. */
    method PickWithBinary(program: string, text: string, preview: Option<string>) returns (pick: Pick)
      modifies this
      ensures (pick, Current()) == BinaryStep(env, program, text, preview, old(Current()))
    {
      var argv := [program] + PreviewArgs(preview);
      var result := env.world.binary(|log|, argv, text);
      log := log + [BinaryPicked(argv, text, result)];
      pick := BinaryPick(program, result);
    }

    /** `display_selector` (the skim library). */
    method PickWithLibrary(input: PickerInput, preview: Option<string>) returns (pick: Pick)
      modifies this
      ensures (pick, Current()) == LibraryStep(env, input, preview, old(Current()))
    {
      var options := SkimOptions.Build(env.skimTokens, preview);
      if options.None? {
        return Halted(Panicked(IndexPanicMessage));
      }
      if env.buildError.Some? {
        if env.variant == Live {
          return Halted(Panicked(env.buildError.value));
        }
        return Halted(Failed(env.buildError.value));
      }
      var result := env.world.skim(|log|, options.value, input);
      log := log + [SkimPicked(options.value, input, result)];
      pick := SkimPick(env.variant, result);
    }

    method Pick(input: PickerInput, preview: Option<string>) returns (pick: Pick)
      modifies this
      ensures (pick, Current()) == PickStep(env, input, preview, old(Current()))
    {
      if env.variant == Live && env.handler.fzf {
        pick := PickWithBinary(FzfProgram, InputText(input), preview);
      } else if env.variant == Live && env.handler.skim {
        pick := PickWithBinary(SkimProgram, InputText(input), preview);
      } else {
        pick := PickWithLibrary(input, preview);
      }
    }

    /** `run_shell`. */
    method Launch(command: string) returns (outcome: Outcome)
      modifies this
      ensures (outcome, Current()) == LaunchStep(env, command, old(Current()))
    {
      var process := ShellProcess(ShellOf(env), command, env.cacheDirectory);
      var result := env.world.launch(|log|, process);
      log := log + [Launched(process, result)];
      outcome := if result.LaunchSpawnError? then Failed(result.message) else Done;
    }

    method Run(action: Action) returns (outcome: Outcome)
      modifies this
      ensures (outcome, Current()) == Engine.Run(env, action, old(Current()))
      decreases action, 1
    {
      match action
      case Command(_, template, widgets) =>
        outcome := RunCommand(template, WidgetList(widgets));
      case Select(description, options) =>
        outcome := RunSelect(description, options);
    }

    /** The body of the widget loop for one widget. */
    method GatherOne(widget: Widget, args: seq<string>) returns (g: Gathered)
      modifies this
      ensures (g, Current()) == Gather(env, widget, args, old(Current()))
    {
      match widget
      case FreeText =>
        var line := ReadLine();
        g := if line.Stop? then Halt(line.outcome) else Got(line.value);
      case FromCommand(command, preview) =>
        var substituted := Substitute(command, args, |args|);
        var captured := Capture(substituted);
        if captured.Stop? {
          return Halt(captured.outcome);
        }
        var pick := Pick(captured.value, preview);
        match pick
        case Halted(o) =>
          g := Halt(o);
        case Picked(None) =>
          g := Cancel;
        case Picked(Some(v)) =>
          g := Got(v);
    }

    /** The widget loop, then the final substitution and launch. */
    method RunCommand(template: string, widgets: seq<Widget>) returns (outcome: Outcome)
      modifies this
      ensures (outcome, Current()) == Engine.RunCommand(env, template, widgets, old(Current()))
    {
      var args: seq<string> := [];
      for index := 0 to |widgets|
        invariant |args| == index
        invariant Collect(env, widgets, [], old(Current())) == Collect(env, widgets, args, Current())
      {
        var g := GatherOne(widgets[index], args);
        match g
        case Halt(o) =>
          return o;
        case Cancel =>
          return Done;
        case Got(v) =>
          args := args + [v];
      }
      var command := Substitute(template, args, |args|);
      outcome := Launch(command);
    }

    /** The `, `-separated key list of the invalid-selection message, built
        as the source builds it: a separator after every key, then one
        trailing separator stripped. */
    method AvailableKeys(options: seq<(string, Action)>) returns (available: string)
      ensures available == Join(Keys(options), ", ")
    {
      var keys := Keys(options);
      var acc := "";
      for k := 0 to |keys|
        invariant acc == Terminated(keys[..k], ", ")
      {
        TerminatedSnoc(keys[..k], keys[k], ", ");
        assert keys[..k + 1] == keys[..k] + [keys[k]];
        acc := acc + keys[k] + ", ";
      }
      assert keys[..|keys|] == keys;
      StripTerminatedIsJoin(keys, ", ");
      available := StripSuffixOr(acc, ", ");
    }

    /** The candidate lines of a Select, sent through `skim_items` in the
        channel experiment. */
    method Candidates(description: Option<string>, options: seq<(string, Action)>) returns (input: PickerInput)
      ensures input == SelectInput(env, description, options)
    {
      var labels := Labels(env.variant, description, options);
      if env.variant == ArcSend {
        var rx := SkimItems(Wrap(labels));
        var items := rx.ReceiveAll();
        input := Items(items);
      } else {
        input := Text(Join(labels, "\n"));
      }
    }

    /** The preselection gate, else the picker. */
    method ChooseLine(description: Option<string>, options: seq<(string, Action)>) returns (choice: Pick)
      modifies this
      ensures (choice, Current()) == Choose(env, description, options, old(Current()))
    {
      if PreselectionOpen(env, Current()) {
        choice := Preselected(env.handler.command.value, options);
      } else {
        var input := Candidates(description, options);
        choice := Pick(input, None);
      }
    }

    /** A `--command` preselection: a key is taken as the picked line; any
        other text is reported with the available keys and exits. */
    method Preselected(selection: string, options: seq<(string, Action)>) returns (choice: Pick)
      modifies this
      ensures (choice, Current()) == Preselect(selection, options, old(Current()))
    {
      if FindIndex(options, selection).Some? {
        choice := Picked(Some(selection));
      } else {
        var available := AvailableKeys(options);
        var message := "[jaime error]: " + selection
          + " is an invalid selection and doesn't match any of the keys you have in your configuration file.\nAvailable keys are: "
          + available;
        InvalidSelectionListsKeys(selection, Keys(options));
        log := log + [Reported(message)];
        choice := Halted(Exited(1));
      }
    }

    method RunSelect(description: Option<string>, options: seq<(string, Action)>) returns (outcome: Outcome)
      modifies this
      ensures (outcome, Current()) == Engine.RunSelect(env, description, options, old(Current()))
      decreases Select(description, options), 0
    {
      ghost var spec := Engine.RunSelect(env, description, options, Current());
      ghost var s0 := Current();
      var choice := ChooseLine(description, options);
      assert spec == Descend(env, description, options, Choose(env, description, options, s0));
      assert spec == Descend(env, description, options, (choice, Current()));
      match choice
      case Halted(o) =>
        outcome := o;
      case Picked(None) =>
        outcome := Done;
      case Picked(Some(selection)) =>
        var found := FindIndex(options, KeyOf(selection));
        if found.None? {
          outcome := Done;
        } else {
          if env.variant == Live {
            numRuns := numRuns + 1;
          }
          assert spec == Engine.Run(env, options[found.value].1, Current());
          outcome := Run(options[found.value].1);
        }
    }
  }
}
