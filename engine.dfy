/**
 * `Action::run` as a function of its inputs: the configuration, the flags,
 * the environment, and the answers of everything outside the process
 * (line reads, captured command output, the pickers, the launched shell).
 * Those answers are total functions of the position in the run's event log,
 * so a run is deterministic given them.  One definition covers the live
 * engine (src/runner.rs:336-469), the older library (src/lib.rs:270-350) and
 * the channel experiment (extra/lib_arcsend.rs:323-405); `Variant` selects
 * where they differ.
 */
module Engine {
  import opened Wrappers
  import opened Strings
  import opened Actions
  import opened Shell
  import opened Template
  import opened Menu
  import opened TextLines
  import opened Pickers
  import opened SkimChannel
  import SkimOptions
  import Utf8

  /** What a picker is given: newline-separated text, or (in the channel
      experiment) ready-made items. */
  datatype PickerInput = Text(text: string) | Items(items: seq<SkimJaime>)

  datatype ReadLine = Line(text: string) | ReadFailed(error: ReadlineError)
  datatype CaptureRun = CaptureSpawnError(message: string) | CaptureOutput(stdout: seq<Utf8.byte>)
  datatype LaunchRun = LaunchSpawnError(message: string) | LaunchExited(status: int)

  /** The answers of the outside world, by position in the event log. */
  datatype World = World(
    readLine: nat -> ReadLine,
    capture: (nat, Process) -> CaptureRun,
    binary: (nat, seq<string>, string) -> BinaryRun,
    skim: (nat, SkimOptions.Options, PickerInput) -> Option<SkimOutput>,
    launch: (nat, Process) -> LaunchRun)

  /** Everything a run reads but never changes.  `buildError` is the error
      the skim options builder reports, if any. */
  datatype Env = Env(
    variant: Variant,
    cacheDirectory: string,
    config: Config,
    handler: Handler,
    shellVariable: Option<string>,
    skimTokens: seq<string>,
    buildError: Option<string>,
    world: World)

  /** One interaction with the outside world, or the error line printed
      before an exit. */
  datatype Event =
    | LineRead(line: ReadLine)
    | OutputCaptured(process: Process, capture: CaptureRun)
    | BinaryPicked(argv: seq<string>, text: string, binary: BinaryRun)
    | SkimPicked(options: SkimOptions.Options, input: PickerInput, output: Option<SkimOutput>)
    | Launched(process: Process, launch: LaunchRun)
    | Reported(message: string)

  /** What a run changes: the global count of descents (`NUM_RUNS`) and the
      event log. */
  datatype State = State(numRuns: nat, log: seq<Event>)

  /** A step that either yields a value or ends the run. */
  datatype Step<T> = Continue(value: T) | Stop(outcome: Outcome)

  /** The result of one widget: an argument, a cancelled pick, or the end
      of the run. */
  datatype Gathered = Got(arg: string) | Cancel | Halt(outcome: Outcome)

  /** The state of argument collection when it stops early or completes. */
  datatype Collection = Collected(args: seq<string>) | Cancelled | Stopped(outcome: Outcome)

  const InvalidUtf8Message := "invalid utf-8 sequence"
  const IndexPanicMessage := "index out of bounds"

  /** The shell every process is run with: the configured one, else
      `$SHELL`, else `sh`. */
  function ShellOf(env: Env): (shell: string)
    ensures env.config.shell.Some? ==> shell == env.config.shell.value
    ensures env.config.shell.None? && env.shellVariable.Some? ==> shell == env.shellVariable.value
    ensures env.config.shell.None? && env.shellVariable.None? ==> shell == "sh"
  {
    ChooseShell(env.config.shell, env.shellVariable)
  }

  /** A free-text widget reads one line. */
  function ReadStep(env: Env, s: State): (r: (Step<string>, State))
    ensures r.1 == s.(log := s.log + [LineRead(env.world.readLine(|s.log|))])
    ensures env.world.readLine(|s.log|).Line? ==> r.0 == Continue(env.world.readLine(|s.log|).text)
    ensures env.world.readLine(|s.log|).ReadFailed? ==>
      r.0 == Stop(Failed(ReadlineMessage(env.world.readLine(|s.log|).error)))
  {
    var result := env.world.readLine(|s.log|);
    var s1 := s.(log := s.log + [LineRead(result)]);
    match result
    case Line(text) => (Continue(text), s1)
    case ReadFailed(e) => (Stop(Failed(ReadlineMessage(e))), s1)
  }

  /** Runs a command for its output: a failed spawn or non-UTF-8 output is
      an error; the channel experiment splits the output into line items. */
  function CaptureStep(env: Env, command: string, s: State): (r: (Step<PickerInput>, State))
    ensures var process := ShellProcess(ShellOf(env), command, env.cacheDirectory);
      r.1 == s.(log := s.log + [OutputCaptured(process, env.world.capture(|s.log|, process))])
    ensures r.0.Stop? ==> r.0.outcome.Failed?
    ensures var run := env.world.capture(|s.log|, ShellProcess(ShellOf(env), command, env.cacheDirectory));
      r.0.Continue? <==> run.CaptureOutput? && Utf8.Decode(run.stdout).Some?
    ensures var run := env.world.capture(|s.log|, ShellProcess(ShellOf(env), command, env.cacheDirectory));
      r.0.Continue? ==>
        var text := Utf8.Decode(run.stdout).value;
        r.0.value == if env.variant == ArcSend then Items(Wrap(Lines(text))) else Text(text)
  {
    var process := ShellProcess(ShellOf(env), command, env.cacheDirectory);
    var result := env.world.capture(|s.log|, process);
    var s1 := s.(log := s.log + [OutputCaptured(process, result)]);
    match result
    case CaptureSpawnError(m) => (Stop(Failed(m)), s1)
    case CaptureOutput(bytes) =>
      match Utf8.Decode(bytes)
      case None => (Stop(Failed(InvalidUtf8Message)), s1)
      case Some(text) =>
        (Continue(if env.variant == ArcSend then Items(Wrap(Lines(text))) else Text(text)), s1)
  }

  /** The text fed to a picker binary.  Only the live engine uses the
      binaries, and it always has text. */
  function InputText(input: PickerInput): (text: string)
    ensures input.Text? ==> text == input.text
    ensures input.Items? && PlainLabels(seq(|input.items|, k requires 0 <= k < |input.items| => input.items[k].Output())) ==>
      Lines(text) == seq(|input.items|, k requires 0 <= k < |input.items| => input.items[k].Output())
  {
    match input
    case Text(t) => t
    case Items(items) =>
      var outputs := seq(|items|, k requires 0 <= k < |items| => items[k].Output());
      assert PlainLabels(outputs) ==> Lines(Join(outputs, "\n")) == outputs by {
        if PlainLabels(outputs) { LinesOfJoin(outputs); }
      }
      Join(outputs, "\n")
  }

  /** A picker binary: `program` with the preview arguments, fed the text. */
  function BinaryStep(env: Env, program: string, text: string, preview: Option<string>, s: State): (r: (Pick, State))
    ensures var argv := [program] + PreviewArgs(preview);
      var run := env.world.binary(|s.log|, argv, text);
      r == (BinaryPick(program, run), s.(log := s.log + [BinaryPicked(argv, text, run)]))
    ensures r.0.Halted? ==> r.0.outcome.Panicked?
  {
    var argv := [program] + PreviewArgs(preview);
    var result := env.world.binary(|s.log|, argv, text);
    (BinaryPick(program, result), s.(log := s.log + [BinaryPicked(argv, text, result)]))
  }

  /** The skim library: a dangling flag in `SKIM_DEFAULT_OPTIONS` panics; a
      builder error panics in the live engine and is returned by the older
      copies. */
  function LibraryStep(env: Env, input: PickerInput, preview: Option<string>, s: State): (r: (Pick, State))
    ensures SkimOptions.Build(env.skimTokens, preview).None? ==> r == (Halted(Panicked(IndexPanicMessage)), s)
    ensures SkimOptions.Build(env.skimTokens, preview).Some? && env.buildError.Some? ==>
      r.1 == s && r.0 == Halted(if env.variant == Live then Panicked(env.buildError.value) else Failed(env.buildError.value))
    ensures SkimOptions.Build(env.skimTokens, preview).Some? && env.buildError.None? ==>
      var options := SkimOptions.Build(env.skimTokens, preview).value;
      var output := env.world.skim(|s.log|, options, input);
      r == (SkimPick(env.variant, output), s.(log := s.log + [SkimPicked(options, input, output)]))
  {
    match SkimOptions.Build(env.skimTokens, preview)
    case None => (Halted(Panicked(IndexPanicMessage)), s)
    case Some(options) =>
      if env.buildError.Some? then
        (Halted(if env.variant == Live then Panicked(env.buildError.value) else Failed(env.buildError.value)), s)
      else
        var result := env.world.skim(|s.log|, options, input);
        (SkimPick(env.variant, result), s.(log := s.log + [SkimPicked(options, input, result)]))
  }

  /** The picker in use: `--fzf`, then `--skim-binary`, then the library;
      the older copies know only the library. */
  function PickStep(env: Env, input: PickerInput, preview: Option<string>, s: State): (r: (Pick, State))
    ensures env.variant == Live && env.handler.fzf ==> r == BinaryStep(env, FzfProgram, InputText(input), preview, s)
    ensures env.variant == Live && !env.handler.fzf && env.handler.skim ==>
      r == BinaryStep(env, SkimProgram, InputText(input), preview, s)
    ensures env.variant != Live || (!env.handler.fzf && !env.handler.skim) ==> r == LibraryStep(env, input, preview, s)
    ensures r.1.numRuns == s.numRuns && |s.log| <= |r.1.log| <= |s.log| + 1 && r.1.log[..|s.log|] == s.log
  {
    if env.variant == Live && env.handler.fzf then BinaryStep(env, FzfProgram, InputText(input), preview, s)
    else if env.variant == Live && env.handler.skim then BinaryStep(env, SkimProgram, InputText(input), preview, s)
    else LibraryStep(env, input, preview, s)
  }

  /** Runs the final command interactively; its exit status is ignored. */
  function LaunchStep(env: Env, command: string, s: State): (r: (Outcome, State))
    ensures var process := ShellProcess(ShellOf(env), command, env.cacheDirectory);
      var run := env.world.launch(|s.log|, process);
      && r.1 == s.(log := s.log + [Launched(process, run)])
      && (r.0 == Done <==> run.LaunchExited?)
      && (run.LaunchSpawnError? ==> r.0 == Failed(run.message))
  {
    var process := ShellProcess(ShellOf(env), command, env.cacheDirectory);
    var result := env.world.launch(|s.log|, process);
    (if result.LaunchSpawnError? then Failed(result.message) else Done,
     s.(log := s.log + [Launched(process, result)]))
  }

  /** One widget's step at position `|args|`: a free-text widget reads a
      line; a command widget first substitutes the arguments collected so
      far into its own command, runs it and lets the user pick from its
      output. */
  function Gather(env: Env, widget: Widget, args: seq<string>, s: State): (r: (Gathered, State))
    ensures widget.FreeText? ==> r.0 != Cancel && r.1 == ReadStep(env, s).1
    ensures widget.FreeText? && env.world.readLine(|s.log|).Line? ==> r.0 == Got(env.world.readLine(|s.log|).text)
    ensures widget.FromCommand? ==>
      var command := SubstituteFirst(widget.command, args, |args|);
      var (captured, s1) := CaptureStep(env, command, s);
      captured.Stop? ==> r == (Halt(captured.outcome), s1)
    ensures r.1.numRuns == s.numRuns
  {
    match widget
    case FreeText =>
      var (line, s1) := ReadStep(env, s);
      (if line.Stop? then Halt(line.outcome) else Got(line.value), s1)
    case FromCommand(command, preview) =>
      var (captured, s1) := CaptureStep(env, SubstituteFirst(command, args, |args|), s);
      if captured.Stop? then (Halt(captured.outcome), s1)
      else
        var (pick, s2) := PickStep(env, captured.value, preview, s1);
        match pick
        case Halted(o) => (Halt(o), s2)
        case Picked(None) => (Cancel, s2)
        case Picked(Some(v)) => (Got(v), s2)
  }

  /** Collects one argument per widget, from `args` (the arguments so far)
      on. */
  function Collect(env: Env, widgets: seq<Widget>, args: seq<string>, s: State): (Collection, State)
    requires |args| <= |widgets|
    decreases |widgets| - |args|
  {
    if |args| == |widgets| then (Collected(args), s)
    else
      var (g, s1) := Gather(env, widgets[|args|], args, s);
      match g
      case Halt(o) => (Stopped(o), s1)
      case Cancel => (Cancelled, s1)
      case Got(v) => Collect(env, widgets, args + [v], s1)
  }

  function Run(env: Env, action: Action, s: State): (Outcome, State)
    decreases action, 2
  {
    match action
    case Command(_, template, widgets) => RunCommand(env, template, WidgetList(widgets), s)
    case Select(description, options) => RunSelect(env, description, options, s)
  }

  /** A command: collect the arguments, then launch the template with them
      substituted; a cancelled pick ends the run quietly. */
  function RunCommand(env: Env, template: string, widgets: seq<Widget>, s: State): (Outcome, State)
  {
    var (collection, s1) := Collect(env, widgets, [], s);
    match collection
    case Cancelled => (Done, s1)
    case Stopped(o) => (o, s1)
    case Collected(args) => LaunchStep(env, SubstituteFirst(template, args, |args|), s1)
  }

  /** The candidates shown at a Select. */
  function SelectInput(env: Env, description: Option<string>, options: seq<(string, Action)>): (input: PickerInput)
    ensures env.variant == ArcSend ==> input == Items(Wrap(Labels(env.variant, description, options)))
    ensures env.variant != ArcSend ==> input == Text(Join(Labels(env.variant, description, options), "\n"))
    ensures input.Items? ==> |input.items| == |options|
  {
    var labels := Labels(env.variant, description, options);
    if env.variant == ArcSend then Items(Wrap(labels)) else Text(Join(labels, "\n"))
  }

  /** The preselection gate: open only in the live engine, with
      `--command`, before any descent has been counted. */
  predicate PreselectionOpen(env: Env, s: State) {
    env.variant == Live && env.handler.command.Some? && s.numRuns == 0
  }

  /** The line chosen at a Select: on the live engine's first descent a
      `--command` preselection replaces the picker, and one that names no key
      prints the available keys and exits with status 1. */
  function Choose(env: Env, description: Option<string>, options: seq<(string, Action)>, s: State): (r: (Pick, State))
    ensures PreselectionOpen(env, s) ==> r == Preselect(env.handler.command.value, options, s)
    ensures !PreselectionOpen(env, s) ==> r == PickStep(env, SelectInput(env, description, options), None, s)
    ensures PreselectionOpen(env, s) ==> r.0 != Picked(None)
  {
    if PreselectionOpen(env, s) then
      Preselect(env.handler.command.value, options, s)
    else PickStep(env, SelectInput(env, description, options), None, s)
  }

  /** A `--command` preselection is taken as the picked line when it is one
      of the keys; otherwise the error listing the keys is reported and the
      process exits with status 1. */
  function Preselect(selection: string, options: seq<(string, Action)>, s: State): (r: (Pick, State))
    ensures r.0 == Picked(Some(selection)) <==> FindIndex(options, selection).Some?
    ensures FindIndex(options, selection).Some? ==> r.1 == s
    ensures FindIndex(options, selection).None? ==>
      r == (Halted(Exited(1)), s.(log := s.log + [Reported(InvalidSelectionMessage(selection, Keys(options)))]))
  {
    if FindIndex(options, selection).Some? then (Picked(Some(selection)), s)
    else (Halted(Exited(1)), s.(log := s.log + [Reported(InvalidSelectionMessage(selection, Keys(options)))]))
  }

  /** A Select: choose a line, recover its key, and run that child (the
      live engine counts the descent first); no line or an unknown key ends
      the run quietly. */
  function RunSelect(env: Env, description: Option<string>, options: seq<(string, Action)>, s: State): (Outcome, State)
    decreases Select(description, options), 1
  {
    Descend(env, description, options, Choose(env, description, options, s))
  }

  /** What a Select does once the line has been chosen. */
  function Descend(env: Env, description: Option<string>, options: seq<(string, Action)>, chosen: (Pick, State)): (Outcome, State)
    decreases Select(description, options), 0
  {
    var (choice, s1) := chosen;
    match choice
    case Halted(o) => (o, s1)
    case Picked(None) => (Done, s1)
    case Picked(Some(selection)) =>
      match FindIndex(options, KeyOf(selection))
      case None => (Done, s1)
      case Some(i) =>
        Run(env, options[i].1, if env.variant == Live then s1.(numRuns := s1.numRuns + 1) else s1)
  }
}
