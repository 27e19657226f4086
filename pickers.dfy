/**
 * The three ways to let the user pick one line, reduced to what the engine
 * sees of them: the arguments given to the `fzf`/`sk` binaries, how their
 * output becomes a choice (src/runner.rs:235-322), how the skim library's
 * answer becomes a choice (src/runner.rs:222-231; src/lib.rs:243-256;
 * extra/lib_arcsend.rs:286-297), and how a failed line read becomes an
 * error (src/runner.rs:324-334).
 */
module Pickers {
  import opened Wrappers
  import opened Strings
  import opened Actions
  import Utf8

  const FzfProgram := "fzf"
  const SkimProgram := "sk"

  /** The name a binary's panic messages use for it: `fzf` for `fzf`, but
      `skim` for `sk` (src/runner.rs:257-266 and 298-310). */
  function ProgramName(program: string): (name: string)
    ensures program == FzfProgram ==> name == "fzf"
    ensures program == SkimProgram ==> name == "skim"
  {
    if program == SkimProgram then "skim" else program
  }

  /** What a picker hands back: a choice (none when the user picked
      nothing), or the end of the whole run. */
  datatype Pick = Picked(choice: Option<string>) | Halted(outcome: Outcome)

  /** The arguments after the program name: a preview command is shown in
      an open preview window; without one the window is hidden. */
  function PreviewArgs(preview: Option<string>): (args: seq<string>)
    ensures preview.Some? ==> args == ["--preview", preview.value, "--preview-window", ":nohidden"]
    ensures preview.None? ==> args == ["--preview-window", ":hidden"]
  {
    match preview
    case Some(p) => ["--preview", p, "--preview-window", ":nohidden"]
    case None => ["--preview-window", ":hidden"]
  }

  /** The window is open exactly when there is a preview command, and then
      the command is passed as one argument. */
  lemma PreviewWindowOpenIff(preview: Option<string>)
    ensures var args := PreviewArgs(preview);
      && args[|args| - 2] == "--preview-window"
      && (args[|args| - 1] == ":nohidden" <==> preview.Some?)
      && (args[|args| - 1] == ":hidden" <==> preview.None?)
    ensures preview.Some? ==> PreviewArgs(preview)[..2] == ["--preview", preview.value]
  {
  }

  /** `strip_suffix('\n').unwrap_or(..)`: at most one newline is removed. */
  function StripNewline(s: string): (r: string)
    ensures EndsWith(s, "\n") ==> r + "\n" == s
    ensures !EndsWith(s, "\n") ==> r == s
  {
    StripSuffixOr(s, "\n")
  }

  /** Removing the newline undoes adding one, and only one is removed. */
  lemma {:induction false} StripNewlineInverse(s: string)
    ensures StripNewline(s + "\n") == s
    ensures StripNewline(s + "\n\n") == s + "\n"
  {
    assert EndsWith(s + "\n", "\n");
    assert (s + "\n\n") == (s + "\n") + "\n";
    assert EndsWith(s + "\n\n", "\n");
  }

  /** How a run of the `fzf` or `sk` binary can end. */
  datatype BinaryRun =
    | SpawnError
    | FeedError
    | WaitError
    | Finished(success: bool, stdout: seq<Utf8.byte>)

  /** The binary's result as a choice: each failure to start, feed or wait
      for it panics with its own message; a non-success status means no
      choice; otherwise the output must be UTF-8 (else a panic) and loses
      one trailing newline. */
  function BinaryPick(program: string, run: BinaryRun): (p: Pick)
    ensures run.SpawnError? ==> p == Halted(Panicked("failed to spawn " + ProgramName(program)))
    ensures run.FeedError? ==> p == Halted(Panicked("failed to feed list of items to " + ProgramName(program)))
    ensures run.WaitError? ==> p == Halted(Panicked("failed to select with " + ProgramName(program)))
    ensures run.Finished? && !run.success ==> p == Picked(None)
    ensures run.Finished? && run.success && Utf8.Decode(run.stdout).None? ==> p.Halted? && p.outcome.Panicked?
    ensures run.Finished? && run.success && Utf8.Decode(run.stdout).Some? ==>
      p == Picked(Some(StripNewline(Utf8.Decode(run.stdout).value)))
  {
    var name := ProgramName(program);
    match run
    case SpawnError => Halted(Panicked("failed to spawn " + name))
    case FeedError => Halted(Panicked("failed to feed list of items to " + name))
    case WaitError => Halted(Panicked("failed to select with " + name))
    case Finished(success, stdout) =>
      if !success then Picked(None)
      else
        match Utf8.Decode(stdout)
        case None => Halted(Panicked("invalid utf-8"))
        case Some(text) => Picked(Some(StripNewline(text)))
  }

  /** A successful binary run that printed a line and its newline chooses
      exactly that line. */
  lemma BinaryPickLine(program: string, line: string)
    ensures BinaryPick(program, Finished(true, Utf8.Encode(line + "\n"))) == Picked(Some(line))
  {
    Utf8.DecodeEncode(line + "\n");
    StripNewlineInverse(line);
  }

  /** What the skim library returns when it ran: whether the user aborted,
      and the selected items' output texts in order. */
  datatype SkimOutput = SkimOutput(isAbort: bool, selected: seq<string>)

  /** The exit code of an aborted skim session: 130 in the live engine, 1
      in the older copies. */
  function AbortCode(variant: Variant): (code: int)
    ensures code == (if variant == Live then 130 else 1)
  {
    if variant == Live then 130 else 1
  }

  /** The library's result as a choice: no session or no selection means no
      choice, an abort ends the process, otherwise the first selected item. */
  function SkimPick(variant: Variant, output: Option<SkimOutput>): (p: Pick)
    ensures output.None? ==> p == Picked(None)
    ensures output.Some? && output.value.isAbort ==> p == Halted(Exited(AbortCode(variant)))
    ensures output.Some? && !output.value.isAbort ==>
      p == Picked(if |output.value.selected| == 0 then None else Some(output.value.selected[0]))
  {
    match output
    case None => Picked(None)
    case Some(out) =>
      if out.isAbort then Halted(Exited(AbortCode(variant)))
      else if |out.selected| == 0 then Picked(None)
      else Picked(Some(out.selected[0]))
  }

  /** A pick never halts with a `Done` or `Failed` outcome: pickers end the
      run only by exiting or panicking. */
  lemma PicksHaltByExitOrPanic(variant: Variant, program: string, run: BinaryRun, output: Option<SkimOutput>)
    ensures BinaryPick(program, run).Halted? ==> BinaryPick(program, run).outcome.Panicked?
    ensures SkimPick(variant, output).Halted? ==> SkimPick(variant, output).outcome.Exited?
  {
  }

  /** How reading a line of free text can fail. */
  datatype ReadlineError = Interrupted | Eof | OtherReadError(message: string)

  /** The error message for a failed read: `Interrupted` for Ctrl-C, `EOF`
      for Ctrl-D, the underlying message otherwise. */
  function ReadlineMessage(e: ReadlineError): (message: string)
    ensures e.Interrupted? ==> message == "Interrupted"
    ensures e.Eof? ==> message == "EOF"
    ensures e.OtherReadError? ==> message == e.message
  {
    match e
    case Interrupted => "Interrupted"
    case Eof => "EOF"
    case OtherReadError(m) => m
  }
}
