# jaime action-tree engine in Dafny

jaime is an interactive command launcher. A YAML file describes a tree of
menus (`Select`) and commands (`Command`). jaime walks the user through it:
- at each `Select` the user picks one child;
- at each `Command` the user supplies one argument per widget, either typed
  as free text or picked from the output of a shell command;
- finally jaime runs the command's template, with `{0}`, `{1}`, …
  replaced by those arguments.

This project models the engine that performs that walk, `Action::run`, in
all three copies found in the repository:
- **Live** — `src/runner.rs`;
- **Library** — the older `src/lib.rs`;
- **ArcSend** — the channel experiment `extra/lib_arcsend.rs`.

It also models the pure pieces around the engine:
- the shell argument vector;
- the shell choice;
- the option lookup in `SKIM_DEFAULT_OPTIONS`;
- the arguments given to the fzf/sk binaries and how their output is trimmed;
- the readline error mapping;
- Rust's `str::replace`, `str::lines` and UTF-8 validation, which the engine
  relies on.

The model comes in two layers:
- `Engine` states a run as a **function** of its inputs: the configuration,
  the flags, the environment, and the answers of the outside world.
- `Runner.Session` is the **imperative** walk, the way the source writes it:
  - a `for` loop pushes arguments onto a vector;
  - a `while` loop rewrites the command one placeholder at a time;
  - a counter field stands for `NUM_RUNS`;
  - an event log records every interaction with the outside world.

Every method of `Session` is proved to compute exactly what the
corresponding `Engine` function specifies. The properties of the walk are
then proved about those functions, in `EngineFacts` and `DispatchFacts`.

How the outside world is modelled:
- Line reads, command captures, the pickers and the final launch are total
  functions of the position in the event log, collected in `World`.
- A run is therefore deterministic given the world's answers.
- The log records what was asked of the world: the process argv and
  environment, the picker's options and input.

Files:
- `wrappers.dfy` — `Option`.
- `strings.dfy` — joins, suffixes, decimal rendering of indices.
- `replace.dfy` — `str::replace`.
- `template.dfy` — `{i}` substitution.
- `utf8.dfy` — `from_utf8`.
- `lines.dfy` — `str::lines`.
- `actions.dfy` — the configuration tree.
- `shell.dfy` — the shell argv.
- `menu.dfy` — labels and keys.
- `skim_options.dfy` — `SKIM_DEFAULT_OPTIONS`.
- `pickers.dfy` — the pickers and readline.
- `channel.dfy` — `SkimJaime` and `skim_items`.
- `engine.dfy` — the specification of `Action::run`.
- `session.dfy` — the imperative walk.
- `engine_facts.dfy` and `dispatch_facts.dfy` — properties of the walk.
- `example.dfy` — an end-to-end example.

Behaviour of the code worth noting:
- **No cancellation flag.** The code has no signal-handled cancellation
  flag. The only ways to abandon a run are:
  - a picker that returns nothing, which ends the run quietly with `Ok`;
  - a skim abort, which exits the process with status 130 in runner.rs and
    status 1 in lib.rs and lib_arcsend.rs.
- **Empty descriptions still get a suffix.** A label is `k: d` whenever the
  description is `Some(d)`, even when `d` is empty.
- **An unknown key is not an error.** A picked line whose key names no child
  ends the Select with `Ok`.
- **Candidates follow HashMap order.** Candidates and the invalid-selection
  key list follow the map's iteration order, not insertion order. The model
  takes the order as given and claims nothing about it.
- **A colon in a preselected key.** A preselection is checked against the
  keys verbatim, but is then cut at its first `:` like a picked line. A
  preselected key that itself contains `:` therefore passes the check but
  never runs its own child. It runs the child whose key is the text before
  the colon, if there is one: with keys `a` and `a:b`, `--command a:b` runs
  `a`. Otherwise the run ends with `Ok` (`DispatchFacts.ColonKeyPreselection`).

## Model

| member | source | states |
|---|---|---|
| Strings.StripTerminatedIsJoin | src/runner.rs:433-443 | appending `, ` after every key and stripping one trailing `, ` is exactly joining the keys with `, ` |
| Strings.TerminatedSnoc | src/runner.rs:433-436 | each fold step appends the key and one separator to the accumulator |
| Strings.FirstIndexOf | src/runner.rs:458-459 | the index of the first occurrence of a character: none before it, the character at it, or the length when absent |
| Strings.FirstIndexAfter | src/runner.rs:458-459 | in `line + c + rest` with `c` absent from `line`, the first `c` is at `|line|` |
| Strings.Decimal | src/runner.rs:363 | the decimal rendering of an index is non-empty, all digits, with no leading zero except for 0 |
| Strings.DecimalRoundTrip | src/runner.rs:363 | reading back the rendered digits gives the index |
| Strings.DecimalInjective | src/runner.rs:363 | distinct indices render differently |
| StrReplace.Replace | src/runner.rs:363 | `s.replace(from, to)`, scanning left to right without overlap; it has no contract of its own, and its meaning is proved by `ReplaceIsSplitJoin`, `PiecesFree`, `ReplaceAbsent` and `ReplacePrefixFree` |
| StrReplace.Split | src/runner.rs:363 | `str::replace` scans the text into at least one piece |
| StrReplace.ReplaceIsSplitJoin | src/runner.rs:363 | `replace(from, to)` is the text cut at the non-overlapping left-to-right occurrences of `from`, rejoined with `to` |
| StrReplace.JoinSplit | src/runner.rs:363 | rejoining the pieces with `from` gives the original text back |
| StrReplace.PiecesFree | src/runner.rs:363 | no piece contains `from`, so every occurrence is replaced |
| StrReplace.FirstPieceIsPrefix | src/runner.rs:363 | the first piece is the text before the first occurrence |
| StrReplace.ReplaceAbsent | src/runner.rs:363 | replacing a pattern that does not occur leaves the text unchanged |
| StrReplace.AbsentChar | src/runner.rs:363 | a pattern with a character absent from the text does not occur in it |
| Template.Placeholder | src/runner.rs:363 | `{i}` is a brace, the digits of `i`, and a closing brace |
| Template.PlaceholderInjective | src/runner.rs:363 | different indices have different placeholders |
| Template.SubstituteFirst | src/runner.rs:361-364 | the template with `{0}`, …, `{n-1}` replaced in that order, each by the argument of the same index; it has no contract of its own: the loops at src/runner.rs:362-364 and 395-397 are proved to compute it (`Template.Substitute`), and `SubstituteReadsOnlyPrefix` and `SubstituteWithoutBrace` state its properties |
| Template.Substitute | src/runner.rs:361-364 | the replace loop, limited to the first `limit` arguments, computes the sequential substitution of `{0}`, `{1}`, … in that order |
| Template.SubstituteReadsOnlyPrefix | src/runner.rs:361-364 | at step `index` only the first `index` arguments can affect the command |
| Template.SubstituteWithoutBrace | src/runner.rs:393-397 | a template without `{` is unchanged by substitution |
| Template.SequentialSubstitution | src/runner.rs:395-397 | substitution is sequential: an argument containing `{1}` is rewritten by the later step (`{0} {1}` with `{1}`, `x` gives `x x`) |
| Template.RunFooBar | src/runner.rs:393-397 | `run {0} {1}` with `foo`, `bar` gives `run foo bar` |
| Template.ForwardReferenceKept | src/runner.rs:361-364 | at step 1 only `{0}` is replaced; `{1}` stays literally |
| Template.ReplacePrefixFree | src/runner.rs:363 | replacing in `a + from + b`, when the first character of `from` does not occur in `a` and `from` does not occur in `b`, rewrites exactly the middle occurrence |
| Utf8.Decode | src/runner.rs:120-128 | `from_utf8(..).ok()`: text it accepts encodes back to exactly the input bytes (the converse of `DecodeEncode`) |
| Utf8.Encode | src/runner.rs:120-128 | `as_bytes()`: one to four bytes per character |
| Utf8.LeadLength | src/runner.rs:120-128 | the length of a well-formed UTF-8 sequence at the front, 0 when it is not well formed, never more than 4 |
| Utf8.LeadIsEncoding | src/runner.rs:120-128 | the accepted sequences are exactly encodings: the bytes accepted at the front are the encoding of the character they decode to |
| Utf8.LeadValue | src/runner.rs:120-128 | a well-formed sequence decodes to a Unicode scalar value (no surrogate, at most U+10FFFF) |
| Utf8.EncodeChar | src/runner.rs:120-128 | a character encodes to one to four bytes |
| Utf8.EncodeCharDecodes | src/runner.rs:120-128 | the encoding of a character is read back as that character |
| Utf8.DecodeEncode | src/runner.rs:120-128 | UTF-8 validation accepts every encoded string and gives it back |
| Utf8.AsciiDecodes | src/runner.rs:120-128 | ASCII bytes are valid and decode one character per byte |
| Utf8.InvalidByteRejected | src/runner.rs:120-128 | a byte C0, C1, F5-FF or a stray continuation byte after valid text makes the output invalid |
| Utf8.LeadLengthExtends | src/runner.rs:120-128 | the validity of a lead sequence depends only on its own bytes |
| TextLines.StripCarriageReturn | extra/lib_arcsend.rs:181-184 | one trailing `\r` is removed from a line; a line without one is unchanged |
| TextLines.Lines | extra/lib_arcsend.rs:181-184 | no line produced by `lines()` contains a newline |
| TextLines.LinesCons | extra/lib_arcsend.rs:181-184 | the first line is the text up to the first newline, less one trailing carriage return |
| TextLines.LinesOfOne | extra/lib_arcsend.rs:181-184 | a non-empty text without newline is one line |
| TextLines.LinesOfJoin | extra/lib_arcsend.rs:181-184 | lines joined with newlines split back into exactly those lines |
| TextLines.FinalNewlineAddsNothing | extra/lib_arcsend.rs:181-184 | a final newline adds no empty line |
| TextLines.LinesOfCrlfJoin | extra/lib_arcsend.rs:181-184 | `\r\n` endings are stripped: lines joined with `\r\n` split back into exactly those lines |
| TextLines.CrlfLine | extra/lib_arcsend.rs:181-184 | a line ended by `\r\n` loses both characters and nothing else |
| Actions.IntoAction | src/runner.rs:55-60 | the configuration becomes the root Select with its options and description |
| Actions.Keys | src/runner.rs:433 | one key per child, in map order |
| Actions.FindIndex | src/runner.rs:456-466 | `options.get(key)`: an entry with that key, or none exactly when no entry has it |
| Actions.FindIndexOfKey | src/runner.rs:456-466 | with distinct keys, looking up a child's key finds that child |
| Shell.ChooseShell | src/runner.rs:343-346 | the configured shell, else `$SHELL`, else `sh` |
| Shell.StrictFlags | src/runner.rs:90-97 | the strict-mode flags are options (each starts with `-`), never `-c`, and only zsh and bash get any |
| Shell.ShellArgv | src/runner.rs:87-106 | the argv starts with the shell, ends with `-c` and the command as one argument, and has the strict flags in between |
| Shell.ShellArgvTable | src/runner.rs:87-106 | zsh gets `--shwordsplit --no-unset --errexit`, bash gets `-e -u`, any other shell gets no flags |
| Shell.CommandRecoverable | src/runner.rs:100-102 | the command is passed verbatim: equal argvs mean equal commands |
| Shell.ShellProcess | src/runner.rs:108-130 | capture and interactive runs use the same argv and export `JAIME_CACHE_DIR` |
| Menu.Label | src/runner.rs:406-423 | `k: d` when there is a description `d`, even an empty one, else `k` |
| Menu.Labels | src/runner.rs:405-425 | one label per child; the live engine describes each child by the child's own description, while the older copies use the Select's description (src/lib.rs:326-336) |
| Menu.KeyOf | src/runner.rs:456-461 | the recovered key has no `:`, is a prefix of the line, and is followed by `:` unless it is the whole line |
| Menu.KeyOfLabel | src/runner.rs:456-461 | a colon-free key is recovered from its label whatever the description, including descriptions with colons |
| Menu.KeyOfIdempotent | src/runner.rs:456-461 | recovering a key twice changes nothing |
| Menu.InvalidSelectionListsKeys | src/runner.rs:433-444 | the invalid-selection message lists every key separated by `, `, with no trailing separator |
| Menu.InvalidSelectionMessage | src/runner.rs:437-444 | the message starts with `[jaime error]: ` and the rejected selection; its key list is stated by `InvalidSelectionListsKeys` |
| SkimOptions.LookupOption | src/runner.rs:151-196 | a looked-up value is the default or one of the tokens; a lookup panics only when the last token mentions the flag |
| SkimOptions.FindInline | src/runner.rs:155-158 | the first token carrying the option's value inline: it mentions the flag, is not the bare flag, and for colours holds no `{}` |
| SkimOptions.Position | src/runner.rs:159-162 | the first token that mentions the flag |
| SkimOptions.LookupCases | src/runner.rs:151-196 | a lookup gives the first inline token; else the default when no token mentions the flag; it panics exactly when there is no inline token and the only mention is the last token |
| SkimOptions.SeparateValue | src/runner.rs:151-196 | for any default and either colour rule, a bare flag followed by a value, as in `--height 40%`, with no earlier mention and no inline form after, gives that value |
| SkimOptions.Binds | src/runner.rs:199-205 | the `--bind` tokens: every token mentioning `--bind` is kept, and every kept item is such a token |
| SkimOptions.BindsOfOne | src/runner.rs:199-205 | one token is kept exactly when it mentions `--bind` |
| SkimOptions.BindsAppend | src/runner.rs:199-205 | the filter keeps order and multiplicity: the binds of `a + b` are those of `a` followed by those of `b` |
| SkimOptions.AnyMentions | src/runner.rs:206-209 | a toggle is on exactly when some token mentions it |
| SkimOptions.BuildDefaults | src/runner.rs:133-212 | with no tokens, skim runs with margin `0%`, height `50%`, layout `default`, skim's theme, no binds, no toggles, single selection |
| SkimOptions.BuildPanicsOnlyOnDanglingFlag | src/runner.rs:151-212 | the options build fails exactly when one of the four lookups panics, and otherwise passes the preview and turns off multi-selection |
| SkimOptions.Build | src/runner.rs:133-212 | a built configuration passes the preview on, binds exactly `Binds(tokens)`, has multi-selection off, and takes each of margin, height, layout and colour from its default or from a token; building fails only when there are tokens |
| Pickers.PreviewArgs | src/runner.rs:242-247 | with a preview: `--preview p --preview-window :nohidden`; without: `--preview-window :hidden` |
| Pickers.PreviewWindowOpenIff | src/runner.rs:242-247 | the preview window is opened exactly when there is a preview command, which is passed as one argument |
| Pickers.StripNewline | src/runner.rs:275 | one trailing newline is removed; other text is unchanged |
| Pickers.StripNewlineInverse | src/runner.rs:275 | stripping undoes adding one newline, and removes only one |
| Pickers.ProgramName | src/runner.rs:257-310 | the panic messages name `fzf` as `fzf` and `sk` as `skim` |
| Pickers.BinaryPick | src/runner.rs:257-278 | a failure to spawn, feed or wait panics with `failed to spawn`, `failed to feed list of items to` or `failed to select with` and the program's name (also src/runner.rs:298-310); a non-success status is no choice; otherwise the output must be UTF-8 (else a panic) and loses one trailing newline |
| Pickers.BinaryPickLine | src/runner.rs:269-277 | a successful run that printed a line and a newline chooses exactly that line |
| Pickers.AbortCode | src/runner.rs:228-229 | an aborted skim session exits with 130 in the live engine and 1 in the older copies (src/lib.rs:249-250) |
| Pickers.SkimPick | src/runner.rs:224-234 | no session or no selection is no choice, an abort exits, otherwise the first selected item's output |
| Pickers.PicksHaltByExitOrPanic | src/runner.rs:224-278 | pickers end a run only by exiting or panicking |
| Pickers.ReadlineMessage | src/runner.rs:324-334 | Ctrl-C gives `Interrupted`, Ctrl-D gives `EOF`, other errors keep their message |
| SkimChannel.SkimJaime.Display | extra/lib_arcsend.rs:80-82 | an item is displayed as its line |
| SkimChannel.SkimJaime.Text | extra/lib_arcsend.rs:84-86 | an item is matched on its line |
| SkimChannel.SkimJaime.Output | extra/lib_arcsend.rs:88-90 | an item outputs its line |
| SkimChannel.Wrap | extra/lib_arcsend.rs:182-183 | one item per line, in order, each outputting its line |
| SkimChannel.WrapOutputs | extra/lib_arcsend.rs:182-183 | the outputs of the items are exactly the lines |
| SkimChannel.BoundedChannel.constructor | extra/lib_arcsend.rs:313-314 | a new channel is empty, with the given capacity |
| SkimChannel.BoundedChannel.Send | extra/lib_arcsend.rs:317 | sending into a channel with room appends the item |
| SkimChannel.BoundedChannel.ReceiveAll | extra/lib_arcsend.rs:312-321 | receiving drains the channel in sending order |
| SkimChannel.SkimItems | extra/lib_arcsend.rs:312-321 | `skim_items` returns a channel with room for exactly the items, holding them all in order |
| Engine.ShellOf | src/runner.rs:343-346 | the shell of every process: the configured one, else `$SHELL`, else `sh` |
| Engine.ReadStep | src/runner.rs:357-358 | one line read, logged; a line continues with that text, a readline error stops with its mapped message |
| Engine.CaptureStep | src/runner.rs:366-367 | one capture of the command through the shell, logged; it stops only with a failure, and continues exactly when the spawn succeeded and the output is UTF-8, with that text (as one item per line in the channel experiment, extra/lib_arcsend.rs:352-354) |
| Engine.InputText | src/runner.rs:369-378 | the text fed to a picker binary: the captured text, or items joined by newlines from which `lines()` gives the items back |
| Engine.BinaryStep | src/runner.rs:238-310 | one run of `fzf` or `sk` with the preview arguments, logged, read by `BinaryPick`; it ends the run only by a panic |
| Engine.LibraryStep | src/runner.rs:133-235 | a dangling flag panics and a builder error panics in the live engine or is returned by the older copies (src/lib.rs:237-238), with nothing logged; otherwise one skim session, logged, read by `SkimPick` |
| Engine.PickStep | src/runner.rs:369-381 | `--fzf`, then `--skim-binary`, then the skim library, and only the library in the older copies; at most one event is logged and the counter is unchanged |
| Engine.LaunchStep | src/runner.rs:87-106 | one interactive run through the shell, logged; `Ok` exactly when it spawned, whatever its exit status, else the spawn error |
| Engine.Gather | src/runner.rs:356-388 | one widget: free text never cancels and gives the line read; a command widget whose capture fails stops with that failure; the counter is unchanged |
| Engine.Collect | src/runner.rs:352-391 | the widget loop from the arguments so far: one argument per widget, stopping at the first cancelled pick or halt; it has no contract of its own, and `EngineFacts.CollectFacts` states its guarantees |
| Engine.RunCommand | src/runner.rs:349-400 | a Command: collect, then launch the template with the arguments substituted; a cancelled pick gives `Ok`; it has no contract of its own, and `DispatchFacts.CommandOutcome` states its result |
| Engine.Run | src/runner.rs:342-470 | `Action::run`: a Command runs `RunCommand`, a Select runs `RunSelect`; it has no contract of its own, and `EngineFacts.RunFacts` states the guarantees of every walk |
| Engine.SelectInput | src/runner.rs:405-425 | the candidates: the labels joined by newlines, or in the channel experiment one item per child wrapping its label (extra/lib_arcsend.rs:380-391) |
| Engine.PreselectionOpen | src/runner.rs:428 | the preselection gate: the live engine, `--command` given, and no descent counted yet |
| Engine.Choose | src/runner.rs:427-453 | the preselection while the gate is open, which never yields "no choice", else the picker with no preview |
| Engine.Preselect | src/runner.rs:429-446 | the selection is the picked line exactly when it is a key, with nothing logged; otherwise one report listing the keys and exit 1 |
| Engine.RunSelect | src/runner.rs:401-468 | a Select: choose a line, then `Descend`; it has no contract of its own, and `EngineFacts.SelectFacts` and the `DispatchFacts` lemmas state its behaviour |
| Engine.Descend | src/runner.rs:455-467 | after the choice: a halt ends the run, no line gives `Ok`, otherwise the key cut at the first `:` is looked up, an unknown key gives `Ok`, and a known one runs that child with the counter bumped in the live engine; it has no contract of its own, and `PickedLabelRunsChild` and `UnknownKeyIsNoOp` state it |
| Runner.Session.constructor | src/runner.rs:29 | a session starts with the counter at 0 and an empty log |
| Runner.Session.ReadLine | src/runner.rs:324-334 | one line read, logged, with its error mapped |
| Runner.Session.Capture | src/runner.rs:108-130 | one capture, logged; a spawn failure or invalid UTF-8 is an error; in the channel experiment the lines go through `skim_items` (extra/lib_arcsend.rs:352-354) |
| Runner.Session.PickWithBinary | src/runner.rs:238-278 | one run of `fzf` or `sk` with the preview arguments, logged |
| Runner.Session.PickWithLibrary | src/runner.rs:133-234 | the options are built from the tokens (panicking on a dangling flag); a builder error panics in the live engine and is returned by the older copies (src/lib.rs:237-238); otherwise one skim session, logged |
| Runner.Session.Pick | src/runner.rs:372-381 | `--fzf`, then `--skim-binary`, then the skim library |
| Runner.Session.Launch | src/runner.rs:87-106 | one interactive run, logged; `Ok` whatever the exit status, an error only if it cannot spawn |
| Runner.Session.GatherOne | src/runner.rs:355-389 | one widget: a read, or a substitution of the earlier arguments, a capture and a pick |
| Runner.Session.RunCommand | src/runner.rs:350-398 | the widget loop and the final substitution and launch compute exactly the specified command run |
| Runner.Session.AvailableKeys | src/runner.rs:433-443 | the fold and strip compute the keys joined by `, ` |
| Runner.Session.Candidates | src/runner.rs:405-425 | the candidate lines, sent through `skim_items` in the channel experiment (extra/lib_arcsend.rs:380-391) |
| Runner.Session.Preselected | src/runner.rs:428-446 | a preselection naming a key is the picked line; otherwise one report and exit 1 |
| Runner.Session.ChooseLine | src/runner.rs:427-452 | the preselection only while the gate is open, else the picker |
| Runner.Session.RunSelect | src/runner.rs:400-468 | the Select branch computes exactly the specified Select run, bumping the counter before descending |
| Runner.Session.Run | src/runner.rs:342-469 | the whole recursive walk computes exactly `Engine.Run` |
| EngineFacts.GatherFacts | src/runner.rs:355-389 | a widget step never launches or reports, and ends the run only with a failure, exit or panic |
| EngineFacts.CollectFacts | src/runner.rs:352-389 | each step appends exactly one argument or returns, so complete collection has one argument per widget and extends the earlier ones |
| EngineFacts.InvalidPreselection | src/runner.rs:433-446 | an invalid preselection yields exit 1 and exactly one report |
| EngineFacts.ChooseQuiet | src/runner.rs:427-452 | otherwise choosing only picks, with no launch, report or counter change |
| EngineFacts.RunFacts | src/runner.rs:342-469 | over the whole walk: the log only grows; the counter never decreases and only the live engine moves it; at most one launch or report, and only as the last event; no report once the preselection gate is closed |
| EngineFacts.SelectFacts | src/runner.rs:400-468 | the same guarantees for a Select |
| EngineFacts.RejectFacts | src/runner.rs:433-446 | the same guarantees when a preselection is rejected |
| EngineFacts.StopFacts | src/runner.rs:455-467 | the same guarantees when a Select stops without descending |
| EngineFacts.DescentFacts | src/runner.rs:462-464 | the same guarantees across a descent |
| DispatchFacts.CandidatesAreLabels | src/runner.rs:405-425 | the picker is offered exactly one candidate per child: the labels as lines when no label holds a line break, or as items whatever the labels hold in the channel experiment (extra/lib_arcsend.rs:380-391) |
| DispatchFacts.LabelFindsChild | src/runner.rs:456-461 | with distinct keys, the key cut from child `i`'s label, whatever its description, looks up child `i` |
| DispatchFacts.PickedLabelRunsChild | src/runner.rs:455-467 | once the picker returns child `i`'s label, the Select runs child `i`; the live engine counts the descent by exactly one, the older copies not at all (src/lib.rs:339-349) |
| DispatchFacts.UnknownKeyIsNoOp | src/runner.rs:455-467 | after the pick, no line, or a line whose key names no child, ends the Select with `Ok`, no recursion and nothing further logged |
| DispatchFacts.PreselectedKeyDescends | src/runner.rs:428-432 | a valid preselection descends at once, with no picker call and the counter at one |
| DispatchFacts.InvalidPreselectionExits | src/runner.rs:433-446 | an invalid preselection exits with 1 after reporting all keys joined by `, ` |
| DispatchFacts.ClosedGateAsksPicker | src/lib.rs:337 | with the gate closed, as always in the older copies, every Select asks the picker |
| DispatchFacts.ColonKeyPreselection | src/runner.rs:428-464 | for every Select, a preselected key containing `:` passes the check but never runs its own child: it runs the child keyed by the text before the colon with the counter at one, or, when there is none, ends with `Ok` and nothing changed |
| DispatchFacts.ColonKeyPreselectionRedirects | src/runner.rs:428-464 | with keys `a:b` and `a`, `--command a:b` runs `a` |
| DispatchFacts.ColonKeyPreselectionIsNoOp | src/runner.rs:428-464 | with `a:b` the only key, `--command a:b` ends quietly |
| DispatchFacts.CommandOutcome | src/runner.rs:352-398 | once collected, the template with all arguments substituted is launched; a cancelled pick gives `Ok` with no launch; a failure, exit or panic stops the command with no launch |
| DispatchFacts.LaunchIgnoresStatus | src/runner.rs:87-106 | the final run uses the chosen shell and cache directory, and succeeds whatever the exit status |
| DispatchFacts.FreeTextFailureStops | src/runner.rs:357-359 | a failed read stops the command with `Interrupted`, `EOF` or the underlying message |
| DispatchFacts.ArcSendCapturesLines | extra/lib_arcsend.rs:175-184 | captured output reaches the picker as exactly its lines, one item each |
| WorkedExample.EchoY | src/runner.rs:393-397 | `echo {0}` with `y` becomes `echo y` |
| WorkedExample.DeployCapture | src/runner.rs:366-367 | the widget's command is captured once and its output is text |
| WorkedExample.DeployPick | src/runner.rs:378-379 | the skim library, with default options, answers `y` |
| WorkedExample.DeployGather | src/runner.rs:360-388 | the `deploy` widget captures once, then the skim library picks `y` |
| WorkedExample.DeployCollect | src/runner.rs:352-389 | the widget loop collects the single argument `y` |
| WorkedExample.DeployRunsEchoY | src/runner.rs:342-469 | with `--command deploy` and the picker answering `y`, the run captures once, picks once, and launches `echo y` as its last event, with the counter at one |

## Left out

- `str::lines` is modelled as current Rust defines it (`TextLines.Lines`): a bare `\r` at the very end of the text, with no `\n` after it, stays in the last line. Toolchains from before late 2022 strip it as well. The source pins no toolchain.
- Process spawning, pipes, exit statuses and the terminal are not modelled. They are answers of the `World`, which the log records. The environment variables forwarded to the binaries (`FZF_DEFAULT_OPTS`, `SKIM_DEFAULT_OPTIONS`, src/runner.rs:253-255 and 294-296) are not modelled, because the child inherits them anyway.
- The skim TUI, the `fzf`/`sk` binaries and rustyline's editor are foreign code. They are scripted answers. The skim item reader that splits text into items is part of the picker answer.
- `shlex::split` of `SKIM_DEFAULT_OPTIONS` is an external tokeniser. The token list is an input (`Env.skimTokens`).
- `colored` styling is treated as the identity. Coloured labels are not claimed to survive a round trip through a picker.
- HashMap iteration order is unspecified. Children are a sequence in iteration order, and no ordering property is claimed.
- `NUM_RUNS` is a `Lazy<AtomicUsize>` with no concurrency. It is a plain counter field.
- On Windows the binaries are `fzf.exe` and `sk.exe`. Only the Unix names are modelled.
- The text of Rust's own panic messages is not modelled. Out-of-bounds indexing, `unwrap` of invalid UTF-8 and errors from `from_utf8` carry placeholder messages. The `expect` messages of the fzf/sk binaries are modelled.
- Pickers.BinaryPick: for invalid UTF-8 output, the contract states only that the run panics, not the panic's message.
- The skim options builder is foreign. Whether it fails is an input (`Env.buildError`). Builder fields the source does not set are not modelled.
- The `[jaime error]` prefix is printed in colour to stderr. It is modelled as a `Reported` event holding the uncoloured text.
- `src/main.rs` and `src/app.rs` are not modelled. They locate and parse the configuration, parse flags, and print the error and exit. `Handler` is three plain inputs.
- Serde tags and deserialisation are not part of this model.
