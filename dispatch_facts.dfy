/**
 * What one Select or one Command does, proved about the `Engine` functions:
 * the Select round trip from a picked label back to its child, the
 * preselection gate, and how a Command ends.
 */
module DispatchFacts {
  import opened Wrappers
  import opened Strings
  import opened Actions
  import opened Shell
  import opened Template
  import opened Menu
  import opened TextLines
  import opened Pickers
  import opened SkimChannel
  import opened Engine
  import opened EngineFacts
  import Utf8

  /** The picker is offered exactly one candidate per child, in map order:
      the labels as lines of text, or (in the channel experiment) as items. */
  lemma {:induction false} CandidatesAreLabels(env: Env, description: Option<string>, options: seq<(string, Action)>)
    requires env.variant != ArcSend ==> PlainLabels(Labels(env.variant, description, options))
    ensures var input := SelectInput(env, description, options);
      var labels := Labels(env.variant, description, options);
      && (env.variant != ArcSend ==> input.Text? && Lines(input.text) == labels)
      && (env.variant == ArcSend ==>
            input.Items? && seq(|input.items|, k requires 0 <= k < |input.items| => input.items[k].Output()) == labels)
  {
    var labels := Labels(env.variant, description, options);
    if env.variant == ArcSend {
      WrapOutputs(labels);
    } else {
      LinesOfJoin(labels);
    }
  }

  /** Picking the label of child `i` runs child `i`, and only the live
      engine counts the descent, by exactly one.  (`RunSelect` is `Descend`
      applied to the choice, so this is the Select's step after any pick.) */
  lemma {:induction false} PickedLabelRunsChild(env: Env, description: Option<string>, options: seq<(string, Action)>, chosen: (Pick, State), i: nat)
    requires DistinctKeys(options) && i < |options| && ':' !in options[i].0
    requires chosen.0 == Picked(Some(Labels(env.variant, description, options)[i]))
    ensures var s1 := chosen.1;
      Descend(env, description, options, chosen) ==
        Run(env, options[i].1, if env.variant == Live then s1.(numRuns := s1.numRuns + 1) else s1)
  {
    LabelFindsChild(env.variant, description, options, i);
    DescendPicked(env, description, options, chosen, Labels(env.variant, description, options)[i], i);
  }

  /** The key recovered from child `i`'s label looks up child `i`. */
  lemma LabelFindsChild(variant: Variant, description: Option<string>, options: seq<(string, Action)>, i: nat)
    requires DistinctKeys(options) && i < |options| && ':' !in options[i].0
    ensures FindIndex(options, KeyOf(Labels(variant, description, options)[i])) == Some(i)
  {
    var d := if variant == Live then options[i].1.description else description;
    assert Labels(variant, description, options)[i] == Label(options[i].0, d);
    KeyOfLabel(options[i].0, d);
    FindIndexOfKey(options, i);
  }

  /** The Select step once the picked line's key has been found. */
  lemma DescendPicked(env: Env, description: Option<string>, options: seq<(string, Action)>, chosen: (Pick, State), line: string, i: nat)
    requires i < |options|
    requires chosen.0 == Picked(Some(line))
    requires FindIndex(options, KeyOf(line)) == Some(i)
    ensures Descend(env, description, options, chosen) ==
      Run(env, options[i].1, if env.variant == Live then chosen.1.(numRuns := chosen.1.numRuns + 1) else chosen.1)
  {
  }

  /** A picked line whose key names no child ends the Select quietly, as
      does an empty pick.  (`RunSelect` is `Descend` applied to the choice.) */
  lemma {:induction false} UnknownKeyIsNoOp(env: Env, description: Option<string>, options: seq<(string, Action)>, chosen: (Pick, State))
    requires chosen.0.Picked?
    requires chosen.0.choice.Some? ==> forall k :: 0 <= k < |options| ==> options[k].0 != KeyOf(chosen.0.choice.value)
    ensures Descend(env, description, options, chosen) == (Done, chosen.1)
  {
    if chosen.0.choice.Some? {
      assert FindIndex(options, KeyOf(chosen.0.choice.value)).None?;
    }
  }

  /** A `--command` that names a (colon-free) key replaces the first
      picker: the Select descends into that child at once, with nothing
      logged and the counter moved to one. */
  lemma {:induction false} PreselectedKeyDescends(env: Env, description: Option<string>, options: seq<(string, Action)>, s: State, i: nat)
    requires PreselectionOpen(env, s) && DistinctKeys(options) && i < |options|
    requires env.handler.command == Some(options[i].0) && ':' !in options[i].0
    ensures RunSelect(env, description, options, s) == Run(env, options[i].1, s.(numRuns := 1))
  {
    FindIndexOfKey(options, i);
    KeyOfLabel(options[i].0, None);
  }

  /** A `--command` naming no key exits with status 1 after one report that
      lists every key separated by `, `, and no picker is called. */
  lemma {:induction false} InvalidPreselectionExits(env: Env, description: Option<string>, options: seq<(string, Action)>, s: State)
    requires PreselectionOpen(env, s)
    requires forall k :: 0 <= k < |options| ==> options[k].0 != env.handler.command.value
    ensures RunSelect(env, description, options, s) ==
      (Exited(1), s.(log := s.log + [Reported("[jaime error]: " + env.handler.command.value
        + " is an invalid selection and doesn't match any of the keys you have in your configuration file.\nAvailable keys are: "
        + Join(Keys(options), ", "))]))
  {
    InvalidPreselection(env, description, options, s);
    InvalidSelectionListsKeys(env.handler.command.value, Keys(options));
  }

  /** Once a descent has been counted, or without `--command`, or in the
      older copies, every Select asks the picker. */
  lemma {:induction false} ClosedGateAsksPicker(env: Env, description: Option<string>, options: seq<(string, Action)>, s: State)
    requires !PreselectionOpen(env, s)
    ensures Choose(env, description, options, s) == PickStep(env, SelectInput(env, description, options), None, s)
  {
  }

  /** The preselection is checked against the keys as written, but then
      cut at its first `:` like a picked line.  So a preselected key that
      contains `:` never runs its own child: it runs the child whose key is
      the text before the colon, if there is one, and otherwise the run ends
      quietly. */
  lemma {:induction false} ColonKeyPreselection(env: Env, description: Option<string>, options: seq<(string, Action)>, s: State, i: nat)
    requires PreselectionOpen(env, s) && i < |options|
    requires env.handler.command == Some(options[i].0) && ':' in options[i].0
    ensures var found := FindIndex(options, KeyOf(options[i].0));
      && (found.Some? ==>
            found.value != i && RunSelect(env, description, options, s) == Run(env, options[found.value].1, s.(numRuns := 1)))
      && (found.None? ==> RunSelect(env, description, options, s) == (Done, s))
  {
    var key := options[i].0;
    assert FindIndex(options, key).Some?;
    var chosen := Choose(env, description, options, s);
    assert chosen == (Picked(Some(key)), s);
    assert RunSelect(env, description, options, s) == Descend(env, description, options, chosen);
    var found := FindIndex(options, KeyOf(key));
    if found.Some? {
      DescendPicked(env, description, options, chosen, key, found.value);
    }
  }

  /** With the keys `a:b` and `a`, `--command a:b` runs the child `a`. */
  lemma ColonKeyPreselectionRedirects(env: Env, description: Option<string>, s: State, first: Action, second: Action)
    requires PreselectionOpen(env, s) && env.handler.command == Some("a:b")
    ensures RunSelect(env, description, [("a:b", first), ("a", second)], s) == Run(env, second, s.(numRuns := 1))
  {
    var options := [("a:b", first), ("a", second)];
    FirstIndexAfter("a", ':', "b");
    assert "a:b" == "a" + [':'] + "b";
    assert KeyOf("a:b") == "a";
    assert FindIndex(options, "a") == Some(1);
    ColonKeyPreselection(env, description, options, s, 0);
  }

  /** With `a:b` the only key, `--command a:b` passes the check, finds no
      child, and the run ends quietly. */
  lemma ColonKeyPreselectionIsNoOp(env: Env, description: Option<string>, s: State)
    requires PreselectionOpen(env, s) && env.handler.command == Some("a:b")
    ensures RunSelect(env, description, [("a:b", Command(None, "true", None))], s) == (Done, s)
  {
    var options := [("a:b", Command(None, "true", None))];
    FirstIndexAfter("a", ':', "b");
    assert "a:b" == "a" + [':'] + "b";
    assert KeyOf("a:b") == "a";
    assert FindIndex(options, "a").None?;
    ColonKeyPreselection(env, description, options, s, 0);
  }

  /** How a Command ends: with its arguments collected, by launching the
      template with all of them substituted; on a cancelled pick, quietly
      and without launching; on a failure, exit or panic, with that outcome
      and without launching. */
  lemma {:induction false} CommandOutcome(env: Env, template: string, widgets: seq<Widget>, s: State)
    ensures var (c, s1) := Collect(env, widgets, [], s);
      && Quiet(s, s1)
      && (c.Collected? ==>
            |c.args| == |widgets| &&
            RunCommand(env, template, widgets, s) == LaunchStep(env, SubstituteFirst(template, c.args, |widgets|), s1))
      && (c.Cancelled? ==> RunCommand(env, template, widgets, s) == (Done, s1))
      && (c.Stopped? ==> RunCommand(env, template, widgets, s) == (c.outcome, s1) && !c.outcome.Done?)
  {
    CollectFacts(env, widgets, [], s);
  }

  /** The launched process runs the command through the chosen shell with
      the cache directory exported, and the run succeeds whatever the
      command's exit status; only a failure to spawn is an error. */
  lemma LaunchIgnoresStatus(env: Env, command: string, s: State)
    ensures var process := ShellProcess(ShellOf(env), command, env.cacheDirectory);
      var result := env.world.launch(|s.log|, process);
      && LaunchStep(env, command, s).1 == s.(log := s.log + [Launched(process, result)])
      && (result.LaunchExited? ==> LaunchStep(env, command, s).0 == Done)
      && (result.LaunchSpawnError? ==> LaunchStep(env, command, s).0 == Failed(result.message))
  {
  }

  /** A free-text widget whose read fails stops the Command with the read's
      error (`Interrupted`, `EOF`, or the underlying message). */
  lemma FreeTextFailureStops(env: Env, widgets: seq<Widget>, args: seq<string>, s: State)
    requires |args| < |widgets| && widgets[|args|] == FreeText
    requires env.world.readLine(|s.log|).ReadFailed?
    ensures Collect(env, widgets, args, s).0 == Stopped(Failed(ReadlineMessage(env.world.readLine(|s.log|).error)))
  {
  }

  /** In the channel experiment the captured output reaches the picker as
      one item per line: output made of plain lines joined by newlines gives
      back exactly those lines. */
  lemma {:induction false} ArcSendCapturesLines(env: Env, command: string, s: State, ls: seq<string>)
    requires env.variant == ArcSend
    requires PlainLabels(ls)
    requires env.world.capture(|s.log|, ShellProcess(ShellOf(env), command, env.cacheDirectory))
      == CaptureOutput(Utf8.Encode(Join(ls, "\n")))
    ensures CaptureStep(env, command, s).0 == Continue(Items(Wrap(ls)))
  {
    Utf8.DecodeEncode(Join(ls, "\n"));
    LinesOfJoin(ls);
  }
}
