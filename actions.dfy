/**
 * The launcher's configuration tree and the inputs that steer a run
 * (src/runner.rs:41-85, src/app.rs), with the three copies of the engine
 * distinguished by `Variant`.
 */
module Actions {
  import opened Wrappers

  /** Which copy of `Action::run` is modelled: the live one (src/runner.rs),
      the older library (src/lib.rs) or the channel experiment
      (extra/lib_arcsend.rs). */
  datatype Variant = Live | Library | ArcSend

  /** One argument-collection step of a command. */
  datatype Widget =
    | FromCommand(command: string, preview: Option<string>)
    | FreeText

  /** A node of the menu tree.  `options` stands for the `HashMap` of
      children: one entry per key, in the map's (unspecified) iteration
      order.  The older copies have no description on commands; there it is
      always `None`. */
  datatype Action =
    | Command(description: Option<string>, command: string, widgets: Option<seq<Widget>>)
    | Select(description: Option<string>, options: seq<(string, Action)>)

  /** The deserialised configuration file. */
  datatype Config = Config(options: seq<(string, Action)>, shell: Option<string>, description: Option<string>)

  /** The command-line flags the engine reads: `--command`, `--fzf`,
      `--skim-binary`. */
  datatype Handler = Handler(command: Option<string>, fzf: bool, skim: bool)

  /** How a run ends: `Ok(())`, an `Err` returned to `main`, a
      `process::exit(code)`, or a panic. */
  datatype Outcome =
    | Done
    | Failed(message: string)
    | Exited(code: int)
    | Panicked(message: string)

  /** `Config::into_action`: the whole configuration as the root Select. */
  function IntoAction(config: Config): (root: Action)
    ensures root.Select? && root.options == config.options && root.description == config.description
  {
    Select(config.description, config.options)
  }

  /** The widget list of a command; a missing list has no steps. */
  function WidgetList(widgets: Option<seq<Widget>>): seq<Widget>
  {
    if widgets.Some? then widgets.value else []
  }

  /** The keys of a HashMap are pairwise distinct. */
  predicate DistinctKeys(options: seq<(string, Action)>) {
    forall i, j :: 0 <= i < j < |options| ==> options[i].0 != options[j].0
  }

  function Keys(options: seq<(string, Action)>): (keys: seq<string>)
    ensures |keys| == |options| && forall i :: 0 <= i < |options| ==> keys[i] == options[i].0
  {
    seq(|options|, i requires 0 <= i < |options| => options[i].0)
  }

  /** `options.get(key)`, as the position of the entry with that key. */
  function FindIndex(options: seq<(string, Action)>, key: string): (r: Option<nat>)
    ensures r.Some? ==> r.value < |options| && options[r.value].0 == key
    ensures r.None? ==> forall i :: 0 <= i < |options| ==> options[i].0 != key
  {
    if |options| == 0 then None
    else if options[0].0 == key then Some(0)
    else
      var r := FindIndex(options[1..], key);
      if r.Some? then Some(r.value + 1) else None
  }

  /** With distinct keys, looking up an entry's key finds that entry. */
  lemma FindIndexOfKey(options: seq<(string, Action)>, i: nat)
    requires DistinctKeys(options) && i < |options|
    ensures FindIndex(options, options[i].0) == Some(i)
  {
  }
}
