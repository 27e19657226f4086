/**
 * The candidate list shown at a Select and the recovery of the child key
 * from the picked line (src/runner.rs:405-425 and 455-461; src/lib.rs:326-344;
 * extra/lib_arcsend.rs:380-399), and the message printed for an invalid
 * preselection (src/runner.rs:433-444).
 */
module Menu {
  import opened Wrappers
  import opened Strings
  import opened Actions

  /** `k: d` when there is a description (even an empty one), else `k`. */
  function Label(key: string, description: Option<string>): (line: string)
    ensures description.Some? ==> line == key + ": " + description.value
    ensures description.None? ==> line == key
  {
    if description.Some? then key + ": " + description.value else key
  }

  /** The labels of a Select's children, one per child in map order.  The
      live engine describes each child by the child's own description; the
      older copies repeat the Select's own description on every line. */
  function Labels(variant: Variant, description: Option<string>, options: seq<(string, Action)>): (labels: seq<string>)
    ensures |labels| == |options|
    ensures variant == Live ==>
      forall i :: 0 <= i < |options| ==> labels[i] == Label(options[i].0, options[i].1.description)
    ensures variant != Live ==>
      forall i :: 0 <= i < |options| ==> labels[i] == Label(options[i].0, description)
  {
    seq(|options|, i requires 0 <= i < |options| =>
      Label(options[i].0, if variant == Live then options[i].1.description else description))
  }

  /** The key in a picked line: the text before its first `:`, or the whole
      line when there is none. */
  function KeyOf(line: string): (key: string)
    ensures ':' !in key
    ensures StartsWith(line, key)
    ensures |key| < |line| ==> line[|key|] == ':'
  {
    if ':' in line then line[..FirstIndexOf(line, ':')] else line
  }

  /** A colon-free key is recovered from its label, whatever the
      description (which may itself contain colons). */
  lemma {:induction false} KeyOfLabel(key: string, description: Option<string>)
    requires ':' !in key
    ensures KeyOf(Label(key, description)) == key
  {
    var line := Label(key, description);
    if description.Some? {
      var rest := " " + description.value;
      assert line == key + [':'] + rest;
      FirstIndexAfter(key, ':', rest);
      assert line[..|key|] == key;
    }
  }

  /** Recovering a key twice changes nothing. */
  lemma KeyOfIdempotent(line: string)
    ensures KeyOf(KeyOf(line)) == KeyOf(line)
  {
  }

  /** The live engine's candidate list is the labels joined by newlines; a
      line reader gives the labels back when no label holds a line break or
      ends with a carriage return and the last label is not empty. */
  predicate PlainLabels(labels: seq<string>) {
    && (forall k :: 0 <= k < |labels| ==> '\n' !in labels[k] && !EndsWith(labels[k], "\r"))
    && (|labels| > 0 ==> |labels[|labels| - 1]| > 0)
  }

  /** The message printed before exiting on an invalid preselection, built
      as the source builds it: every key followed by `, `, then one trailing
      `, ` removed. */
  function InvalidSelectionMessage(selection: string, keys: seq<string>): (message: string)
    ensures StartsWith(message, "[jaime error]: " + selection)
  {
    var message := "[jaime error]: " + selection
      + " is an invalid selection and doesn't match any of the keys you have in your configuration file.\nAvailable keys are: "
      + StripSuffixOr(Terminated(keys, ", "), ", ");
    assert message[..|"[jaime error]: " + selection|] == "[jaime error]: " + selection;
    message
  }

  /** The message lists all keys separated by `, `, with no trailing
      separator. */
  lemma InvalidSelectionListsKeys(selection: string, keys: seq<string>)
    ensures InvalidSelectionMessage(selection, keys) ==
      "[jaime error]: " + selection
        + " is an invalid selection and doesn't match any of the keys you have in your configuration file.\nAvailable keys are: "
        + Join(keys, ", ")
  {
    StripTerminatedIsJoin(keys, ", ");
  }
}
