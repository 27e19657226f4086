/**
 * The options handed to the skim library, read from the tokens of
 * `SKIM_DEFAULT_OPTIONS` (src/runner.rs:133-212; the same code is in
 * src/lib.rs:158-238 and extra/lib_arcsend.rs:187-269).  The tokens are an
 * input: splitting the variable shell-style is not part of this model.
 */
module SkimOptions {
  import opened Wrappers
  import opened Strings

  const DefaultMargin := "0%"
  const DefaultHeight := "50%"
  const DefaultLayout := "default"
  /** skim's own colour theme, used when no `--color` is given. */
  const DefaultTheme := "matched:108,matched_bg:0,current:254,current_bg:236,current_match:151,current_match_bg:236,spinner:148,info:144,prompt:110,cursor:161,selected:168,header:109,border:59"

  /** The value of one option, or the out-of-bounds panic of indexing past
      the last token. */
  datatype Lookup = Value(value: string) | IndexPanic

  datatype Options = Options(
    preview: Option<string>,
    margin: string,
    height: string,
    layout: string,
    color: string,
    bind: seq<string>,
    reverse: bool,
    tac: bool,
    noSort: bool,
    inlineInfo: bool,
    multi: bool)

  /** A token carrying the option's value in itself, like `--height=40%`:
      it mentions the flag without being the bare flag (and, for colours,
      holds no `{}`). */
  predicate Inline(token: string, flag: string, refuseBraces: bool) {
    Contains(token, flag) && token != flag && !(refuseBraces && Contains(token, "{}"))
  }

  /** `iter().find(...)` for the inline form. */
  function FindInline(tokens: seq<string>, flag: string, refuseBraces: bool): (r: Option<nat>)
    ensures r.Some? ==> r.value < |tokens| && Inline(tokens[r.value], flag, refuseBraces)
    ensures r.Some? ==> forall j :: 0 <= j < r.value ==> !Inline(tokens[j], flag, refuseBraces)
    ensures r.None? ==> forall j :: 0 <= j < |tokens| ==> !Inline(tokens[j], flag, refuseBraces)
  {
    if |tokens| == 0 then None
    else if Inline(tokens[0], flag, refuseBraces) then Some(0)
    else
      var r := FindInline(tokens[1..], flag, refuseBraces);
      if r.Some? then Some(r.value + 1) else None
  }

  /** `iter().position(...)` for any token mentioning the flag. */
  function Position(tokens: seq<string>, flag: string): (r: Option<nat>)
    ensures r.Some? ==> r.value < |tokens| && Contains(tokens[r.value], flag)
    ensures r.Some? ==> forall j :: 0 <= j < r.value ==> !Contains(tokens[j], flag)
    ensures r.None? ==> forall j :: 0 <= j < |tokens| ==> !Contains(tokens[j], flag)
  {
    if |tokens| == 0 then None
    else if Contains(tokens[0], flag) then Some(0)
    else
      var r := Position(tokens[1..], flag);
      if r.Some? then Some(r.value + 1) else None
  }

  /** One option's value: the first inline token; failing that, the token
      after the first one that mentions the flag; failing that, the default. */
  function LookupOption(tokens: seq<string>, flag: string, default: string, refuseBraces: bool): (r: Lookup)
    ensures r.Value? ==> r.value == default || r.value in tokens
    ensures r.IndexPanic? ==> |tokens| > 0 && Contains(tokens[|tokens| - 1], flag)
  {
    match FindInline(tokens, flag, refuseBraces)
    case Some(i) => Value(tokens[i])
    case None =>
      match Position(tokens, flag)
      case None => Value(default)
      case Some(p) => if p + 1 < |tokens| then Value(tokens[p + 1]) else IndexPanic
  }

  /** What a lookup yields, stated over the tokens themselves. */
  lemma LookupCases(tokens: seq<string>, flag: string, default: string, refuseBraces: bool)
    ensures (forall j :: 0 <= j < |tokens| ==> !Contains(tokens[j], flag)) ==>
      LookupOption(tokens, flag, default, refuseBraces) == Value(default)
    ensures forall i :: (0 <= i < |tokens| && Inline(tokens[i], flag, refuseBraces)
      && (forall j :: 0 <= j < i ==> !Inline(tokens[j], flag, refuseBraces))) ==>
      LookupOption(tokens, flag, default, refuseBraces) == Value(tokens[i])
    ensures LookupOption(tokens, flag, default, refuseBraces) == IndexPanic <==>
      && (forall j :: 0 <= j < |tokens| ==> !Inline(tokens[j], flag, refuseBraces))
      && |tokens| > 0 && Contains(tokens[|tokens| - 1], flag)
      && (forall j :: 0 <= j < |tokens| - 1 ==> !Contains(tokens[j], flag))
  {
    var f := FindInline(tokens, flag, refuseBraces);
    var p := Position(tokens, flag);
  }

  /** A bare flag followed by its value, with no inline form after them,
      gives that value, as in `--height 40%`, whatever the default and
      whether or not the flag is `--color`.  (When the value itself
      mentions the flag it is found as the inline form instead, with the
      same result.) */
  lemma {:induction false} SeparateValue(before: seq<string>, flag: string, value: string, after: seq<string>, default: string, refuseBraces: bool)
    requires forall j :: 0 <= j < |before| ==> !Contains(before[j], flag)
    requires forall j :: 0 <= j < |after| ==> !Inline(after[j], flag, refuseBraces)
    ensures LookupOption(before + [flag, value] + after, flag, default, refuseBraces) == Value(value)
  {
    var tokens := before + [flag, value] + after;
    assert OccursAt(flag, flag, 0);
    assert tokens[|before|] == flag && tokens[|before| + 1] == value;
    assert forall j :: 0 <= j < |before| ==> tokens[j] == before[j];
    assert forall j :: |before| + 2 <= j < |tokens| ==> tokens[j] == after[j - |before| - 2];
    if Inline(value, flag, refuseBraces) {
      assert FindInline(tokens, flag, refuseBraces) == Some(|before| + 1);
    } else {
      assert FindInline(tokens, flag, refuseBraces).None?;
      assert Position(tokens, flag) == Some(|before|);
    }
  }

  /** The `--bind` tokens, in order. */
  function Binds(tokens: seq<string>): (binds: seq<string>)
    ensures |binds| <= |tokens|
    ensures forall k :: 0 <= k < |binds| ==> Contains(binds[k], "--bind")
    ensures forall j :: 0 <= j < |tokens| && Contains(tokens[j], "--bind") ==> tokens[j] in binds
    ensures forall k :: 0 <= k < |binds| ==> binds[k] in tokens
  {
    if |tokens| == 0 then []
    else
      var rest := Binds(tokens[1..]);
      assert forall j :: 1 <= j < |tokens| ==> tokens[j] == tokens[1..][j - 1];
      if Contains(tokens[0], "--bind") then [tokens[0]] + rest else rest
  }

  /** A single token is kept exactly when it mentions `--bind`. */
  lemma BindsOfOne(token: string)
    ensures Contains(token, "--bind") ==> Binds([token]) == [token]
    ensures !Contains(token, "--bind") ==> Binds([token]) == []
  {
    assert [token][1..] == [];
  }

  /** The filter keeps order and multiplicity: the binds of two runs of
      tokens are the binds of the first followed by those of the second. */
  lemma {:induction false} BindsAppend(a: seq<string>, b: seq<string>)
    ensures Binds(a + b) == Binds(a) + Binds(b)
  {
    if |a| == 0 {
      assert a + b == b;
    } else {
      assert (a + b)[1..] == a[1..] + b;
      BindsAppend(a[1..], b);
    }
  }

  /** `iter().any(...)`. */
  function AnyMentions(tokens: seq<string>, flag: string): (b: bool)
    ensures b <==> exists j :: 0 <= j < |tokens| && Contains(tokens[j], flag)
  {
    Position(tokens, flag).Some?
  }

  /** The options builder; `None` when one of the four lookups indexes past
      the last token. */
  function Build(tokens: seq<string>, preview: Option<string>): (o: Option<Options>)
    ensures o.None? ==> |tokens| > 0
    ensures o.Some? ==> o.value.preview == preview && o.value.bind == Binds(tokens) && !o.value.multi
    ensures o.Some? ==>
      && (o.value.margin == DefaultMargin || o.value.margin in tokens)
      && (o.value.height == DefaultHeight || o.value.height in tokens)
      && (o.value.layout == DefaultLayout || o.value.layout in tokens)
      && (o.value.color == DefaultTheme || o.value.color in tokens)
  {
    var margin := LookupOption(tokens, "--margin", DefaultMargin, false);
    var height := LookupOption(tokens, "--height", DefaultHeight, false);
    var layout := LookupOption(tokens, "--layout", DefaultLayout, false);
    var color := LookupOption(tokens, "--color", DefaultTheme, true);
    if margin.IndexPanic? || height.IndexPanic? || layout.IndexPanic? || color.IndexPanic? then None
    else Some(Options(preview, margin.value, height.value, layout.value, color.value, Binds(tokens),
      AnyMentions(tokens, "--reverse"), AnyMentions(tokens, "--tac"),
      AnyMentions(tokens, "--no-sort"), AnyMentions(tokens, "--inline-info"), false))
  }

  /** With `SKIM_DEFAULT_OPTIONS` unset or empty, skim runs with the
      defaults: margin 0%, height 50%, the default layout and skim's theme,
      single selection. */
  lemma BuildDefaults(preview: Option<string>)
    ensures Build([], preview) == Some(Options(preview, DefaultMargin, DefaultHeight, DefaultLayout,
      DefaultTheme, [], false, false, false, false, false))
  {
  }

  /** The builder succeeds exactly when no lookup panics, and then the
      preview is passed through and multi-selection is off. */
  lemma BuildPanicsOnlyOnDanglingFlag(tokens: seq<string>, preview: Option<string>)
    ensures Build(tokens, preview).None? <==>
      LookupOption(tokens, "--margin", DefaultMargin, false).IndexPanic?
      || LookupOption(tokens, "--height", DefaultHeight, false).IndexPanic?
      || LookupOption(tokens, "--layout", DefaultLayout, false).IndexPanic?
      || LookupOption(tokens, "--color", DefaultTheme, true).IndexPanic?
    ensures Build(tokens, preview).Some? ==>
      Build(tokens, preview).value.preview == preview && !Build(tokens, preview).value.multi
  {
  }
}
