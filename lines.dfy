/**
 * Rust's `str::lines`: the text is cut after every `\n`; a line ending is
 * `\n` or `\r\n` and is not part of the line; the final line ending is
 * optional, so a trailing `\n` adds no empty last line; a `\r` that is not
 * followed by `\n` stays in the line.
 */
module TextLines {
  import opened Strings

  /** A line without its ending: one trailing `\r` is dropped (the `\n` has
      already been cut off). */
  function StripCarriageReturn(line: string): (r: string)
    ensures EndsWith(line, "\r") ==> r + "\r" == line
    ensures !EndsWith(line, "\r") ==> r == line
  {
    StripSuffixOr(line, "\r")
  }

  /** `s.lines()`. */
  function Lines(s: string): (ls: seq<string>)
    ensures forall k :: 0 <= k < |ls| ==> '\n' !in ls[k]
    decreases |s|
  {
    if |s| == 0 then []
    else
      var i := FirstIndexOf(s, '\n');
      if i == |s| then [s]
      else [StripCarriageReturn(s[..i])] + Lines(s[i + 1..])
  }

  /** One line followed by its `\n` and the rest of the text. */
  lemma LinesCons(line: string, rest: string)
    requires '\n' !in line
    ensures Lines(line + "\n" + rest) == [StripCarriageReturn(line)] + Lines(rest)
  {
    var s := line + "\n" + rest;
    FirstIndexAfter(line, '\n', rest);
    assert s[..|line|] == line && s[|line| + 1..] == rest;
  }

  /** A non-empty text without `\n` is a single line, kept whole. */
  lemma LinesOfOne(s: string)
    requires |s| > 0 && '\n' !in s
    ensures Lines(s) == [s]
  {
    assert FirstIndexOf(s, '\n') == |s|;
  }

  /** Lines joined with `\n` are split back into the same lines, provided
      no line holds a `\n`, none ends with `\r`, and the last is not empty
      (an empty last line is indistinguishable from a final line ending). */
  lemma {:induction false} LinesOfJoin(ls: seq<string>)
    requires forall k :: 0 <= k < |ls| ==> '\n' !in ls[k] && !EndsWith(ls[k], "\r")
    requires |ls| > 0 ==> |ls[|ls| - 1]| > 0
    ensures Lines(Join(ls, "\n")) == ls
  {
    if |ls| == 1 {
      LinesOfOne(ls[0]);
    } else if |ls| > 1 {
      var rest := ls[1..];
      var tail := Join(rest, "\n");
      assert Join(ls, "\n") == ls[0] + "\n" + tail;
      LinesCons(ls[0], tail);
      assert StripCarriageReturn(ls[0]) == ls[0];
      LinesOfJoin(rest);
      assert Lines(ls[0] + "\n" + tail) == [ls[0]] + rest;
      assert ls == [ls[0]] + rest;
    }
  }

  /** A final line ending adds no empty element: with or without it the
      lines are the same (for text that does not already end in `\n` or a
      bare `\r`). */
  lemma {:induction false} FinalNewlineAddsNothing(s: string)
    requires |s| > 0 && s[|s| - 1] != '\n' && s[|s| - 1] != '\r'
    ensures Lines(s + "\n") == Lines(s)
    decreases |s|
  {
    var i := FirstIndexOf(s, '\n');
    var t := s + "\n";
    if i == |s| {
      LinesCons(s, "");
      assert t == s + "\n" + "";
      assert !EndsWith(s, "\r");
    } else {
      assert s == s[..i] + "\n" + s[i + 1..];
      LinesCons(s[..i], s[i + 1..]);
      assert t == s[..i] + "\n" + (s[i + 1..] + "\n");
      LinesCons(s[..i], s[i + 1..] + "\n");
      if |s[i + 1..]| > 0 {
        FinalNewlineAddsNothing(s[i + 1..]);
      }
    }
  }

  /** `\r\n` endings are stripped just like `\n` endings, and only one
      `\r` goes with each: a line that itself ends in `\r` keeps it. */
  lemma {:induction false} LinesOfCrlfJoin(ls: seq<string>)
    requires forall k :: 0 <= k < |ls| ==> '\n' !in ls[k]
    requires |ls| > 0 ==> |ls[|ls| - 1]| > 0
    ensures Lines(Join(ls, "\r\n")) == ls
  {
    if |ls| == 1 {
      LinesOfOne(ls[0]);
    } else if |ls| > 1 {
      LinesOfCrlfJoin(ls[1..]);
      CrlfJoinStep(ls);
    }
  }

  /** The inductive step: a first line ended by `\r\n` in front of lines
      that already split back correctly. */
  lemma CrlfJoinStep(ls: seq<string>)
    requires |ls| > 1 && '\n' !in ls[0]
    requires Lines(Join(ls[1..], "\r\n")) == ls[1..]
    ensures Lines(Join(ls, "\r\n")) == ls
  {
    JoinHead(ls, "\r\n");
    CrlfLine(ls[0], Join(ls[1..], "\r\n"));
    assert ls == [ls[0]] + ls[1..];
  }

  /** One line ended by `\r\n` loses its whole ending. */
  lemma CrlfLine(line: string, rest: string)
    requires '\n' !in line
    ensures Lines(line + "\r\n" + rest) == [line] + Lines(rest)
  {
    var head := line + "\r";
    assert line + "\r\n" + rest == head + "\n" + rest;
    assert '\n' !in head;
    LinesCons(head, rest);
    assert head[|head| - 1..] == "\r" && head[..|head| - 1] == line;
  }

  lemma JoinHead(ls: seq<string>, sep: string)
    requires |ls| > 1
    ensures Join(ls, sep) == ls[0] + sep + Join(ls[1..], sep)
  {
  }
}
