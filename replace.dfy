/**
 * Rust's `str::replace(from, to)` for a non-empty pattern: every occurrence of
 * `from`, found left to right without overlap, is replaced by `to`.  `Split`
 * cuts a string at those same occurrences; `replace` is `Split` followed by a
 * join with `to`, which is how the standard library itself defines it.
 */
module StrReplace {
  import opened Strings

  /** `s.replace(from, to)`. */
  function Replace(s: string, from: string, to: string): (r: string)
    requires |from| > 0
    decreases |s|
  {
    if |s| < |from| then s
    else if s[..|from|] == from then to + Replace(s[|from|..], from, to)
    else [s[0]] + Replace(s[1..], from, to)
  }

  /** `s.split(from)`: the pieces between the left-to-right, non-overlapping
      occurrences of `from`; there is always at least one piece. */
  function Split(s: string, from: string): (pieces: seq<string>)
    requires |from| > 0
    ensures |pieces| > 0
    decreases |s|
  {
    if |s| < |from| then [s]
    else if s[..|from|] == from then [""] + Split(s[|from|..], from)
    else
      var rest := Split(s[1..], from);
      [[s[0]] + rest[0]] + rest[1..]
  }

  /** Replacing is splitting at the occurrences and joining with the
      replacement. */
  lemma {:induction false} ReplaceIsSplitJoin(s: string, from: string, to: string)
    requires |from| > 0
    ensures Replace(s, from, to) == Join(Split(s, from), to)
    decreases |s|
  {
    if |s| < |from| {
    } else if s[..|from|] == from {
      ReplaceIsSplitJoin(s[|from|..], from, to);
      JoinCons("", Split(s[|from|..], from), to);
    } else {
      ReplaceIsSplitJoin(s[1..], from, to);
      JoinExtendHead([s[0]], Split(s[1..], from), to);
    }
  }

  /** Joining the pieces back with the pattern gives the original string:
      `Split` loses nothing. */
  lemma {:induction false} JoinSplit(s: string, from: string)
    requires |from| > 0
    ensures Join(Split(s, from), from) == s
    decreases |s|
  {
    if |s| < |from| {
    } else if s[..|from|] == from {
      var tail := s[|from|..];
      var rest := Split(tail, from);
      assert Split(s, from) == [""] + rest;
      JoinSplit(tail, from);
      JoinCons("", rest, from);
      assert Join(Split(s, from), from) == "" + from + tail;
      assert s == from + tail;
    } else {
      var tail := s[1..];
      var rest := Split(tail, from);
      assert Split(s, from) == [[s[0]] + rest[0]] + rest[1..];
      JoinSplit(tail, from);
      JoinExtendHead([s[0]], rest, from);
      assert s == [s[0]] + tail;
    }
  }

  lemma JoinCons(x: string, xs: seq<string>, sep: string)
    requires |xs| > 0
    ensures Join([x] + xs, sep) == x + sep + Join(xs, sep)
  {
    assert ([x] + xs)[1..] == xs;
  }

  lemma JoinExtendHead(c: string, xs: seq<string>, sep: string)
    requires |xs| > 0
    ensures Join([c + xs[0]] + xs[1..], sep) == c + Join(xs, sep)
  {
    if |xs| > 1 {
      assert ([c + xs[0]] + xs[1..])[1..] == xs[1..];
    }
  }

  /** The first piece is the text before the first occurrence: a prefix of
      the string with no occurrence starting inside it, followed by an
      occurrence unless it is the whole string. */
  lemma {:induction false} FirstPieceIsPrefix(s: string, from: string)
    requires |from| > 0
    ensures StartsWith(s, Split(s, from)[0])
    ensures forall i :: 0 <= i < |Split(s, from)[0]| ==> !OccursAt(s, from, i)
    ensures |Split(s, from)[0]| < |s| ==> OccursAt(s, from, |Split(s, from)[0]|)
    decreases |s|
  {
    if |s| >= |from| && s[..|from|] != from {
      var first := Split(s, from)[0];
      var rest := Split(s[1..], from)[0];
      FirstPieceIsPrefix(s[1..], from);
      assert first == [s[0]] + rest;
      forall i | 0 <= i < |first| ensures !OccursAt(s, from, i) {
        if i > 0 {
          OccursShift(s, from, i);
        }
      }
      if |first| < |s| {
        assert |rest| < |s[1..]|;
        OccursShift(s, from, |first|);
      }
    }
  }

  /** An occurrence at `i > 0` in `s` is an occurrence at `i - 1` in `s[1..]`. */
  lemma OccursShift(s: string, from: string, i: nat)
    requires 0 < i <= |s|
    ensures OccursAt(s, from, i) <==> OccursAt(s[1..], from, i - 1)
  {
    if i + |from| <= |s| {
      assert s[i..i + |from|] == s[1..][i - 1..i - 1 + |from|];
    }
  }

  /** No piece contains the pattern: every occurrence was cut at. */
  lemma {:induction false} PiecesFree(s: string, from: string)
    requires |from| > 0
    ensures forall k :: 0 <= k < |Split(s, from)| ==> !Contains(Split(s, from)[k], from)
    decreases |s|
  {
    var pieces := Split(s, from);
    if |s| < |from| {
      forall i: nat | i <= |s| ensures !OccursAt(s, from, i) { }
    } else if s[..|from|] == from {
      PiecesFree(s[|from|..], from);
      forall k | 0 <= k < |pieces| ensures !Contains(pieces[k], from) {
        if k == 0 {
          assert pieces[0] == "";
        } else {
          assert pieces[k] == Split(s[|from|..], from)[k - 1];
        }
      }
    } else {
      var rest := Split(s[1..], from);
      PiecesFree(s[1..], from);
      FirstPieceIsPrefix(s[1..], from);
      forall k | 0 <= k < |pieces| ensures !Contains(pieces[k], from) {
        if k == 0 {
          var p := pieces[0];
          assert p == [s[0]] + rest[0];
          forall i: nat | i <= |p| ensures !OccursAt(p, from, i) {
            if i == 0 {
              if |from| <= |p| {
                assert p[..|from|] == s[..|from|];
              }
            } else if i + |from| <= |p| {
              assert p[i..i + |from|] == rest[0][i - 1..i - 1 + |from|];
              assert !OccursAt(rest[0], from, i - 1);
            }
          }
        } else {
          assert pieces[k] == rest[k];
        }
      }
    }
  }

  /** A string without the pattern is left unchanged. */
  lemma {:induction false} ReplaceAbsent(s: string, from: string, to: string)
    requires |from| > 0
    requires !Contains(s, from)
    ensures Replace(s, from, to) == s
    decreases |s|
  {
    if |s| >= |from| {
      assert !OccursAt(s, from, 0);
      assert !Contains(s[1..], from) by {
        forall i: nat | i <= |s| - 1 ensures !OccursAt(s[1..], from, i) {
          assert !OccursAt(s, from, i + 1);
          if i + |from| <= |s| - 1 {
            assert s[1..][i..i + |from|] == s[i + 1..i + 1 + |from|];
          }
        }
      }
      ReplaceAbsent(s[1..], from, to);
    }
  }

  /** A pattern with a character absent from `s` cannot occur in `s`. */
  lemma AbsentChar(s: string, from: string, k: nat)
    requires k < |from| && from[k] !in s
    ensures !Contains(s, from)
  {
    forall i: nat | i <= |s| ensures !OccursAt(s, from, i) {
      if i + |from| <= |s| {
        assert s[i..i + |from|][k] == s[i + k];
      }
    }
  }
}
