/**
 * Placeholder substitution in command templates.  Collected arguments are
 * substituted one after the other: `{0}` by the first, then `{1}` by the
 * second, and so on, each with `str::replace` on the result of the previous
 * step (src/runner.rs:362-364 for a widget's command, 395-397 for the final
 * command; the same loops are in src/lib.rs and extra/lib_arcsend.rs).
 */
module Template {
  import opened Strings
  import opened StrReplace

  /** `format!("{{{}}}", i)`: the text `{i}`. */
  function Placeholder(i: nat): (p: string)
    ensures |p| >= 3 && p[0] == '{' && p[|p| - 1] == '}'
    ensures forall k :: 1 <= k < |p| - 1 ==> IsDigit(p[k])
    ensures DigitsValue(p[1..|p| - 1]) == i
  {
    DecimalRoundTrip(i);
    var p := "{" + Decimal(i) + "}";
    assert p[1..|p| - 1] == Decimal(i);
    p
  }

  /** Placeholders of different indices are different strings. */
  lemma PlaceholderInjective(i: nat, j: nat)
    requires Placeholder(i) == Placeholder(j)
    ensures i == j
  {
    var p, q := Placeholder(i), Placeholder(j);
    assert Decimal(i) == p[1..|p| - 1];
    assert Decimal(j) == q[1..|q| - 1];
    DecimalInjective(i, j);
  }

  /** The template after replacing `{0}`, `{1}`, ..., `{n-1}` in that order,
      each by the argument of the same index. */
  function SubstituteFirst(template: string, args: seq<string>, n: nat): (r: string)
    requires n <= |args|
  {
    if n == 0 then template
    else Replace(SubstituteFirst(template, args, n - 1), Placeholder(n - 1), args[n - 1])
  }

  /** The substitution loop:
      `for (i, arg) in args.iter().enumerate().take(limit) { command = command.replace(&format!("{{{}}}", i), arg) }`.
      It substitutes exactly the first `min(limit, |args|)` arguments. */
  method Substitute(template: string, args: seq<string>, limit: nat) returns (command: string)
    ensures limit <= |args| ==> command == SubstituteFirst(template, args, limit)
    ensures limit >= |args| ==> command == SubstituteFirst(template, args, |args|)
  {
    command := template;
    var i := 0;
    while i < |args| && i < limit
      invariant i <= |args| && i <= limit
      invariant command == SubstituteFirst(template, args, i)
    {
      command := Replace(command, Placeholder(i), args[i]);
      i := i + 1;
    }
  }

  /** Substituting the first `n` arguments reads no argument at index `n`
      or beyond: no forward reference is ever resolved. */
  lemma {:induction false} SubstituteReadsOnlyPrefix(template: string, args: seq<string>, other: seq<string>, n: nat)
    requires n <= |args| && n <= |other|
    requires args[..n] == other[..n]
    ensures SubstituteFirst(template, args, n) == SubstituteFirst(template, other, n)
  {
    if n > 0 {
      assert args[..n - 1] == other[..n - 1] by {
        assert args[..n - 1] == args[..n][..n - 1];
        assert other[..n - 1] == other[..n][..n - 1];
      }
      SubstituteReadsOnlyPrefix(template, args, other, n - 1);
      assert args[n - 1] == args[..n][n - 1] == other[..n][n - 1] == other[n - 1];
    }
  }

  /** A template with no `{` is never changed, whatever the arguments. */
  lemma {:induction false} SubstituteWithoutBrace(template: string, args: seq<string>, n: nat)
    requires n <= |args|
    requires '{' !in template
    ensures SubstituteFirst(template, args, n) == template
  {
    if n > 0 {
      SubstituteWithoutBrace(template, args, n - 1);
      AbsentChar(template, Placeholder(n - 1), 0);
      ReplaceAbsent(template, Placeholder(n - 1), args[n - 1]);
    }
  }

  /** Substitution is sequential, not simultaneous: an argument that itself
      contains `{1}` is rewritten by the later step for index 1.  With the
      template `{0} {1}` and the arguments `{1}` and `x`, the result is
      `x x`. */
  lemma SequentialSubstitution()
    ensures SubstituteFirst("{0} {1}", ["{1}", "x"], 2) == "x x"
  {
    var t, args := "{0} {1}", ["{1}", "x"];
    assert Placeholder(0) == "{0}" && Placeholder(1) == "{1}";
    assert SubstituteFirst(t, args, 0) == t;
    // Step 0: the only `{0}` is at the front.
    AbsentChar(" {1}", "{0}", 1);
    assert t == "" + "{0}" + " {1}";
    ReplacePrefixFree("", "{0}", "{1}", " {1}");
    var mid := "{1}" + " {1}";
    assert SubstituteFirst(t, args, 1) == mid;
    // Step 1: both `{1}`, the original one and the substituted one, go.
    AbsentChar("", "{1}", 0);
    ReplacePrefixFree(" ", "{1}", "x", "");
    assert Replace(" {1}", "{1}", "x") == " x" by { assert " {1}" == " " + "{1}" + ""; }
    assert mid[..3] == "{1}" && mid[3..] == " {1}";
    assert Replace(mid, "{1}", "x") == "x" + " x";
  }

  /** An end-to-end example: `run {0} {1}` with the
      arguments `foo` and `bar` becomes `run foo bar`. */
  lemma RunFooBar()
    ensures SubstituteFirst("run {0} {1}", ["foo", "bar"], 2) == "run foo bar"
  {
    assert Placeholder(0) == "{0}";
    assert Placeholder(1) == "{1}";
    AbsentChar(" {1}", "{0}", 1);
    assert "run {0} {1}" == "run " + "{0}" + " {1}";
    ReplacePrefixFree("run ", "{0}", "foo", " {1}");
    assert "run " + "foo" + " {1}" == "run foo " + "{1}" + "";
    AbsentChar("", "{1}", 0);
    ReplacePrefixFree("run foo ", "{1}", "bar", "");
    assert "run foo " + "bar" + "" == "run foo bar";
  }

  /** A widget step substitutes only the arguments collected before it, so
      a placeholder for a later argument is left in place: at step 1 of
      `echo {0} {1}`, only `{0}` is replaced. */
  lemma ForwardReferenceKept()
    ensures SubstituteFirst("echo {0} {1}", ["a", "b"], 1) == "echo a {1}"
  {
    var t, args := "echo {0} {1}", ["a", "b"];
    assert Placeholder(0) == "{0}";
    assert SubstituteFirst(t, args, 0) == t;
    assert SubstituteFirst(t, args, 1) == Replace(t, "{0}", "a");
    AbsentChar(" {1}", "{0}", 1);
    assert t == "echo " + "{0}" + " {1}";
    ReplacePrefixFree("echo ", "{0}", "a", " {1}");
  }

  /** When the first character of `from` does not occur in `a`, and `from`
      does not occur in `b`, replacing in `a + from + b` touches exactly the
      middle occurrence. */
  lemma {:induction false} ReplacePrefixFree(a: string, from: string, to: string, b: string)
    requires |from| > 0 && from[0] !in a && !Contains(b, from)
    ensures Replace(a + from + b, from, to) == a + to + b
    decreases |a|
  {
    if |a| == 0 {
      assert (from + b)[..|from|] == from && (from + b)[|from|..] == b;
      ReplaceAbsent(b, from, to);
    } else {
      var s := a + from + b;
      assert s[..|from|] != from by { assert s[0] == a[0] != from[0]; }
      assert s[1..] == a[1..] + from + b;
      ReplacePrefixFree(a[1..], from, to, b);
      assert Replace(s, from, to) == [s[0]] + Replace(s[1..], from, to);
      assert a == [a[0]] + a[1..];
    }
  }
}
